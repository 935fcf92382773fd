/** The five Lua entry points `l_log_fatal` ... `l_log_debug` with the
    non-zlog back end: each compares the configured level with its own
    severity and, when that lets it through, writes one line to stdout. */
module LuaLog {
  import opened Strings
  import opened Levels
  import opened FileName
  import opened Layout

  /** The process-wide logging state one Lua state talks to: the level
      `get_lua_log_level` reports and everything written to stdout so far. */
  class Logger {
    /** What `get_lua_log_level()` returns; it is compared with the enum codes. */
    const threshold: int
    /** The characters written to stdout, in order. */
    var stdout: string

    constructor (threshold: int)
      ensures this.threshold == threshold && stdout == []
    {
      this.threshold := threshold;
      stdout := [];
    }

    /** `print_time`: the prefix of a line, taking the clock reading, the
        process and thread ids as parameters instead of asking the system. */
    method PrintTime(now: Clock, pid: nat, tid: nat, file: string, line: int, level: char)
      modifies this
      ensures stdout == old(stdout) + Prefix(now, pid, tid, level, file, line)
    {
      stdout := stdout + Prefix(now, pid, tid, level, file, line);
    }

    /** `log_base`: the prefix, then the message written right after it. */
    method LogBase(now: Clock, pid: nat, tid: nat, file: string, line: int, message: string,
                   level: char)
      modifies this
      ensures stdout == old(stdout) + FormatLine(now, pid, tid, level, file, line, message)
    {
      ghost var before := stdout;
      ghost var prefix := Prefix(now, pid, tid, level, file, line);
      PrintTime(now, pid, tid, file, line, level);
      stdout := stdout + message;
      Concat3(before, prefix, message);
    }

    /** The shape every entry point shares: `printed` is whether the level
        passes the threshold, and exactly then one line with the level's tag
        is appended; otherwise nothing is written. */
    method Log(level: Severity, now: Clock, pid: nat, tid: nat, file: string, line: int,
               message: string) returns (printed: bool)
      requires level != NONE
      modifies this
      ensures printed <==> Emits(level, threshold)
      ensures stdout == if printed then old(stdout) + FormatLine(now, pid, tid, Tag(level), file, line, message)
                        else old(stdout)
    {
      printed := false;
      if threshold >= Code(level) {
        LogBase(now, pid, tid, file, line, message, Tag(level));
        printed := true;
      }
    }

    /** `l_log_fatal`: writes with tag 'F' when the threshold is at least FATAL (1). */
    method LogFatal(now: Clock, pid: nat, tid: nat, file: string, line: int, message: string)
      returns (printed: bool)
      modifies this
      ensures printed <==> threshold >= 1
      ensures stdout == if printed then old(stdout) + FormatLine(now, pid, tid, 'F', file, line, message)
                        else old(stdout)
    {
      printed := Log(FATAL, now, pid, tid, file, line, message);
      assert Tag(FATAL) == 'F';
    }

    /** `l_log_error`: writes with tag 'E' when the threshold is at least ERROR (2). */
    method LogError(now: Clock, pid: nat, tid: nat, file: string, line: int, message: string)
      returns (printed: bool)
      modifies this
      ensures printed <==> threshold >= 2
      ensures stdout == if printed then old(stdout) + FormatLine(now, pid, tid, 'E', file, line, message)
                        else old(stdout)
    {
      printed := Log(ERROR, now, pid, tid, file, line, message);
      assert Tag(ERROR) == 'E';
    }

    /** `l_log_warn`: writes with tag 'W' when the threshold is at least WARN (3). */
    method LogWarn(now: Clock, pid: nat, tid: nat, file: string, line: int, message: string)
      returns (printed: bool)
      modifies this
      ensures printed <==> threshold >= 3
      ensures stdout == if printed then old(stdout) + FormatLine(now, pid, tid, 'W', file, line, message)
                        else old(stdout)
    {
      printed := Log(WARN, now, pid, tid, file, line, message);
      assert Tag(WARN) == 'W';
    }

    /** `l_log_info`: writes with tag 'I' when the threshold is at least INFO (4). */
    method LogInfo(now: Clock, pid: nat, tid: nat, file: string, line: int, message: string)
      returns (printed: bool)
      modifies this
      ensures printed <==> threshold >= 4
      ensures stdout == if printed then old(stdout) + FormatLine(now, pid, tid, 'I', file, line, message)
                        else old(stdout)
    {
      printed := Log(INFO, now, pid, tid, file, line, message);
      assert Tag(INFO) == 'I';
    }

    /** `l_log_debug`: writes with tag 'D' when the threshold is at least DEBUG (5). */
    method LogDebug(now: Clock, pid: nat, tid: nat, file: string, line: int, message: string)
      returns (printed: bool)
      modifies this
      ensures printed <==> threshold >= 5
      ensures stdout == if printed then old(stdout) + FormatLine(now, pid, tid, 'D', file, line, message)
                        else old(stdout)
    {
      printed := Log(DEBUG, now, pid, tid, file, line, message);
      assert Tag(DEBUG) == 'D';
    }
  }

  /** Writing the prefix and then the message appends the two together. */
  lemma Concat3(a: string, b: string, c: string)
    ensures a + b + c == a + (b + c)
  {
  }

  /** A line written by an entry point names that entry point's severity:
      reading it back yields the tag, and the tag yields the severity. */
  lemma LineNamesItsLevel(level: Severity, now: Clock, pid: nat, tid: nat, file: string,
                          line: int, message: string)
    requires level != NONE && ValidClock(now) && '|' !in StripPath(file)
    ensures ParseLine(FormatLine(now, pid, tid, Tag(level), file, line, message)).Some?
    ensures TagSeverity(ParseLine(FormatLine(now, pid, tid, Tag(level), file, line, message)).value.level)
            == Some(level)
  {
    TagBijective(level, Tag(level));
    ParseFormatLine(now, pid, tid, Tag(level), file, line, message);
  }
}
