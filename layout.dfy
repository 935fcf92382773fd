/** The text of one log line: the prefix `print_time` writes,
    `MM/DD HH:MM:SS:mmm|P<pid>T<tid>|<c>|<file>:<line>|`, followed by the
    message `log_base` writes after it. The formatter is proved against a
    parser for that layout; the two share the timestamp's field widths and
    separators, so one complete line is also spelled out literally. */
module Layout {
  import opened Strings
  import opened FileName

  /** The broken-down local time `print_time` reads: `struct tm` fields
      (`tm_mon` counts from 0) and the millisecond part of `struct timeb`. */
  datatype Clock = Clock(mon: nat, mday: nat, hour: nat, min: nat, sec: nat, millitm: nat)

  /** The ranges `localtime` and `ftime` produce (a leap second allows 60). */
  predicate ValidClock(t: Clock) {
    t.mon <= 11 && 1 <= t.mday <= 31 && t.hour <= 23 && t.min <= 59
    && t.sec <= 60 && t.millitm <= 999
  }

  /** The widths of `%02d/%02d %02d:%02d:%02d:%03d` and the separators between its fields. */
  const WIDTHS: seq<nat> := [2, 2, 2, 2, 2, 3]
  const SEPARATORS: string := "/ :::"

  /** The six conversions over `tm_mon+1`, `tm_mday`, `tm_hour`, `tm_min`, `tm_sec` and `millitm`. */
  function TimestampFields(t: Clock): seq<string> {
    [ZeroPad(t.mon + 1, 2), ZeroPad(t.mday, 2), ZeroPad(t.hour, 2),
     ZeroPad(t.min, 2), ZeroPad(t.sec, 2), ZeroPad(t.millitm, 3)]
  }

  /** `MM/DD HH:MM:SS:mmm`. */
  function Timestamp(t: Clock): string {
    Join(TimestampFields(t), SEPARATORS)
  }

  /** `P%uT%lu`: process id, then thread id. */
  function Ids(pid: nat, tid: nat): string {
    "P" + Decimal(pid) + "T" + Decimal(tid)
  }

  /** `%s:%d` over the stripped file name and the line number. */
  function Location(file: string, line: int): string {
    StripPath(file) + ":" + Signed(line)
  }

  /** Everything `print_time` writes for one call: four segments, each closed by '|'. */
  function Prefix(t: Clock, pid: nat, tid: nat, level: char, file: string, line: int): string {
    Terminated([Timestamp(t), Ids(pid, tid), [level], Location(file, line)], '|')
  }

  /** One complete line: the prefix, then the message verbatim; no newline follows. */
  function FormatLine(t: Clock, pid: nat, tid: nat, level: char, file: string, line: int,
                      message: string): string
  {
    Prefix(t, pid, tid, level, file, line) + message
  }

  /** The six numbers a timestamp shows, the month counted from 1. */
  datatype Stamp = Stamp(month: nat, day: nat, hour: nat, minute: nat, second: nat, milli: nat)

  /** What `print_time` shows of a clock reading: `tm_mon + 1` and the other fields as they are. */
  function Shown(t: Clock): (s: Stamp)
    ensures ValidClock(t) ==> 1 <= s.month <= 12
  {
    Stamp(t.mon + 1, t.mday, t.hour, t.min, t.sec, t.millitm)
  }

  /** The fields a line carries, as a reader of the log recovers them. */
  datatype Record = Record(stamp: Stamp, pid: nat, tid: nat, level: char, file: string,
                           line: int, message: string)

  /** Reads the timestamp back; a field of the wrong width is rejected. */
  function ParseTimestamp(s: string): Option<Stamp> {
    var r := ParseFields(s, WIDTHS, SEPARATORS);
    if r.None? then None
    else Some(Stamp(r.value[0], r.value[1], r.value[2], r.value[3], r.value[4], r.value[5]))
  }

  function ParseIds(s: string): Option<(nat, nat)> {
    if |s| == 0 || s[0] != 'P' then None
    else
      var split :- SplitFirst(s[1..], 'T');
      var (p, t) := split;
      if |p| >= 1 && IsDigits(p) && |t| >= 1 && IsDigits(t) then Some((ParseNat(p), ParseNat(t)))
      else None
  }

  /** The line number follows the last ':', so a file name may itself hold ':'. */
  function ParseLocation(s: string): Option<(string, int)> {
    var split :- SplitLast(s, ':');
    var n :- ParseSigned(split.1);
    Some((split.0, n))
  }

  /** Reads a line back into its fields: the first four '|' close the timestamp,
      the ids, the level and the location; everything after is the message. */
  function ParseLine(s: string): Option<Record> {
    var split :- SplitTerminated(s, '|', 4);
    var (segs, message) := split;
    if |segs[2]| != 1 then None
    else
      var t :- ParseTimestamp(segs[0]);
      var ids :- ParseIds(segs[1]);
      var loc :- ParseLocation(segs[3]);
      Some(Record(t, ids.0, ids.1, segs[2][0], loc.0, loc.1, message))
  }

  lemma SeparatorsAreNotDigits()
    ensures forall i :: 0 <= i < |SEPARATORS| ==> !IsDigit(SEPARATORS[i])
  {
  }

  /** Within the clock's ranges each conversion fills exactly its width and reads back as its value. */
  lemma FieldsRoundTrip(t: Clock)
    requires ValidClock(t)
    ensures forall i :: 0 <= i < |TimestampFields(t)| ==>
              |TimestampFields(t)[i]| == WIDTHS[i] && IsDigits(TimestampFields(t)[i])
    ensures ParseNat(TimestampFields(t)[0]) == t.mon + 1 && ParseNat(TimestampFields(t)[1]) == t.mday
    ensures ParseNat(TimestampFields(t)[2]) == t.hour && ParseNat(TimestampFields(t)[3]) == t.min
    ensures ParseNat(TimestampFields(t)[4]) == t.sec && ParseNat(TimestampFields(t)[5]) == t.millitm
  {
    assert Pow10(2) == 100 && Pow10(3) == 1000;
    ZeroPadRoundTrip(t.mon + 1, 2);
    ZeroPadRoundTrip(t.mday, 2);
    ZeroPadRoundTrip(t.hour, 2);
    ZeroPadRoundTrip(t.min, 2);
    ZeroPadRoundTrip(t.sec, 2);
    ZeroPadRoundTrip(t.millitm, 3);
    var f := TimestampFields(t);
    assert |f[0]| == 2 && |f[1]| == 2 && |f[2]| == 2 && |f[3]| == 2 && |f[4]| == 2 && |f[5]| == 3;
  }

  /** The timestamp reads back as the numbers `print_time` shows. */
  lemma TimestampRoundTrip(t: Clock)
    requires ValidClock(t)
    ensures ParseTimestamp(Timestamp(t)) == Some(Shown(t))
  {
    var f := TimestampFields(t);
    FieldsRoundTrip(t);
    SeparatorsAreNotDigits();
    ParseFieldsOfJoin(f, WIDTHS, SEPARATORS);
    var v := ParseFields(Timestamp(t), WIDTHS, SEPARATORS).value;
    assert v[0] == t.mon + 1 && v[1] == t.mday && v[2] == t.hour;
    assert v[3] == t.min && v[4] == t.sec && v[5] == t.millitm;
    assert Stamp(v[0], v[1], v[2], v[3], v[4], v[5]) == Shown(t);
  }

  /** A timestamp holds only digits and its separators. */
  lemma TimestampHasNo(t: Clock, c: char)
    requires !IsDigit(c) && c !in SEPARATORS
    ensures c !in Timestamp(t)
  {
    var f := TimestampFields(t);
    forall i | 0 <= i < |f| ensures c !in f[i] {
      DigitsHaveNo(f[i], c);
    }
    JoinHasNo(f, SEPARATORS, c);
  }

  lemma IdsHasNo(pid: nat, tid: nat, c: char)
    requires !IsDigit(c) && c != 'P' && c != 'T'
    ensures c !in Ids(pid, tid)
  {
    DigitsHaveNo(Decimal(pid), c);
    DigitsHaveNo(Decimal(tid), c);
  }

  lemma LocationHasNo(file: string, line: int, c: char)
    requires !IsDigit(c) && c != ':' && c != '-' && c !in StripPath(file)
    ensures c !in Location(file, line)
  {
    SignedHasNo(line, c);
  }

  lemma SegmentsHaveNo(stamp: string, ids: string, level: char, location: string, c: char)
    requires c !in stamp && c !in ids && c != level && c !in location && c != '|'
    ensures c !in Terminated([stamp, ids, [level], location], '|')
  {
    var segs := [stamp, ids, [level], location];
    forall i | 0 <= i < |segs| ensures c !in segs[i] {
      if i == 2 {
        assert segs[i] == [level];
      }
    }
    TerminatedHasNo(segs, '|', c);
  }

  /** No line break is added: a line holds a newline exactly when its message does,
      provided neither the level character nor the stripped file name holds one. */
  lemma NoNewlineAdded(t: Clock, pid: nat, tid: nat, level: char, file: string, line: int,
                       message: string)
    requires level != '\n' && '\n' !in StripPath(file)
    ensures '\n' in FormatLine(t, pid, tid, level, file, line, message) <==> '\n' in message
  {
    TimestampHasNo(t, '\n');
    IdsHasNo(pid, tid, '\n');
    LocationHasNo(file, line, '\n');
    SegmentsHaveNo(Timestamp(t), Ids(pid, tid), level, Location(file, line), '\n');
  }

  lemma PadOneDigit(n: nat)
    requires n < 10
    ensures ZeroPad(n, 2) == ['0', Digit(n)]
  {
    assert Decimal(n) == [Digit(n)];
    assert Zeros(1) == ['0'];
  }

  lemma ExamplePad()
    ensures ZeroPad(42, 3) == "042"
  {
    assert Decimal(42) == "42" by {
      assert Decimal(4) == "4" && Digit(2) == '2';
    }
  }

  lemma ExampleFields()
    ensures TimestampFields(Clock(0, 5, 9, 7, 3, 42)) == ["01", "05", "09", "07", "03", "042"]
  {
    PadOneDigit(1);
    PadOneDigit(5);
    PadOneDigit(9);
    PadOneDigit(7);
    PadOneDigit(3);
    ExamplePad();
  }

  lemma ExampleJoinTail()
    ensures Join(["07", "03", "042"], "::") == "07:03:042"
  {
    var f: seq<string> := ["07", "03", "042"];
    assert Join(f[2..], "") == "042";
    assert Join(f[1..], ":") == "03:042";
  }

  lemma ExampleJoin()
    ensures Join(["01", "05", "09", "07", "03", "042"], SEPARATORS) == "01/05 09:07:03:042"
  {
    var f: seq<string> := ["01", "05", "09", "07", "03", "042"];
    ExampleJoinTail();
    assert f[3..] == ["07", "03", "042"];
    assert Join(f[2..], ":::") == "09:07:03:042";
    assert Join(f[1..], " :::") == "05 09:07:03:042";
  }

  lemma ExampleIds()
    ensures Ids(12, 34) == "P12T34"
  {
    assert Decimal(12) == "12" by {
      assert Decimal(1) == "1" && Digit(2) == '2';
    }
    assert Decimal(34) == "34" by {
      assert Decimal(3) == "3" && Digit(4) == '4';
    }
  }

  lemma ExampleStrip()
    ensures StripPath("a/b.lua") == "b.lua"
  {
    StripPathAfterLastSlash("a", "b.lua");
    assert "a" + "/" + "b.lua" == "a/b.lua";
  }

  lemma ExampleSigned()
    ensures Signed(10) == "10"
  {
    assert Decimal(10) == "10" by {
      assert Decimal(1) == "1" && Digit(0) == '0';
    }
  }

  lemma ExampleLocation()
    ensures Location("a/b.lua", 10) == "b.lua:10"
  {
    ExampleStrip();
    ExampleSigned();
  }

  lemma ExampleTerminatedTail()
    ensures Terminated(["E", "b.lua:10"], '|') == "E|b.lua:10|"
  {
    var segs: seq<string> := ["E", "b.lua:10"];
    assert Terminated(segs[2..], '|') == "";
    assert Terminated(segs[1..], '|') == "b.lua:10|";
  }

  lemma ExampleTerminated()
    ensures Terminated(["01/05 09:07:03:042", "P12T34", "E", "b.lua:10"], '|')
            == "01/05 09:07:03:042|P12T34|E|b.lua:10|"
  {
    var segs: seq<string> := ["01/05 09:07:03:042", "P12T34", "E", "b.lua:10"];
    ExampleTerminatedTail();
    assert segs[2..] == ["E", "b.lua:10"];
    assert Terminated(segs[1..], '|') == "P12T34|E|b.lua:10|";
  }

  /** One line spelled out character by character, pinning the literal layout:
      zero padding, the separators `/`, ` `, `:` and `|`, and the stripped name. */
  lemma ExampleLine()
    ensures FormatLine(Clock(0, 5, 9, 7, 3, 42), 12, 34, 'E', "a/b.lua", 10, "x")
            == "01/05 09:07:03:042|P12T34|E|b.lua:10|x"
  {
    var t := Clock(0, 5, 9, 7, 3, 42);
    ExampleFields();
    ExampleJoin();
    assert Timestamp(t) == "01/05 09:07:03:042";
    ExampleIds();
    ExampleLocation();
    ExampleTerminated();
    assert Prefix(t, 12, 34, 'E', "a/b.lua", 10) == "01/05 09:07:03:042|P12T34|E|b.lua:10|";
  }

  lemma IdsRoundTrip(pid: nat, tid: nat)
    ensures '|' !in Ids(pid, tid)
    ensures ParseIds(Ids(pid, tid)) == Some((pid, tid))
  {
    var p, t := Decimal(pid), Decimal(tid);
    var s := Ids(pid, tid);
    assert s[1..] == p + "T" + t;
    SplitFirstOf(p, 'T', t);
    ParseDecimal(pid);
    ParseDecimal(tid);
  }

  /** The line number is split off at the last ':', so any stripped name,
      ':' and '|' included, comes back whole. */
  lemma LocationRoundTrip(file: string, line: int)
    ensures '|' !in StripPath(file) ==> '|' !in Location(file, line)
    ensures ParseLocation(Location(file, line)) == Some((StripPath(file), line))
  {
    SignedHasNo(line, ':');
    SignedHasNo(line, '|');
    SplitLastOf(StripPath(file), ':', Signed(line));
    SignedRoundTrip(line);
  }

  /** `ParseLine` takes four '|'-free segments apart again and hands each to its own parser. */
  lemma ParseLineOf(stamp: string, ids: string, level: char, location: string, message: string,
                    r: Record)
    requires '|' !in stamp && '|' !in ids && level != '|' && '|' !in location
    requires ParseTimestamp(stamp) == Some(r.stamp) && ParseIds(ids) == Some((r.pid, r.tid))
    requires ParseLocation(location) == Some((r.file, r.line))
    requires r.level == level && r.message == message
    ensures ParseLine(Terminated([stamp, ids, [level], location], '|') + message) == Some(r)
  {
    var segs := [stamp, ids, [level], location];
    forall i | 0 <= i < |segs| ensures '|' !in segs[i] {
      if i == 2 {
        assert segs[i] == [level];
      }
    }
    SplitTerminatedOf(segs, '|', message);
  }

  /** A line is its four segments, each closed by '|', then the message. */
  lemma FormatLineSegments(t: Clock, pid: nat, tid: nat, level: char, file: string, line: int,
                           message: string)
    ensures FormatLine(t, pid, tid, level, file, line, message)
            == Terminated([Timestamp(t), Ids(pid, tid), [level], Location(file, line)], '|') + message
  {
  }

  /** The timestamp segment is free of '|' and reads back as the time shown. */
  lemma StampRead(t: Clock, stamp: Stamp)
    requires ValidClock(t) && stamp == Shown(t)
    ensures '|' !in Timestamp(t) && ParseTimestamp(Timestamp(t)) == Some(stamp)
  {
    TimestampRoundTrip(t);
    TimestampHasNo(t, '|');
  }

  /** The ids and location segments are free of '|' and read back as the matching fields of `r`. */
  lemma SegmentsRead(pid: nat, tid: nat, file: string, line: int, r: Record)
    requires '|' !in StripPath(file)
    requires r.pid == pid && r.tid == tid && r.file == StripPath(file) && r.line == line
    ensures '|' !in Ids(pid, tid) && '|' !in Location(file, line)
    ensures ParseIds(Ids(pid, tid)) == Some((r.pid, r.tid))
    ensures ParseLocation(Location(file, line)) == Some((r.file, r.line))
  {
    IdsRoundTrip(pid, tid);
    LocationRoundTrip(file, line);
  }

  /** Every field of a formatted line reads back unchanged, the file name as
      `get_file_name` left it; the message is taken verbatim, '|' and all.
      The conditions are that the level character and the stripped file name
      are free of '|'. */
  lemma ParseFormatLine(t: Clock, pid: nat, tid: nat, level: char, file: string, line: int,
                        message: string)
    requires ValidClock(t) && level != '|' && '|' !in StripPath(file)
    ensures ParseLine(FormatLine(t, pid, tid, level, file, line, message))
            == Some(Record(Shown(t), pid, tid, level, StripPath(file), line, message))
  {
    var r := Record(Shown(t), pid, tid, level, StripPath(file), line, message);
    StampRead(t, r.stamp);
    SegmentsRead(pid, tid, file, line, r);
    ParseLineOf(Timestamp(t), Ids(pid, tid), level, Location(file, line), message, r);
    FormatLineSegments(t, pid, tid, level, file, line, message);
  }
}
