# lualog: the Lua logging bridge of log.c

`log.c` gives Lua scripts five logging calls, `l_log_fatal`, `l_log_error`,
`l_log_warn`, `l_log_info` and `l_log_debug`. Each takes a file name, a line
number and a message. It compares the process's log level
(`get_lua_log_level()`) with its own severity from the enum
`NONE < FATAL < ERROR < WARN < INFO < DEBUG`. If the level is at least that
severity, it writes one line to stdout and returns `true` to Lua; otherwise it
writes nothing and returns `false`. The line is
`MM/DD HH:MM:SS:mmm|P<pid>T<tid>|<c>|<file>:<line>|<message>`, where `<c>` is
one of `F E W I D` and `<file>` is the name with its directory part removed
(`get_file_name`). No newline follows the message.

The model covers the build without `USING_ZLOG`, in five modules:

- `Strings` holds the character searches and the decimal conversions the
  layout uses (`strrchr`, `%u`, `%d`, `%0<w>d`). It also holds their inverse
  parsers, which the round-trip lemmas need.
- `Levels` holds the severity enum, its C codes, the threshold test, and the
  level characters.
- `FileName` holds `get_file_name`.
- `Layout` holds the text of one line, and a parser `ParseLine` that reads a
  line back into a `Record`; the formatter is proved against the parser. The
  two share the timestamp's field widths and separators, so a lemma also
  spells out one complete line character by character, fixing the literal
  layout.
- `LuaLog` holds the class `Logger`. Its constant `threshold` is what
  `get_lua_log_level()` returns, and its field `stdout` is everything written
  so far. Its methods are `print_time`, `log_base` and the five entry points.

The model takes three things as parameters instead of calls into the system:
the clock reading (`ftime` plus `localtime`, as a `Clock` with `struct tm`
conventions), the process id, and the thread id.

## Model

| member | source | states |
|---|---|---|
| `Strings.LastIndexOf` | log.c:60 | the index found holds '/' and no later index does; there is no result exactly when '/' does not occur (`strrchr`) |
| `Strings.ZeroPadRoundTrip` | log.c:76 | `%02d` and `%03d` give exactly 2 or 3 digits for values below 100 or 1000, and those digits read back as the value |
| `Strings.SignedRoundTrip` | log.c:76 | the `%d` rendering of any line number, negative included, reads back as that number |
| `FileName.StripPath` | log.c:56-67 | the result is a suffix of the path and contains no '/'; a path without '/' (the empty path included) is returned unchanged; otherwise the character just before the result is a '/' |
| `FileName.StripPathAfterLastSlash` | log.c:58-64 | for `dir + "/" + name` with no '/' in `name`, the result is exactly `name`, whatever `dir` holds |
| `FileName.TrailingSlash` | log.c:60-64 | a path ending in '/' strips to the empty name |
| `FileName.StripPathIdempotent` | log.c:56-67 | stripping an already stripped name changes nothing |
| `FileName.StripPathHasNo` | log.c:56-67 | a character the path lacks is also missing from the stripped name |
| `Levels.Code` | log.c:42-50 | the enum's C values run from 0 (NONE) to 5 (DEBUG) in declaration order |
| `Levels.FromCode` | log.c:42-50 | exactly the integers 0..5 name an enumerator, and each names the one with that code |
| `Levels.CodeRoundTrip` | log.c:42-50 | codes are a bijection between the six enumerators and 0..5 |
| `Levels.TagBijective` | log.c:111 | the level characters F, E, W, I, D identify the five entry severities one to one (lines 111, 129, 147, 165 and 183) |
| `Levels.EmitsMonotoneInThreshold` | log.c:109-113 | the gate `get_lua_log_level() >= level` is monotone: raising the threshold never suppresses a line that was written |
| `Levels.EmitsMonotoneInLevel` | log.c:101-189 | if a more verbose entry point writes at some threshold, every less verbose one writes too |
| `Levels.Extremes` | log.c:42-50 | a threshold of NONE or less silences all five entry points; one of DEBUG or more lets all five through |
| `Levels.EmitsIsPrefix` | log.c:101-189 | at threshold `t` the entry points that write are exactly the first `clamp(t, 0, 5)` of FATAL, ERROR, WARN, INFO, DEBUG |
| `Layout.Shown` | log.c:77-82 | the month shown is `tm_mon + 1`, so it lies in 1..12 for a valid clock |
| `Layout.FieldsRoundTrip` | log.c:76-82 | for a clock within `localtime`'s ranges, each of the six timestamp fields has its fixed width and reads back as its value |
| `Layout.TimestampRoundTrip` | log.c:76-82 | the `MM/DD HH:MM:SS:mmm` timestamp reads back as month + 1, day, hour, minute, second and millisecond |
| `Layout.IdsRoundTrip` | log.c:76-84 | `P<pid>T<tid>` contains no '|' and gives back both ids |
| `Layout.LocationRoundTrip` | log.c:86-87 | `<file>:<line>` gives back the stripped name and the signed line number; the split happens at the last ':', so names that contain ':' or '|' survive; the result holds no '|' when the stripped name holds none |
| `Layout.ParseFormatLine` | log.c:76-96 | every field of a written line reads back unchanged: timestamp, pid, tid, level character, stripped file name, line, and the whole message verbatim, '|' included |
| `Layout.NoNewlineAdded` | log.c:95-96 | when neither the level character nor the stripped file name holds a newline, a written line contains a newline exactly when its message does: the layout adds no line break |
| `Layout.ExampleLine` | log.c:76-96 | the literal text of one line: clock 01/05 09:07:03.042, pid 12, tid 34, level 'E', file `a/b.lua`, line 10 and message `x` give exactly `01/05 09:07:03:042|P12T34|E|b.lua:10|x` |
| `LuaLog.Logger.PrintTime` | log.c:70-89 | appends exactly the prefix `...|<c>|<file>:<line>|` and nothing else |
| `LuaLog.Logger.LogBase` | log.c:92-97 | appends exactly one line: the prefix followed by the message |
| `LuaLog.Logger.Log` | log.c:108-115 | `printed` holds exactly when the threshold is at least the severity's code; then exactly one line carrying the severity's tag is appended, otherwise stdout is unchanged |
| `LuaLog.Logger.LogFatal` | log.c:101-117 | `printed` holds iff threshold >= 1; if so one 'F' line is appended, otherwise nothing is written |
| `LuaLog.Logger.LogError` | log.c:119-135 | `printed` holds iff threshold >= 2; if so one 'E' line is appended, otherwise nothing is written |
| `LuaLog.Logger.LogWarn` | log.c:137-153 | `printed` holds iff threshold >= 3; if so one 'W' line is appended, otherwise nothing is written |
| `LuaLog.Logger.LogInfo` | log.c:155-171 | `printed` holds iff threshold >= 4; if so one 'I' line is appended, otherwise nothing is written |
| `LuaLog.Logger.LogDebug` | log.c:173-189 | `printed` holds iff threshold >= 5; if so one 'D' line is appended, otherwise nothing is written |
| `LuaLog.LineNamesItsLevel` | log.c:101-189 | reading a written line back yields the entry point's tag, and the tag names that entry point's severity |

## Left out

- The clock, `getpid()` and `pthread_self()` are parameters. `ftime`, `localtime` and time zones are not modelled. `pthread_t` is treated as an unsigned number.
- The Lua side is not modelled: reading arguments with `lua_tostring` and `luaL_checkint`, the Lua error `luaL_checkint` raises for a non-number, `lua_pushboolean`, and registration in `luaopen_lib_lualog`. The entry points take these values as parameters and return `printed`.
- `get_lua_log_level` and `init_lua_log_level` are only declared in log.c. The level is a constant of the logger. A level that changes between calls is not modelled.
- The `USING_ZLOG` back end is not modelled.
- `fflush` and stdio buffering are not modelled. stdout is one string that the writes append to.
- Concurrent callers are not modelled. Nothing in log.c makes their lines atomic, and two threads' writes may interleave.
- A NULL file name or message is not modelled. Strings are sequences of characters: C's stop at the first NUL byte and multi-byte encodings are not modelled.
- `LuaLog.Logger.LogBase` writes the message verbatim. log.c passes the message to `fprintf` as the format string, where a '%' starts a conversion: `%%` prints a single '%', and most other conversions read arguments that were never passed, which is undefined behaviour in C. The model is faithful only for messages without '%'.
- `Strings.SignedRoundTrip` works on unbounded integers. `luaL_checkint` returns a C `int`, and its truncation of larger Lua numbers is not modelled.
- `Layout.ParseFormatLine` reads a line back only when the stripped file name and the level character contain no '|'. log.c writes such names as they are, and the parser cannot tell their '|' from a separator.
- `Layout.TimestampRoundTrip` needs the clock within the ranges `localtime` produces. Outside them `%02d` prints wider fields, which the formatter writes and the parser rejects.
