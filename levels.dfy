/** The severity enumeration of log.c and the threshold test that every
    entry point applies before it writes anything. */
module Levels {
  import opened Strings

  /** log.c's anonymous enum, in declaration order: a higher code is more verbose. */
  datatype Severity = NONE | FATAL | ERROR | WARN | INFO | DEBUG

  /** The five severities that have an entry point, in registration order. */
  const ENTRIES: seq<Severity> := [FATAL, ERROR, WARN, INFO, DEBUG]

  /** The C value of an enumerator: its position in the declaration. */
  function Code(s: Severity): (n: nat)
    ensures n <= 5
    ensures s == NONE <==> n == 0
    ensures s != NONE ==> ENTRIES[n - 1] == s
  {
    match s
    case NONE => 0
    case FATAL => 1
    case ERROR => 2
    case WARN => 3
    case INFO => 4
    case DEBUG => 5
  }

  /** The enumerator with C value `n`, if there is one. */
  function FromCode(n: int): (r: Option<Severity>)
    ensures r.Some? <==> 0 <= n <= 5
    ensures r.Some? ==> Code(r.value) == n
  {
    if n == 0 then Some(NONE)
    else if 1 <= n <= 5 then Some(ENTRIES[n - 1])
    else None
  }

  lemma CodeRoundTrip(s: Severity)
    ensures FromCode(Code(s)) == Some(s)
  {
  }

  /** The gate of an entry point: `get_lua_log_level() >= <level>`. */
  predicate Emits(level: Severity, threshold: int) {
    threshold >= Code(level)
  }

  /** The level character written into the line by each entry point. */
  function Tag(s: Severity): char
    requires s != NONE
  {
    match s
    case FATAL => 'F'
    case ERROR => 'E'
    case WARN => 'W'
    case INFO => 'I'
    case DEBUG => 'D'
  }

  /** Reads a level character back; every other character is not a tag. */
  function TagSeverity(c: char): Option<Severity> {
    match c
    case 'F' => Some(FATAL)
    case 'E' => Some(ERROR)
    case 'W' => Some(WARN)
    case 'I' => Some(INFO)
    case 'D' => Some(DEBUG)
    case _ => None
  }

  /** Tags are a bijection between the five entry severities and "FEWID". */
  lemma TagBijective(s: Severity, c: char)
    requires s != NONE
    ensures TagSeverity(Tag(s)) == Some(s)
    ensures TagSeverity(c) == Some(s) <==> Tag(s) == c
    ensures TagSeverity(c).Some? ==> TagSeverity(c).value != NONE
  {
  }

  /** Raising the threshold never suppresses a level that was emitted. */
  lemma EmitsMonotoneInThreshold(level: Severity, t: int, t': int)
    requires t <= t' && Emits(level, t)
    ensures Emits(level, t')
  {
  }

  /** If a more verbose level is emitted, every less verbose level is emitted too. */
  lemma EmitsMonotoneInLevel(quiet: Severity, verbose: Severity, t: int)
    requires Code(quiet) <= Code(verbose) && Emits(verbose, t)
    ensures Emits(quiet, t)
  {
  }

  /** Threshold NONE (or below) suppresses all five entry points; DEBUG (or above) lets all through. */
  lemma Extremes(level: Severity, t: int)
    requires level in ENTRIES
    ensures t <= Code(NONE) ==> !Emits(level, t)
    ensures t >= Code(DEBUG) ==> Emits(level, t)
  {
  }

  /** The number of entry points a threshold lets through. */
  function Open(t: int): (k: nat)
    ensures k <= |ENTRIES|
  {
    if t < 0 then 0 else if t > 5 then 5 else t
  }

  /** At threshold `t` the emitting entry points are exactly the first `Open(t)`
      entries of the enumeration: NONE < FATAL < ERROR < WARN < INFO < DEBUG. */
  lemma {:induction false} EmitsIsPrefix(level: Severity, t: int)
    requires level in ENTRIES
    ensures Emits(level, t) <==> level in ENTRIES[..Open(t)]
  {
    var k := Code(level);
    assert ENTRIES[k - 1] == level;
    if Emits(level, t) {
      assert ENTRIES[..Open(t)][k - 1] == level;
    } else {
      forall j | 0 <= j < Open(t) ensures ENTRIES[..Open(t)][j] != level {
        assert Code(ENTRIES[j]) == j + 1;
      }
    }
  }
}
