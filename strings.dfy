/** Character searches and decimal rendering used by the log line layout:
    the C library's `strrchr`, `printf`'s `%d`, `%u` and `%0<w>d`
    conversions, and the inverse parsing used to state round trips. */
module Strings {

  datatype Option<+T> = None | Some(value: T) {
    predicate IsFailure() {
      None?
    }

    function PropagateFailure<U>(): Option<U>
      requires None?
    {
      None
    }

    function Extract(): T
      requires Some?
    {
      value
    }
  }

  predicate IsDigit(c: char) {
    '0' <= c <= '9'
  }

  predicate IsDigits(s: string) {
    forall i :: 0 <= i < |s| ==> IsDigit(s[i])
  }

  function Digit(d: nat): (c: char)
    requires d < 10
    ensures IsDigit(c) && c as int - '0' as int == d
  {
    "0123456789"[d]
  }

  function DigitValue(c: char): (d: nat)
    requires IsDigit(c)
    ensures d < 10
  {
    c as int - '0' as int
  }

  lemma DigitsHaveNo(s: string, c: char)
    requires IsDigits(s) && !IsDigit(c)
    ensures c !in s
  {
  }

  /** First index of `c` in `s`; the parsers split at it. */
  function IndexOf(s: string, c: char): (r: Option<nat>)
    ensures r.Some? ==> r.value < |s| && s[r.value] == c
                        && forall j :: 0 <= j < r.value ==> s[j] != c
    ensures r.None? <==> c !in s
  {
    if s == [] then None
    else if s[0] == c then Some(0)
    else match IndexOf(s[1..], c)
      case None => None
      case Some(i) => Some(i + 1)
  }

  /** Last index of `c` in `s`, as `strrchr` finds it. */
  function LastIndexOf(s: string, c: char): (r: Option<nat>)
    ensures r.Some? ==> r.value < |s| && s[r.value] == c
                        && forall j :: r.value < j < |s| ==> s[j] != c
    ensures r.None? <==> c !in s
  {
    if s == [] then None
    else if s[|s| - 1] == c then Some(|s| - 1)
    else LastIndexOf(s[..|s| - 1], c)
  }

  lemma IndexOfSplit(a: string, c: char, b: string)
    requires c !in a
    ensures IndexOf(a + [c] + b, c) == Some(|a|)
  {
    var s := a + [c] + b;
    assert s[|a|] == c;
  }

  lemma {:induction false} LastIndexOfSplit(a: string, c: char, b: string)
    requires c !in b
    ensures LastIndexOf(a + [c] + b, c) == Some(|a|)
    decreases |b|
  {
    var s := a + [c] + b;
    if b == [] {
      assert s[|s| - 1] == c;
    } else {
      assert s[|s| - 1] == b[|b| - 1];
      assert s[..|s| - 1] == a + [c] + b[..|b| - 1];
      LastIndexOfSplit(a, c, b[..|b| - 1]);
    }
  }

  /** Splits `s` around the first `c`; None when `c` does not occur. */
  function SplitFirst(s: string, c: char): (r: Option<(string, string)>)
    ensures r.Some? <==> c in s
    ensures r.Some? ==> s == r.value.0 + [c] + r.value.1 && c !in r.value.0
  {
    match IndexOf(s, c)
    case None => None
    case Some(i) =>
      assert s == s[..i] + [c] + s[i + 1..];
      Some((s[..i], s[i + 1..]))
  }

  /** Splits `s` around the last `c`; None when `c` does not occur. */
  function SplitLast(s: string, c: char): (r: Option<(string, string)>)
    ensures r.Some? <==> c in s
    ensures r.Some? ==> s == r.value.0 + [c] + r.value.1 && c !in r.value.1
  {
    match LastIndexOf(s, c)
    case None => None
    case Some(i) =>
      assert s == s[..i] + [c] + s[i + 1..];
      Some((s[..i], s[i + 1..]))
  }

  lemma SplitFirstOf(a: string, c: char, b: string)
    requires c !in a
    ensures SplitFirst(a + [c] + b, c) == Some((a, b))
  {
    IndexOfSplit(a, c, b);
    var s := a + [c] + b;
    assert s[..|a|] == a;
    assert s[|a| + 1..] == b;
  }

  lemma SplitLastOf(a: string, c: char, b: string)
    requires c !in b
    ensures SplitLast(a + [c] + b, c) == Some((a, b))
  {
    LastIndexOfSplit(a, c, b);
    var s := a + [c] + b;
    assert s[..|a|] == a;
    assert s[|a| + 1..] == b;
  }

  /** `%u`: the shortest decimal rendering of `n`. */
  function Decimal(n: nat): (r: string)
    ensures |r| >= 1 && IsDigits(r)
  {
    if n < 10 then [Digit(n)] else Decimal(n / 10) + [Digit(n % 10)]
  }

  /** `%d`: a leading '-' for negative values, then the decimal digits. */
  function Signed(i: int): (r: string)
    ensures i >= 0 ==> IsDigits(r)
    ensures i < 0 ==> |r| >= 2 && r[0] == '-' && IsDigits(r[1..])
  {
    if i < 0 then "-" + Decimal(-i) else Decimal(i)
  }

  function Zeros(k: nat): (r: string)
    ensures |r| == k && IsDigits(r)
  {
    seq(k, _ => '0')
  }

  /** `%0<w>d` for a non-negative value: left zero padding to at least `w` characters. */
  function ZeroPad(n: nat, w: nat): (r: string)
    ensures IsDigits(r)
    ensures |r| == if |Decimal(n)| <= w then w else |Decimal(n)|
  {
    var d := Decimal(n);
    if |d| < w then Zeros(w - |d|) + d else d
  }

  function Pow10(w: nat): (p: nat)
    ensures p >= 1
  {
    if w == 0 then 1 else 10 * Pow10(w - 1)
  }

  /** The value of a string of decimal digits (leading zeros allowed). */
  function ParseNat(s: string): nat
    requires IsDigits(s)
  {
    if s == [] then 0 else ParseNat(s[..|s| - 1]) * 10 + DigitValue(s[|s| - 1])
  }

  /** The inverse of `Signed`: an optional '-' and at least one digit. */
  function ParseSigned(s: string): Option<int> {
    if |s| >= 2 && s[0] == '-' && IsDigits(s[1..]) then Some(0 - ParseNat(s[1..]))
    else if |s| >= 1 && IsDigits(s) then Some(ParseNat(s))
    else None
  }

  lemma {:induction false} DecimalWidth(n: nat, w: nat)
    requires w >= 1 && n < Pow10(w)
    ensures |Decimal(n)| <= w
  {
    if n >= 10 {
      assert n / 10 < Pow10(w - 1);
      DecimalWidth(n / 10, w - 1);
    }
  }

  lemma {:induction false} ParseDecimal(n: nat)
    ensures ParseNat(Decimal(n)) == n
  {
    var d := Decimal(n);
    if n >= 10 {
      ParseDecimal(n / 10);
      assert d[..|d| - 1] == Decimal(n / 10);
    }
  }

  lemma {:induction false} ParseLeadingZeros(k: nat, s: string)
    requires IsDigits(s)
    ensures ParseNat(Zeros(k) + s) == ParseNat(s)
    decreases |s|, k
  {
    var z := Zeros(k) + s;
    if s == [] {
      assert z == Zeros(k);
      if k > 0 {
        assert z[..|z| - 1] == Zeros(k - 1) + [];
        ParseLeadingZeros(k - 1, []);
      }
    } else {
      assert z[..|z| - 1] == Zeros(k) + s[..|s| - 1];
      ParseLeadingZeros(k, s[..|s| - 1]);
    }
  }

  /** `%0<w>d` renders exactly `w` digits for values below 10^w, and they read back as `n`. */
  lemma ZeroPadRoundTrip(n: nat, w: nat)
    requires w >= 1 && n < Pow10(w)
    ensures |ZeroPad(n, w)| == w
    ensures ParseNat(ZeroPad(n, w)) == n
  {
    DecimalWidth(n, w);
    ParseDecimal(n);
    var d := Decimal(n);
    if |d| < w {
      ParseLeadingZeros(w - |d|, d);
      assert ZeroPad(n, w) == Zeros(w - |d|) + d;
    } else {
      assert ZeroPad(n, w) == d;
    }
  }

  lemma ParseSignedDigits(d: string)
    requires |d| >= 1 && IsDigits(d)
    ensures ParseSigned(d) == Some(ParseNat(d))
  {
    assert IsDigit(d[0]);
  }

  lemma ParseSignedNegative(d: string)
    requires |d| >= 1 && IsDigits(d)
    ensures ParseSigned("-" + d) == Some(0 - ParseNat(d))
  {
    var s := "-" + d;
    assert s[0] == '-' && s[1..] == d;
  }

  lemma NegativeRoundTrip(n: nat)
    requires n > 0
    ensures ParseSigned(Signed(-(n as int))) == Some(-(n as int))
  {
    ParseDecimal(n);
    ParseSignedNegative(Decimal(n));
    assert Signed(-(n as int)) == "-" + Decimal(n);
  }

  lemma NonNegativeRoundTrip(n: nat)
    ensures ParseSigned(Signed(n)) == Some(n)
  {
    ParseDecimal(n);
    ParseSignedDigits(Decimal(n));
    assert Signed(n) == Decimal(n);
  }

  lemma SignedRoundTrip(i: int)
    ensures ParseSigned(Signed(i)) == Some(i)
  {
    if i < 0 {
      NegativeRoundTrip(-i);
    } else {
      NonNegativeRoundTrip(i);
    }
  }

  /** No decimal rendering contains a character outside '-' and the digits. */
  lemma SignedHasNo(i: int, c: char)
    requires c != '-' && !IsDigit(c)
    ensures c !in Signed(i)
  {
  }

  /** `segs[0] + [c] + segs[1] + [c] + ... + segs[n - 1] + [c]`: each segment closed by `c`. */
  function Terminated(segs: seq<string>, c: char): string {
    if segs == [] then [] else segs[0] + [c] + Terminated(segs[1..], c)
  }

  /** The first `n` segments closed by `c`, and whatever follows them. */
  function SplitTerminated(s: string, c: char, n: nat): (r: Option<(seq<string>, string)>)
    ensures r.Some? ==> |r.value.0| == n
  {
    if n == 0 then Some(([], s))
    else
      var first :- SplitFirst(s, c);
      var others :- SplitTerminated(first.1, c, n - 1);
      Some(([first.0] + others.0, others.1))
  }

  lemma {:induction false} SplitTerminatedOf(segs: seq<string>, c: char, rest: string)
    requires forall i :: 0 <= i < |segs| ==> c !in segs[i]
    ensures SplitTerminated(Terminated(segs, c) + rest, c, |segs|).Some?
    ensures SplitTerminated(Terminated(segs, c) + rest, c, |segs|).value == (segs, rest)
  {
    if segs != [] {
      var s := Terminated(segs, c) + rest;
      var tail := Terminated(segs[1..], c) + rest;
      assert s == segs[0] + [c] + tail;
      SplitFirstOf(segs[0], c, tail);
      assert SplitFirst(s, c) == Some((segs[0], tail));
      SplitTerminatedOf(segs[1..], c, rest);
      var others := SplitTerminated(tail, c, |segs| - 1);
      assert others.Some? && others.value == (segs[1..], rest);
      var r := SplitTerminated(s, c, |segs|);
      assert r == Some(([segs[0]] + others.value.0, others.value.1));
      assert [segs[0]] + segs[1..] == segs;
    } else {
      assert Terminated(segs, c) + rest == rest;
    }
  }

  lemma {:induction false} TerminatedHasNo(segs: seq<string>, c: char, d: char)
    requires c != d
    requires forall i :: 0 <= i < |segs| ==> d !in segs[i]
    ensures d !in Terminated(segs, c)
  {
    if segs != [] {
      TerminatedHasNo(segs[1..], c, d);
    }
  }

  /** `fields[0] + [seps[0]] + fields[1] + ... + [seps[n - 2]] + fields[n - 1]`. */
  function Join(fields: seq<string>, seps: string): string
    requires |fields| == |seps| + 1
  {
    if seps == [] then fields[0] else fields[0] + [seps[0]] + Join(fields[1..], seps[1..])
  }

  /** Exactly `w` decimal digits. */
  function ParseFixed(s: string, w: nat): Option<nat> {
    if |s| == w && IsDigits(s) then Some(ParseNat(s)) else None
  }

  /** Fixed-width digit fields separated by `seps`, read back left to right. */
  function ParseFields(s: string, widths: seq<nat>, seps: string): (r: Option<seq<nat>>)
    requires |widths| == |seps| + 1
    ensures r.Some? ==> |r.value| == |widths|
  {
    if seps == [] then
      var n :- ParseFixed(s, widths[0]);
      Some([n])
    else
      var first :- SplitFirst(s, seps[0]);
      var n :- ParseFixed(first.0, widths[0]);
      var others :- ParseFields(first.1, widths[1..], seps[1..]);
      Some([n] + others)
  }

  /** `ParseFields` reads back what `Join` puts together from fields of the given widths. */
  lemma {:induction false} ParseFieldsOfJoin(fields: seq<string>, widths: seq<nat>, seps: string)
    requires |fields| == |widths| == |seps| + 1
    requires forall i :: 0 <= i < |fields| ==> |fields[i]| == widths[i] && IsDigits(fields[i])
    requires forall i :: 0 <= i < |seps| ==> !IsDigit(seps[i])
    ensures ParseFields(Join(fields, seps), widths, seps).Some?
    ensures forall i :: 0 <= i < |fields| ==>
              ParseFields(Join(fields, seps), widths, seps).value[i] == ParseNat(fields[i])
  {
    if seps == [] {
      assert ParseFixed(fields[0], widths[0]) == Some(ParseNat(fields[0]));
    } else {
      var s := Join(fields, seps);
      var tail := Join(fields[1..], seps[1..]);
      DigitsHaveNo(fields[0], seps[0]);
      SplitFirstOf(fields[0], seps[0], tail);
      assert SplitFirst(s, seps[0]) == Some((fields[0], tail));
      assert ParseFixed(fields[0], widths[0]) == Some(ParseNat(fields[0]));
      ParseFieldsOfJoin(fields[1..], widths[1..], seps[1..]);
      var others := ParseFields(tail, widths[1..], seps[1..]).value;
      var r := ParseFields(s, widths, seps);
      assert r == Some([ParseNat(fields[0])] + others);
      forall i | 1 <= i < |fields| ensures r.value[i] == ParseNat(fields[i]) {
        assert r.value[i] == others[i - 1] && fields[1..][i - 1] == fields[i];
      }
    }
  }

  lemma {:induction false} JoinHasNo(fields: seq<string>, seps: string, c: char)
    requires |fields| == |seps| + 1
    requires forall i :: 0 <= i < |fields| ==> c !in fields[i]
    requires c !in seps
    ensures c !in Join(fields, seps)
  {
    if seps != [] {
      JoinHasNo(fields[1..], seps[1..], c);
    }
  }
}
