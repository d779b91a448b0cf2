/** The two readings of a text that can abort a statement: `sentori_version_key`
    (migration 0014), which casts each segment to `bigint`, and the cast of a
    decimal text to `numeric`. */
module SqlCasts {
  import opened Prelude

  /** A value, SQL NULL, or a value outside the type, which is an error. */
  datatype Reading<T> = Reads(value: T) | Unreadable | OutOfRange

  predicate Digit(c: char) {
    '0' <= c <= '9'
  }

  predicate Digits(s: string) {
    s != [] && forall i | 0 <= i < |s| :: Digit(s[i])
  }

  /** How many digits a text starts with. */
  function Run(s: string): (n: nat)
    ensures n <= |s| && (forall i | 0 <= i < n :: Digit(s[i])) && (n < |s| ==> !Digit(s[n]))
  {
    if s == [] || !Digit(s[0]) then 0 else 1 + Run(s[1..])
  }

  function DigitValue(c: char): nat {
    if Digit(c) then (c - '0') as nat else 0
  }

  /** The number a text of digits stands for. */
  function ValueOf(s: string): nat {
    if s == [] then 0 else 10 * ValueOf(s[..|s| - 1]) + DigitValue(s[|s| - 1])
  }

  function Pow10(n: nat): (p: nat)
    ensures p > 0
  {
    if n == 0 then 1 else 10 * Pow10(n - 1)
  }

  // ---------------------------------------------------------------- versions

  const BIGINT_MAX: int := 0x7FFF_FFFF_FFFF_FFFF

  /** The match of `[0-9]+(\.[0-9]+)*` at the start of a text, split at its dots:
      nothing when there is none. */
  function Segments(s: string): seq<string> {
    var n := Run(s);
    if n == 0 then []
    else if n < |s| && s[n] == '.' && Run(s[n + 1..]) > 0 then [s[..n]] + Segments(s[n + 1..])
    else [s[..n]]
  }

  function AfterV(s: string): string {
    if s != [] && s[0] == 'v' then s[1..] else s
  }

  predicate TooBig(segment: string) {
    ValueOf(segment) > BIGINT_MAX
  }

  /** The first four numbers, padded with zeros. */
  function FirstFour(segments: seq<string>): seq<int> {
    (seq(|segments|, i requires 0 <= i < |segments| => ValueOf(segments[i]) as int) + [0, 0, 0, 0])[..4]
  }

  /** `sentori_version_key`: every segment is cast, not only the four that are kept. */
  function VersionReading(v: string): Reading<seq<int>> {
    var segments := Segments(AfterV(v));
    if segments == [] then Unreadable
    else if exists i | 0 <= i < |segments| :: TooBig(segments[i]) then OutOfRange
    else Reads(FirstFour(segments))
  }

  /** Segments with dots between them. */
  function Dotted(segments: seq<string>): string
    requires segments != []
  {
    if |segments| == 1 then segments[0] else segments[0] + ['.'] + Dotted(segments[1..])
  }

  ghost predicate AllDigits(segments: seq<string>) {
    forall i | 0 <= i < |segments| :: Digits(segments[i])
  }

  /** The text after a version: it does not go on with a digit or with another segment. */
  predicate Remainder(s: string) {
    s != [] ==> !Digit(s[0]) && (s[0] == '.' && |s| > 1 ==> !Digit(s[1]))
  }

  /** The digits in front of a text end where something else stands. */
  lemma {:induction false} RunIs(head: string, tail: string)
    requires (forall i | 0 <= i < |head| :: Digit(head[i])) && (tail != [] ==> !Digit(tail[0]))
    ensures Run(head + tail) == |head|
  {
    if head == [] {
      assert head + tail == tail;
    } else {
      assert (head + tail)[0] == head[0] && (head + tail)[1..] == head[1..] + tail;
      RunIs(head[1..], tail);
    }
  }

  lemma {:induction false} LastSegment(head: string, rest: string)
    requires Digits(head) && Remainder(rest)
    ensures Segments(head + rest) == [head]
  {
    RunIs(head, rest);
    var s, n := head + rest, |head|;
    assert s[..n] == head && s[n..] == rest;
    if |rest| > 1 { assert s[n + 1..][0] == rest[1]; }
  }

  lemma {:induction false} OneSegment(head: string, tail: string)
    requires Digits(head) && tail != [] && Digit(tail[0])
    ensures Segments(head + ['.'] + tail) == [head] + Segments(tail)
  {
    var s, n := head + ['.'] + tail, |head|;
    assert s == head + (['.'] + tail);
    RunIs(head, ['.'] + tail);
    assert s[..n] == head && s[n] == '.' && s[n + 1..] == tail;
  }

  /** Numbers with dots between them and whatever may follow are read as those numbers. */
  lemma {:induction false} DottedReads(segments: seq<string>, rest: string)
    requires segments != [] && AllDigits(segments) && Remainder(rest)
    ensures Segments(Dotted(segments) + rest) == segments
  {
    hide Segments, Remainder, Digits, Digit;
    assert Digits(segments[0]);
    if |segments| == 1 {
      LastSegment(segments[0], rest);
    } else {
      var tail := Dotted(segments[1..]) + rest;
      assert Dotted(segments) + rest == segments[0] + ['.'] + tail;
      assert AllDigits(segments[1..]);
      DottedReads(segments[1..], rest);
      DottedStarts(segments[1..], rest);
      OneSegment(segments[0], tail);
    }
  }

  lemma {:induction false} DottedStarts(segments: seq<string>, rest: string)
    requires segments != [] && AllDigits(segments)
    ensures Dotted(segments) != [] && Digit(Dotted(segments)[0]) && Digit((Dotted(segments) + rest)[0])
  {
    assert Digits(segments[0]);
    assert Dotted(segments)[0] == segments[0][0];
  }

  /** And every text that is read at all is of that form. */
  lemma {:induction false} SegmentsSpell(s: string) returns (rest: string)
    requires Segments(s) != []
    ensures AllDigits(Segments(s)) && Remainder(rest) && s == Dotted(Segments(s)) + rest
  {
    var n := Run(s);
    RunDigits(s);
    if n < |s| && s[n] == '.' && Run(s[n + 1..]) > 0 {
      rest := SegmentsSpell(s[n + 1..]);
      var head, more := s[..n], Segments(s[n + 1..]);
      hide Segments, Run, Remainder, Digits;
      assert s == head + ['.'] + (Dotted(more) + rest);
      SpellOne(head, more, rest);
    } else {
      rest := s[n..];
      assert s == s[..n] + rest;
      RestEnds(s, n);
    }
  }

  lemma {:induction false} RunDigits(s: string)
    ensures Run(s) > 0 ==> Digits(s[..Run(s)])
  {
  }

  lemma {:induction false} SpellOne(head: string, more: seq<string>, rest: string)
    requires Digits(head) && more != [] && AllDigits(more)
    ensures AllDigits([head] + more) && Dotted([head] + more) + rest == head + ['.'] + (Dotted(more) + rest)
  {
    hide Digits;
    assert ([head] + more)[1..] == more;
  }

  lemma {:induction false} RestEnds(s: string, n: nat)
    requires n == Run(s) && !(n < |s| && s[n] == '.' && Run(s[n + 1..]) > 0)
    ensures Remainder(s[n..])
  {
    if n + 1 < |s| && s[n] == '.' {
      assert s[n..][1] == s[n + 1..][0];
    }
  }

  /** What a version's key is, with a `v` before it or not: the first four of its numbers,
      zeros where there are fewer, and out of range where any of its numbers is. */
  lemma {:induction false} KeyOfDotted(segments: seq<string>, rest: string)
    requires segments != [] && AllDigits(segments) && Remainder(rest)
    ensures
      var v := Dotted(segments) + rest;
      VersionReading(v) == VersionReading(['v'] + v) ==
        (if exists i | 0 <= i < |segments| :: TooBig(segments[i]) then OutOfRange else Reads(FirstFour(segments)))
  {
    var v := Dotted(segments) + rest;
    DottedReads(segments, rest);
    DottedStarts(segments, rest);
    assert AfterV(v) == v && AfterV(['v'] + v) == v;
  }

  /** A key has four numbers; a text without one in front has none. */
  lemma {:induction false} UnreadableIff(v: string)
    ensures VersionReading(v).Unreadable? <==> AfterV(v) == [] || !Digit(AfterV(v)[0])
    ensures VersionReading(v).Reads? ==> |VersionReading(v).value| == 4
  {
  }

  lemma {:induction false} ManyNines(s: string)
    requires forall i | 0 <= i < |s| :: s[i] == '9'
    ensures ValueOf(s) == Pow10(|s|) - 1
  {
    if s != [] { ManyNines(s[..|s| - 1]); }
  }

  const LONG_VERSION := "99999999999999999999"

  /** Twenty nines are no `bigint`. */
  lemma {:induction false} LongVersionIsOutOfRange()
    ensures VersionReading(LONG_VERSION).OutOfRange?
  {
    var s := LONG_VERSION;
    ManyNines(s);
    assert Pow10(5) == 100000 by { assert Pow10(2) == 100; }
    assert Pow10(10) == 10000000000 by { assert Pow10(7) == 10000000; }
    assert Pow10(15) == 1000000000000000 by { assert Pow10(12) == 1000000000000; }
    assert Pow10(20) == 100000000000000000000 by { assert Pow10(17) == 100000000000000000; }
    assert Dotted([s]) + [] == s;
    assert AllDigits([s]);
    KeyOfDotted([s], []);
    assert TooBig([s][0]);
  }

  // ----------------------------------------------------------------- numeric

  /** The language of `^-?[0-9]+(\.[0-9]+)?$`. */
  ghost predicate Decimal(s: string) {
    var t := Unsigned(s);
    Digits(t) || exists dot | 0 <= dot < |t| :: t[dot] == '.' && Digits(t[..dot]) && Digits(t[dot + 1..])
  }

  function Unsigned(s: string): string {
    if s != [] && s[0] == '-' then s[1..] else s
  }

  function Whole(s: string): string {
    Unsigned(s)[..Run(Unsigned(s))]
  }

  function Fraction(s: string): string {
    var t := Unsigned(s);
    if Run(t) < |t| then t[Run(t) + 1..] else []
  }

  /** Without the zeros in front. */
  function Significant(digits: string): string {
    if digits != [] && digits[0] == '0' then Significant(digits[1..]) else digits
  }

  /** The limits of `numeric` (section 8.1.2 of the PostgreSQL manual). */
  const WHOLE_DIGITS: nat := 131072
  const FRACTION_DIGITS: nat := 16383

  predicate FitsNumeric(s: string) {
    |Significant(Whole(s))| <= WHOLE_DIGITS && |Fraction(s)| <= FRACTION_DIGITS
  }

  function NumericValue(s: string): real {
    var size := ValueOf(Whole(s)) as real + ValueOf(Fraction(s)) as real / Pow10(|Fraction(s)|) as real;
    if s != [] && s[0] == '-' then -size else size
  }

  /** The limit is reached: so many nines are a decimal text and no `numeric`. */
  lemma {:induction false} LongNumberDoesNotFit(s: string)
    requires |s| > WHOLE_DIGITS && forall i | 0 <= i < |s| :: s[i] == '9'
    ensures Decimal(s) && !FitsNumeric(s)
  {
    assert Unsigned(s) == s;
    AllWhole(s);
  }

  /** A decimal text is its sign, the digits before the dot and those after it. */
  lemma {:induction false} DecimalParts(s: string)
    requires Decimal(s)
    ensures Digits(Whole(s))
    ensures Unsigned(s) == Whole(s) || (Digits(Fraction(s)) && Unsigned(s) == Whole(s) + ['.'] + Fraction(s))
  {
    var t := Unsigned(s);
    hide Digits, Run, Unsigned;
    if Digits(t) {
      AllWhole(t);
    } else {
      var dot :| 0 <= dot < |t| && t[dot] == '.' && Digits(t[..dot]) && Digits(t[dot + 1..]);
      AtTheDot(t[..dot], t[dot + 1..]);
      assert t == t[..dot] + (['.'] + t[dot + 1..]);
    }
  }

  lemma {:induction false} AllWhole(t: string)
    requires Digits(t)
    ensures Run(t) == |t| && t[..Run(t)] == t
  {
    RunIs(t, []);
    assert t == t + [];
  }

  lemma {:induction false} AtTheDot(whole: string, fraction: string)
    requires Digits(whole) && Digits(fraction)
    ensures
      var t := whole + (['.'] + fraction);
      Run(t) == |whole| && t[..Run(t)] == whole && t[Run(t) + 1..] == fraction && t == whole + ['.'] + fraction
  {
    var t := whole + (['.'] + fraction);
    RunIs(whole, ['.'] + fraction);
    assert t[..|whole|] == whole && t[|whole| + 1..] == fraction;
  }
}
