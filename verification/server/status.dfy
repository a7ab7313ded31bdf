/**
 formatDuration of pkg/server/status.go, in exact integers: an uptime as days, hours, minutes and seconds, leading units
 left out; and a parser that reads it back.
 */
module Status {
  import opened Basics
  import opened Decimals

  /** Go's division and remainder of integers truncate towards zero. */
  function Quo(a: int, b: int): int
    requires b > 0
  {
    if a >= 0 then a / b else -((-a) / b)
  }

  function Rem(a: int, b: int): int
    requires b > 0
  {
    a - b * Quo(a, b)
  }

  /** The whole seconds of a duration in nanoseconds. */
  function Seconds(d: int): int {
    Quo(d, SECOND)
  }

  /** The four numbers of a duration. */
  function Units(d: int): (int, int, int, int) {
    (Quo(d, 86400 * SECOND), Rem(Quo(d, 3600 * SECOND), 24), Rem(Quo(d, 60 * SECOND), 60), Rem(Seconds(d), 60))
  }

  /** strings.Join(parts, " ") */
  function Join(parts: seq<string>): string {
    if |parts| == 0 then "" else if |parts| == 1 then parts[0] else parts[0] + " " + Join(parts[1..])
  }

  /** A part, appended or not. */
  function Part(present: bool, n: int, unit: char): seq<string> {
    if present then [Show(n) + [unit]] else []
  }

  function Parts(d: int): seq<string> {
    var (days, hours, minutes, seconds) := Units(d);
    Part(days > 0, days, 'd') + Part(hours > 0 || days > 0, hours, 'h')
    + Part(minutes > 0 || hours > 0 || days > 0, minutes, 'm') + Part(true, seconds, 's')
  }

  function FormatDuration(d: int): string {
    Join(Parts(d))
  }

  // ---------- the parser ----------

  /** The parts of a text between its blanks. */
  function Split(s: string): (parts: seq<string>)
    ensures |parts| > 0
  {
    if |s| == 0 then [""]
    else
      var rest := Split(s[1..]);
      if s[0] == ' ' then [""] + rest else [[s[0]] + rest[0]] + rest[1..]
  }

  function UnitOf(c: char): int {
    if c == 'd' then 86400 else if c == 'h' then 3600 else if c == 'm' then 60 else 1
  }

  function PartValue(part: string): int {
    if |part| == 0 then 0 else Signed(part[..|part| - 1]) * UnitOf(part[|part| - 1])
  }

  function Signed(number: string): int {
    if |number| > 0 && number[0] == '-' then 0 - Value(number[1..]) else Value(number)
  }

  function Total(parts: seq<string>): int {
    if |parts| == 0 then 0 else PartValue(parts[0]) + Total(parts[1..])
  }

  /** The seconds that a printed duration stands for. */
  function ParseDuration(s: string): int {
    Total(Split(s))
  }

  // ---------- reading back ----------

  lemma {:induction false} SplitWord(w: string)
    requires ' ' !in w
    ensures Split(w) == [w]
  {
    if |w| > 0 {
      assert w[0] in w && forall c :: c in w[1..] ==> c in w;
      SplitWord(w[1..]);
      assert [w[0]] + w[1..] == w;
    }
  }

  lemma {:induction false} SplitFirst(w: string, s: string)
    requires ' ' !in w
    ensures Split(w + " " + s) == [w] + Split(s)
  {
    if |w| == 0 {
      assert w + " " + s == " " + s && (" " + s)[1..] == s;
    } else {
      assert w[0] in w && forall c :: c in w[1..] ==> c in w;
      SplitFirst(w[1..], s);
      assert (w + " " + s)[1..] == w[1..] + " " + s;
      assert [w[0]] + w[1..] == w;
      assert ([w[1..]] + Split(s))[1..] == Split(s);
    }
  }

  /** Splitting undoes joining, for parts without blanks. */
  lemma {:induction false} SplitJoin(parts: seq<string>)
    requires |parts| > 0 && Blankless(parts)
    ensures Split(Join(parts)) == parts
  {
    if |parts| == 1 {
      SplitWord(parts[0]);
    } else {
      SplitJoin(parts[1..]);
      SplitFirst(parts[0], Join(parts[1..]));
    }
  }

  lemma SignRead(s: string)
    ensures Signed("-" + s) == 0 - Value(s)
    ensures (|s| > 0 ==> s[0] != '-') ==> Signed(s) == Value(s)
  {
    assert ("-" + s)[1..] == s;
  }

  lemma SignedShow(n: int)
    ensures Signed(Show(n)) == n
  {
    var m := if n < 0 then -n else n;
    var digits := Digits(m);
    SignRead(digits);
    ValueOfDigits(m);
    assert '0' <= digits[0] <= '9';
  }

  lemma ShownPart(n: int, unit: char)
    requires unit != ' '
    ensures ' ' !in Show(n) + [unit] && PartValue(Show(n) + [unit]) == n * UnitOf(unit)
  {
    var part := Show(n) + [unit];
    assert part[..|part| - 1] == Show(n);
    SignedShow(n);
  }

  lemma {:induction false} TotalOfSum(a: seq<string>, b: seq<string>)
    ensures Total(a + b) == Total(a) + Total(b)
  {
    if |a| == 0 {
      assert a + b == b;
    } else {
      assert (a + b)[1..] == a[1..] + b;
      TotalOfSum(a[1..], b);
    }
  }

  lemma OnePart(part: string)
    ensures Total([part]) == PartValue(part) && Total([]) == 0
  {
    assert [part][1..] == [];
  }

  ghost predicate Blankless(parts: seq<string>) {
    forall i :: 0 <= i < |parts| ==> ' ' !in parts[i]
  }

  function Weight(present: bool, n: int, unit: char): int {
    if present then n * UnitOf(unit) else 0
  }

  /** What an optional part adds, and that it has no blank. */
  lemma PartAdds(present: bool, n: int, unit: char)
    requires unit != ' '
    ensures Total(Part(present, n, unit)) == Weight(present, n, unit) && Blankless(Part(present, n, unit))
  {
    ShownPart(n, unit);
    OnePart(Show(n) + [unit]);
  }

  lemma FourParts(a: seq<string>, b: seq<string>, c: seq<string>, d: seq<string>)
    ensures Total(a + b + c + d) == Total(a) + Total(b) + Total(c) + Total(d)
    ensures Blankless(a) && Blankless(b) && Blankless(c) && Blankless(d) ==> Blankless(a + b + c + d)
  {
    TotalOfSum(a, b);
    TotalOfSum(a + b, c);
    TotalOfSum(a + b + c, d);
  }

  /** What the parts of a duration add up to: the units left out are zero, or negative. */
  lemma TotalOfParts(d: int)
    ensures var (days, hours, minutes, seconds) := Units(d);
      Total(Parts(d)) == Weight(days > 0, days, 'd') + Weight(hours > 0 || days > 0, hours, 'h')
                         + Weight(minutes > 0 || hours > 0 || days > 0, minutes, 'm') + Weight(true, seconds, 's')
    ensures |Parts(d)| > 0 && Blankless(Parts(d))
  {
    var (days, hours, minutes, seconds) := Units(d);
    PartAdds(days > 0, days, 'd');
    PartAdds(hours > 0 || days > 0, hours, 'h');
    PartAdds(minutes > 0 || hours > 0 || days > 0, minutes, 'm');
    PartAdds(true, seconds, 's');
    FourParts(Part(days > 0, days, 'd'), Part(hours > 0 || days > 0, hours, 'h'),
              Part(minutes > 0 || hours > 0 || days > 0, minutes, 'm'), Part(true, seconds, 's'));
  }

  /** Whole minutes, hours and days of a duration are those of its whole seconds. */
  lemma NestedUnits(e: int)
    requires e >= 0
    ensures e / (60 * SECOND) == e / SECOND / 60
    ensures e / (3600 * SECOND) == e / SECOND / 3600
    ensures e / (86400 * SECOND) == e / SECOND / 86400
  {
    var t, r := e / SECOND, e % SECOND;
    assert e == SECOND * t + r;
    Nested(e, t, r, 60);
    Nested(e, t, r, 3600);
    Nested(e, t, r, 86400);
  }

  lemma Nested(e: int, t: int, r: int, c: int)
    requires t >= 0 && 0 <= r < SECOND && e == SECOND * t + r && c > 0
    ensures c * SECOND > 0 && e / (c * SECOND) == t / c
  {
    var q, m := t / c, t % c;
    assert t == c * q + m;
    assert SECOND * t == (c * SECOND) * q + SECOND * m;
    Quotient(e, c * SECOND, q, SECOND * m + r);
  }

  lemma Quotient(a: int, m: int, q: int, r: int)
    requires m > 0 && a == m * q + r && 0 <= r < m
    ensures a / m == q
  {
    var p := a / m;
    if p < q {
      Times(m, q - p);
    } else if p > q {
      Times(m, p - q);
    }
  }

  lemma Times(m: int, n: int)
    requires m > 0 && n >= 1
    ensures m * n >= m
  {
  }

  lemma MixedRadix(t: int)
    requires t >= 0
    ensures t == 86400 * (t / 86400) + 3600 * (t / 3600 % 24) + 60 * (t / 60 % 60) + t % 60
  {
    assert t / 3600 == t / 60 / 60;
    assert t / 86400 == t / 3600 / 24;
  }

  lemma UnitsOfUptime(d: int)
    requires d >= 0
    ensures var t := Seconds(d); t == d / SECOND && Units(d) == (t / 86400, t / 3600 % 24, t / 60 % 60, t % 60)
  {
    NestedUnits(d);
  }

  lemma Mirrored(a: int, b: int)
    requires b > 0
    ensures Quo(-a, b) == -Quo(a, b) && Rem(-a, b) == -Rem(a, b)
  {
    assert b * -Quo(a, b) == -(b * Quo(a, b));
  }

  /** A negative duration has the numbers of its absolute value, all negated. */
  lemma UnitsMirrored(d: int)
    ensures Seconds(-d) == -Seconds(d) && Units(-d) == (-Units(d).0, -Units(d).1, -Units(d).2, -Units(d).3)
  {
    Mirrored(d, 86400 * SECOND);
    Mirrored(d, 3600 * SECOND);
    Mirrored(d, 60 * SECOND);
    Mirrored(d, SECOND);
    Mirrored(Quo(d, 3600 * SECOND), 24);
    Mirrored(Quo(d, 60 * SECOND), 60);
    Mirrored(Seconds(d), 60);
  }

  /** The numbers of a duration are those of its whole seconds, each below the next unit. */
  lemma UnitsOfSeconds(d: int)
    ensures var (days, hours, minutes, seconds) := Units(d);
      var t := Seconds(d);
      && t == 86400 * days + 3600 * hours + 60 * minutes + seconds
      && (d >= 0 ==> days >= 0 && 0 <= hours < 24 && 0 <= minutes < 60 && 0 <= seconds < 60)
      && (d <= 0 ==> days <= 0 && -24 < hours <= 0 && -60 < minutes <= 0 && -60 < seconds <= 0)
  {
    var e := if d >= 0 then d else -d;
    UnitsOfUptime(e);
    MixedRadix(Seconds(e));
    UnitsMirrored(e);
  }

  /** The parts that are written add up to the whole exactly above minus sixty. */
  lemma WeightsAddUp(t: int, days: int, hours: int, minutes: int, seconds: int)
    requires t == 86400 * days + 3600 * hours + 60 * minutes + seconds
    requires t >= 0 ==> days >= 0 && hours >= 0 && minutes >= 0 && seconds >= 0
    requires t <= 0 ==> days <= 0 && hours <= 0 && minutes <= 0 && -60 < seconds <= 0
    ensures Weight(days > 0, days, 'd') + Weight(hours > 0 || days > 0, hours, 'h')
            + Weight(minutes > 0 || hours > 0 || days > 0, minutes, 'm') + Weight(true, seconds, 's') == t
       <==> t > -60
  {
  }

  lemma TotalIff(d: int)
    ensures Total(Parts(d)) == Seconds(d) <==> Seconds(d) > -60
  {
    var (days, hours, minutes, seconds) := Units(d);
    TotalOfParts(d);
    UnitsOfSeconds(d);
    SignOfSeconds(d);
    WeightsAddUp(Seconds(d), days, hours, minutes, seconds);
  }

  lemma SignOfSeconds(d: int)
    ensures (d >= 0 ==> Seconds(d) >= 0) && (d <= 0 ==> Seconds(d) <= 0)
  {
  }

  /**
   Printing is invertible exactly above minus one minute: every duration whose whole seconds are more than -60, and so
   every uptime, is read back from its text; from a minute below zero on the larger units are lost.
   */
  lemma ReadBackIff(d: int)
    ensures ParseDuration(FormatDuration(d)) == Seconds(d) <==> Seconds(d) > -60
  {
    TotalOfParts(d);
    SplitJoin(Parts(d));
    TotalIff(d);
  }

  lemma JoinPart(present: bool, n: int, unit: char, rest: seq<string>)
    requires |rest| > 0
    ensures Join(Part(present, n, unit) + rest) == (if present then Show(n) + [unit] + " " else "") + Join(rest)
  {
    if present {
      assert (Part(present, n, unit) + rest)[1..] == rest;
      assert Show(n) + [unit] + " " + Join(rest) == (Show(n) + [unit] + " ") + Join(rest);
    } else {
      assert Part(present, n, unit) + rest == rest && "" + Join(rest) == Join(rest);
    }
  }

  /** The text of four parts, of which the last is always there. */
  lemma JoinedParts(d: int)
    ensures var (days, hours, minutes, seconds) := Units(d);
      FormatDuration(d)
      == (if days > 0 then Show(days) + "d " else "")
         + ((if hours > 0 || days > 0 then Show(hours) + "h " else "")
            + ((if minutes > 0 || hours > 0 || days > 0 then Show(minutes) + "m " else "") + (Show(seconds) + "s")))
  {
    var (days, hours, minutes, seconds) := Units(d);
    var last := Part(true, seconds, 's');
    var third := Part(minutes > 0 || hours > 0 || days > 0, minutes, 'm') + last;
    var second := Part(hours > 0 || days > 0, hours, 'h') + third;
    assert Parts(d) == Part(days > 0, days, 'd') + second;
    JoinPart(days > 0, days, 'd', second);
    JoinPart(hours > 0 || days > 0, hours, 'h', third);
    JoinPart(minutes > 0 || hours > 0 || days > 0, minutes, 'm', last);
    UnitThenBlank(days, 'd');
    UnitThenBlank(hours, 'h');
    UnitThenBlank(minutes, 'm');
  }

  lemma UnitThenBlank(n: int, unit: char)
    ensures Show(n) + [unit] + " " == Show(n) + [unit, ' ']
  {
  }

  /**
   The text in full. Of an uptime: days, hours, minutes, seconds, in this order, from the largest unit that is not zero
   on; of a negative duration only the seconds within the minute.
   */
  lemma TextOfDuration(d: int)
    ensures d >= 0 ==>
      var t := d / 1_000_000_000;
      FormatDuration(d)
      == (if t >= 86400 then Show(t / 86400) + "d " else "")
         + ((if t >= 3600 then Show(t / 3600 % 24) + "h " else "")
            + ((if t >= 60 then Show(t / 60 % 60) + "m " else "") + (Show(t % 60) + "s")))
    ensures d < 0 ==> FormatDuration(d) == Show(-(-d / 1_000_000_000 % 60)) + "s"
  {
    JoinedParts(d);
    if d >= 0 {
      UnitsOfUptime(d);
      LargestUnits(d / 1_000_000_000);
    } else {
      UnitsOfSeconds(d);
      UnitsOfUptime(-d);
      UnitsMirrored(-d);
    }
  }

  /** A unit is written exactly when there is that much. */
  lemma LargestUnits(t: int)
    requires t >= 0
    ensures t / 86400 > 0 <==> t >= 86400
    ensures t / 3600 % 24 > 0 || t / 86400 > 0 <==> t >= 3600
    ensures t / 60 % 60 > 0 || t / 3600 % 24 > 0 || t / 86400 > 0 <==> t >= 60
  {
    MixedRadix(t);
  }

  /** Durations of different whole seconds print differently, from zero on. */
  lemma PrintingIsInjective(d: int, e: int)
    requires d >= 0 && e >= 0 && FormatDuration(d) == FormatDuration(e)
    ensures Seconds(d) == Seconds(e)
  {
    ReadBackIff(d);
    ReadBackIff(e);
  }
}
