/**
 * `parseDuration` of server/routes.ts: the time part of an ISO 8601 duration
 * (`PT#H#M#S`, designators in that order, each optional) read as whole seconds.
 * The source's pattern `/PT(?:(\d+)H)?(?:(\d+)M)?(?:(\d+)S)?/` is unanchored: it
 * starts at the first `PT` of the string and never fails once a `PT` is found, so a
 * string without `PT` (including one with a day part, `P1DT2H`) reads as 0.
 */
module Duration {
  import opened Wrappers
  import opened Patterns

  predicate IsDigit(c: char) {
    '0' <= c <= '9'
  }

  function DigitValue(c: char): nat
  {
    if IsDigit(c) then (c as int) - ('0' as int) else 0
  }

  function DigitChar(d: nat): (c: char)
    requires d < 10
    ensures IsDigit(c) && DigitValue(c) == d
  {
    (('0' as int) + d) as char
  }

  predicate AllDigits(ds: string) {
    forall k :: 0 <= k < |ds| ==> IsDigit(ds[k])
  }

  /** `parseInt` of a string of decimal digits (leading zeros allowed). */
  function DecimalValue(ds: string): nat
    decreases |ds|
  {
    if |ds| == 0 then 0 else 10 * DecimalValue(ds[..|ds| - 1]) + DigitValue(ds[|ds| - 1])
  }

  /** The decimal numeral of `n`, without leading zeros. */
  function Numeral(n: nat): (ds: string)
    ensures |ds| > 0 && AllDigits(ds)
  {
    if n < 10 then [DigitChar(n)] else Numeral(n / 10) + [DigitChar(n % 10)]
  }

  /** Reading a numeral back gives the number it was written from. */
  lemma {:induction false} NumeralValue(n: nat)
    ensures DecimalValue(Numeral(n)) == n
  {
    if n >= 10 {
      NumeralValue(n / 10);
      var ds := Numeral(n);
      assert ds[..|ds| - 1] == Numeral(n / 10);
    }
  }

  /** What one optional group `(?:(\d+)U)?` yields: the amount (0 when the group is
      absent) and the text left after it. */
  datatype Component = Component(amount: nat, rest: string)

  /** Length of the run of digits at the front of `t` (`\d+` is greedy). */
  function LeadingDigits(t: string): (n: nat)
    ensures n <= |t|
  {
    if |t| == 0 || !IsDigit(t[0]) then 0 else 1 + LeadingDigits(t[1..])
  }

  /** The digit run in front of a non-digit (or the end) is all of the digits. */
  lemma {:induction false} LeadingDigitsOf(ds: string, rest: string)
    requires AllDigits(ds) && (|rest| == 0 || !IsDigit(rest[0]))
    ensures LeadingDigits(ds + rest) == |ds|
    decreases |ds|
  {
    if |ds| > 0 {
      assert (ds + rest)[0] == ds[0];
      assert (ds + rest)[1..] == ds[1..] + rest;
      LeadingDigitsOf(ds[1..], rest);
    } else {
      assert ds + rest == rest;
    }
  }

  /** The group `(?:(\d+)U)?` at the start of `t`: greedy digits, then designator `unit`. */
  function ReadComponent(t: string, unit: char): (c: Component)
    ensures |c.rest| <= |t| && c.rest == t[|t| - |c.rest|..]
    ensures c.amount > 0 ==> c.rest != t
  {
    var n := LeadingDigits(t);
    if n > 0 && n < |t| && t[n] == unit then Component(DecimalValue(t[..n]), t[n + 1..])
    else Component(0, t)
  }

  /** The three groups after `PT`, in order, with the seconds each unit is worth. */
  const TimeUnits: seq<(char, nat)> := [('H', 3600)] + MinuteUnits

  const MinuteUnits: seq<(char, nat)> := [('M', 60)] + SecondUnits

  const SecondUnits: seq<(char, nat)> := [('S', 1)] + []

  /** Reads the groups for `units` one after another from the front of `t`, each
      starting where the previous one stopped, and totals them in seconds. */
  function ReadGroups(t: string, units: seq<(char, nat)>): nat
    decreases |units|
  {
    if |units| == 0 then 0
    else
      var c := ReadComponent(t, units[0].0);
      c.amount * units[0].1 + ReadGroups(c.rest, units[1..])
  }

  /** `parseDuration`: whole seconds of the first `PT...` duration in `d`; 0 when `d`
      has no `PT`. */
  function ParseDuration(d: string): (seconds: nat)
  {
    ParseFrom(d, 0)
  }

  /** The duration is read from the groups after the first `PT`, and is 0 without one. */
  lemma ParseDurationReadsFirstPT(d: string)
    ensures ParseDuration(d) == match FindFrom(d, "PT", 0)
                                case None => 0
                                case Some(k) => ReadGroups(d[k + 2..], TimeUnits)
  {
    ParseFromFirstPT(d, 0);
  }

  /** The scan from position `i`: the groups after the first `PT` at or after `i`. */
  function ParseFrom(d: string, i: nat): (seconds: nat)
    requires i <= |d| + 1
    decreases |d| + 1 - i
  {
    if i == |d| + 1 then 0
    else if OccursAt(d, i, "PT") then ReadGroups(d[i + 2..], TimeUnits)
    else ParseFrom(d, i + 1)
  }

  /** The scan skips to the first `PT` at or after `i`. */
  lemma {:induction false} ParseFromSkips(d: string, i: nat)
    requires i <= |d| + 1
    ensures FindFrom(d, "PT", i).None? ==> ParseFrom(d, i) == 0
    ensures FindFrom(d, "PT", i).Some? ==> ParseFrom(d, i) == ParseFrom(d, FindFrom(d, "PT", i).value)
    decreases |d| + 1 - i
  {
    if i <= |d| && !OccursAt(d, i, "PT") {
      assert FindFrom(d, "PT", i) == FindFrom(d, "PT", i + 1);
      ParseFromSkips(d, i + 1);
    }
  }

  /** The scan reads the groups after the first `PT` at or after `i`. */
  lemma ParseFromFirstPT(d: string, i: nat)
    requires i <= |d| + 1
    ensures ParseFrom(d, i) == match FindFrom(d, "PT", i)
                               case None => 0
                               case Some(k) => ReadGroups(d[k + 2..], TimeUnits)
  {
    ParseFromSkips(d, i);
  }

  /** The lenient fallback: a string with no `PT` reads as 0 seconds. */
  lemma NoDesignatorReadsZero(d: string)
    requires forall i :: 0 <= i <= |d| ==> !OccursAt(d, i, "PT")
    ensures ParseDuration(d) == 0
  {
    ParseDurationReadsFirstPT(d);
  }

  /** A designated amount as the writer of a duration puts it: absent, or `<n><unit>`. */
  function Designated(o: Option<nat>, unit: char): string {
    match o
    case None => ""
    case Some(n) => Numeral(n) + [unit]
  }

  function Amount(o: Option<nat>): nat {
    match o
    case None => 0
    case Some(n) => n
  }

  /** The ISO 8601 time-only duration with the given optional parts, e.g. `PT1H2M3S`. */
  function FormatDuration(h: Option<nat>, m: Option<nat>, s: Option<nat>): string {
    "PT" + Designated(h, 'H') + Designated(m, 'M') + Designated(s, 'S')
  }

  /** The digit run at the front of `<numeral><u>...` is exactly the numeral. */
  lemma NumeralRun(n: nat, u: char, t: string)
    requires !IsDigit(u)
    ensures LeadingDigits(Numeral(n) + [u] + t) == |Numeral(n)|
    ensures (Numeral(n) + [u] + t)[|Numeral(n)|] == u
  {
    var w := Numeral(n) + [u] + t;
    assert w == Numeral(n) + ([u] + t);
    LeadingDigitsOf(Numeral(n), [u] + t);
  }

  /** A group for designator `unit` in front of `t` is consumed with its amount. */
  lemma ReadDesignated(o: Option<nat>, unit: char, t: string)
    requires !IsDigit(unit)
    requires ReadComponent(t, unit) == Component(0, t)
    ensures ReadComponent(Designated(o, unit) + t, unit) == Component(Amount(o), t)
  {
    match o
    case None =>
      assert Designated(o, unit) + t == t;
    case Some(n) =>
      var w := Numeral(n) + [unit] + t;
      assert Designated(o, unit) + t == w;
      NumeralRun(n, unit, t);
      var L := |Numeral(n)|;
      assert w[..L] == Numeral(n);
      assert w[L + 1..] == t;
      NumeralValue(n);
  }

  /** A group for a different designator is not read as a `unit` group. */
  lemma SkipDesignated(o: Option<nat>, u: char, unit: char, t: string)
    requires !IsDigit(u) && u != unit
    requires ReadComponent(t, unit) == Component(0, t)
    ensures ReadComponent(Designated(o, u) + t, unit) == Component(0, Designated(o, u) + t)
  {
    match o
    case None =>
      assert Designated(o, u) + t == t;
    case Some(n) =>
      assert Designated(o, u) + t == Numeral(n) + [u] + t;
      NumeralRun(n, u, t);
  }

  /** `PT` occurs in `pre + "PT..."` first where the duration starts, when `pre` has none. */
  lemma FirstDesignatorAfter(pre: string, t: string)
    requires forall i :: 0 <= i <= |pre| ==> !OccursAt(pre, i, "PT")
    ensures FindFrom(pre + "PT" + t, "PT", 0) == Some(|pre|)
  {
    var d := pre + "PT" + t;
    assert d[|pre|..|pre| + 2] == "PT";
    forall j | 0 <= j < |pre|
      ensures !OccursAt(d, j, "PT")
    {
      if j + 2 <= |pre| {
        assert d[j..j + 2] == pre[j..j + 2];
        assert !OccursAt(pre, j, "PT");
      } else {
        assert d[j + 1] == 'P';
        assert d[j..j + 2][1] == d[j + 1];
      }
    }
    assert OccursAt(d, |pre|, "PT");
    var r := FindFrom(d, "PT", 0);
    if r.Some? {
      assert r.value <= |pre|;
    }
  }

  /** Round trip: a written duration, after any text free of `PT`, reads back as
      hours * 3600 + minutes * 60 + seconds, absent parts counting 0. */
  lemma ParseFormatted(pre: string, h: Option<nat>, m: Option<nat>, s: Option<nat>)
    requires forall i :: 0 <= i <= |pre| ==> !OccursAt(pre, i, "PT")
    ensures ParseDuration(pre + FormatDuration(h, m, s)) == Amount(h) * 3600 + Amount(m) * 60 + Amount(s)
  {
    var groups := Designated(h, 'H') + (Designated(m, 'M') + Designated(s, 'S'));
    FormattedGroups(pre, h, m, s);
    ParseAfterFirstPT(pre, groups);
    ReadFormattedGroups(h, m, s);
  }

  lemma FormattedGroups(pre: string, h: Option<nat>, m: Option<nat>, s: Option<nat>)
    ensures pre + FormatDuration(h, m, s) == pre + "PT" + (Designated(h, 'H') + (Designated(m, 'M') + Designated(s, 'S')))
  {
  }

  /** Text after the first `PT` is what the groups are read from. */
  lemma ParseAfterFirstPT(pre: string, groups: string)
    requires forall i :: 0 <= i <= |pre| ==> !OccursAt(pre, i, "PT")
    ensures ParseDuration(pre + "PT" + groups) == ReadGroups(groups, TimeUnits)
  {
    var d := pre + "PT" + groups;
    ParseDurationReadsFirstPT(d);
    FirstDesignatorAfter(pre, groups);
    assert d[|pre| + 2..] == groups;
  }

  /** The groups of a written duration read back as its total in seconds. */
  lemma ReadFormattedGroups(h: Option<nat>, m: Option<nat>, s: Option<nat>)
    ensures ReadGroups(Designated(h, 'H') + (Designated(m, 'M') + Designated(s, 'S')), TimeUnits)
            == Amount(h) * 3600 + Amount(m) * 60 + Amount(s)
  {
    ReadMinutesSeconds(m, s);
    GroupStep(h, 'H', 3600, Designated(m, 'M') + Designated(s, 'S'), MinuteUnits);
  }

  /** The minutes and seconds groups read back, and neither is an hours group. */
  lemma ReadMinutesSeconds(m: Option<nat>, s: Option<nat>)
    ensures ReadGroups(Designated(m, 'M') + Designated(s, 'S'), MinuteUnits) == Amount(m) * 60 + Amount(s)
    ensures ReadComponent(Designated(m, 'M') + Designated(s, 'S'), 'H')
            == Component(0, Designated(m, 'M') + Designated(s, 'S'))
  {
    var tS := Designated(s, 'S');
    ReadSeconds(s);
    SkipDesignated(m, 'M', 'H', tS);
    GroupStep(m, 'M', 60, tS, SecondUnits);
  }

  /** The seconds group reads back, and it is neither a minutes nor an hours group. */
  lemma ReadSeconds(s: Option<nat>)
    ensures ReadGroups(Designated(s, 'S'), SecondUnits) == Amount(s)
    ensures ReadComponent(Designated(s, 'S'), 'M') == Component(0, Designated(s, 'S'))
    ensures ReadComponent(Designated(s, 'S'), 'H') == Component(0, Designated(s, 'S'))
  {
    var tS := Designated(s, 'S');
    assert tS + "" == tS;
    SkipDesignated(s, 'S', 'M', "");
    SkipDesignated(s, 'S', 'H', "");
    GroupStep(s, 'S', 1, "", []);
  }

  /** One group written in front of `t`, whose own groups the unit does not claim, adds
      its amount times the unit's weight. */
  lemma GroupStep(o: Option<nat>, unit: char, weight: nat, t: string, units: seq<(char, nat)>)
    requires !IsDigit(unit) && ReadComponent(t, unit) == Component(0, t)
    ensures ReadGroups(Designated(o, unit) + t, [(unit, weight)] + units) == Amount(o) * weight + ReadGroups(t, units)
  {
    ReadDesignated(o, unit, t);
    assert ([(unit, weight)] + units)[1..] == units;
  }

  /** How typical durations are written: `PT1H2M3S`, `PT45S`, `PT2M`. */
  lemma WrittenExamples()
    ensures FormatDuration(Some(1), Some(2), Some(3)) == "PT1H2M3S"
    ensures FormatDuration(None, None, Some(45)) == "PT45S"
    ensures FormatDuration(None, Some(2), None) == "PT2M"
  {
    assert Numeral(45) == "45";
  }

  /** The durations on either side of the one-minute cut: `PT1M0S`, `PT0M30S`, `PT0M59S`. */
  lemma WrittenBoundaryExamples()
    ensures FormatDuration(None, Some(1), Some(0)) == "PT1M0S"
    ensures FormatDuration(None, Some(0), Some(30)) == "PT0M30S"
    ensures FormatDuration(None, Some(0), Some(59)) == "PT0M59S"
  {
    assert Numeral(30) == "30";
    assert Numeral(59) == "59";
  }

  /** What the typical durations read as: `PT1H2M3S` is 3723 seconds, `PT45S` 45 and
      `PT2M` 120. */
  lemma ReadExamples()
    ensures ParseDuration("PT1H2M3S") == 3723
    ensures ParseDuration("PT45S") == 45
    ensures ParseDuration("PT2M") == 120
  {
    WrittenExamples();
    ReadExample(Some(1), Some(2), Some(3));
    ReadExample(None, None, Some(45));
    ReadExample(None, Some(2), None);
  }

  /** What the durations at the one-minute cut read as: `PT1M0S` is 60 seconds,
      `PT0M30S` 30 and `PT0M59S` 59. */
  lemma ReadBoundaryExamples()
    ensures ParseDuration("PT1M0S") == 60
    ensures ParseDuration("PT0M30S") == 30
    ensures ParseDuration("PT0M59S") == 59
  {
    WrittenBoundaryExamples();
    ReadExample(None, Some(1), Some(0));
    ReadExample(None, Some(0), Some(30));
    ReadExample(None, Some(0), Some(59));
  }

  /** `ParseFormatted` with nothing in front of the duration. */
  lemma ReadExample(h: Option<nat>, m: Option<nat>, s: Option<nat>)
    ensures ParseDuration(FormatDuration(h, m, s)) == Amount(h) * 3600 + Amount(m) * 60 + Amount(s)
  {
    ParseFormatted("", h, m, s);
    assert "" + FormatDuration(h, m, s) == FormatDuration(h, m, s);
  }

  /** A duration with a day part has no `PT`, so it reads as 0 (the source does not
      read days): one day and two hours is taken for a zero-length video. */
  lemma DayPartReadsZero()
    ensures ParseDuration("P1DT2H") == 0
  {
    var d := "P1DT2H";
    forall i | 0 <= i <= |d|
      ensures !OccursAt(d, i, "PT")
    {
      if i + 2 <= |d| {
        assert d[i..i + 2][0] == d[i] && d[i..i + 2][1] == d[i + 1];
        if i == 0 { assert d[1] == '1'; }
        else if i == 1 { assert d[1] == '1'; }
        else if i == 2 { assert d[2] == 'D'; }
        else if i == 3 { assert d[3] == 'T'; }
        else { assert d[4] == '2'; }
      }
    }
    NoDesignatorReadsZero(d);
  }
}
