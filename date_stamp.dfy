/** The date stamps built by `getNormalDate`: `dd_mm_yyyy`, and with the time
    `Date: dd_mm_yyyy Time: hh_mm`. The clock is an input: the fields a JavaScript
    `Date` reports in local time. */
module DateStamp {
  import opened Strings

  /** `getFullYear()`, `getMonth()` (0-based), `getDate()`, `getHours()`, `getMinutes()`. */
  datatype LocalTime = LocalTime(year: nat, month: nat, day: nat, hours: nat, minutes: nat)

  /** The ranges a `Date` guarantees for these fields. */
  predicate ValidTime(t: LocalTime) {
    t.month < 12 && 1 <= t.day <= 31 && t.hours < 24 && t.minutes < 60
  }

  /** `getNormalDate()`: day and 1-based month padded to two digits, then the year. */
  function NormalDate(t: LocalTime): string
    requires ValidTime(t)
  {
    PadTwo(t.day) + "_" + PadTwo(t.month + 1) + "_" + NatStr(t.year)
  }

  /** `getNormalDate(true)`: the date stamp followed by hours and minutes padded to two digits. */
  function NormalDateTime(t: LocalTime): string
    requires ValidTime(t)
  {
    "Date: " + NormalDate(t) + " Time: " + ClockField(t)
  }

  /** The fields of the date stamp, in order. */
  function DateFields(t: LocalTime): seq<string>
    requires ValidTime(t)
  {
    [PadTwo(t.day), PadTwo(t.month + 1), NatStr(t.year)]
  }

  lemma DateFieldsHaveNoUnderscore(t: LocalTime)
    requires ValidTime(t)
    ensures forall i :: 0 <= i < 3 ==> '_' !in DateFields(t)[i] && AllDigits(DateFields(t)[i])
  {
    PadTwoField(t.day);
    PadTwoField(t.month + 1);
    DigitsHaveNo(PadTwo(t.day), '_');
    DigitsHaveNo(PadTwo(t.month + 1), '_');
    DigitsHaveNo(NatStr(t.year), '_');
  }

  /** The stamp reads back: split on `_` it gives a two-digit day, a two-digit
      1-based month and the year, with their values. */
  lemma NormalDateReadsBack(t: LocalTime)
    requires ValidTime(t)
    ensures var f := Split(NormalDate(t), '_');
      && |f| == 3 && |f[0]| == 2 && |f[1]| == 2
      && AllDigits(f[0]) && AllDigits(f[1]) && AllDigits(f[2])
      && DigitsValue(f[0]) == t.day && DigitsValue(f[1]) == t.month + 1 && DigitsValue(f[2]) == t.year
  {
    var fs := DateFields(t);
    JoinThree(fs[0], fs[1], fs[2], "_");
    DateFieldsHaveNoUnderscore(t);
    SplitJoin(fs, '_');
    PadTwoField(t.day);
    PadTwoField(t.month + 1);
    NatStrRoundTrip(t.year);
  }

  /** Two instants with the same stamp fall on the same calendar day. */
  lemma NormalDateInjective(a: LocalTime, b: LocalTime)
    requires ValidTime(a) && ValidTime(b) && NormalDate(a) == NormalDate(b)
    ensures a.day == b.day && a.month == b.month && a.year == b.year
  {
    NormalDateReadsBack(a);
    NormalDateReadsBack(b);
  }

  /** The time stamp reads back: split on spaces it is `Date:`, the date stamp,
      `Time:` and an `hh_mm` field holding the hours and minutes. */
  lemma NormalDateTimeReadsBack(t: LocalTime)
    requires ValidTime(t)
    ensures var w := Split(NormalDateTime(t), ' ');
      && |w| == 4 && w[0] == "Date:" && w[1] == NormalDate(t) && w[2] == "Time:"
      && ClockReadsBack(w[3], t)
  {
    var d, hm := NormalDate(t), ClockField(t);
    ClockFieldReadsBack(t);
    DateHasNoSpace(t);
    var words := ["Date:", d, "Time:", hm];
    JoinFour("Date:", d, "Time:", hm, " ");
    assert Join(words, " ") == NormalDateTime(t);
    SplitJoin(words, ' ');
  }

  /** `hh_mm`, the last word of the time stamp. */
  function ClockField(t: LocalTime): string
    requires ValidTime(t)
  {
    PadTwo(t.hours) + "_" + PadTwo(t.minutes)
  }

  /** `s` is `hh_mm` for the hours and minutes of `t`, two digits each. */
  predicate ClockReadsBack(s: string, t: LocalTime) {
    var hm := Split(s, '_');
    && |hm| == 2 && |hm[0]| == 2 && |hm[1]| == 2 && AllDigits(hm[0]) && AllDigits(hm[1])
    && DigitsValue(hm[0]) == t.hours && DigitsValue(hm[1]) == t.minutes
  }

  lemma ClockFieldReadsBack(t: LocalTime)
    requires ValidTime(t)
    ensures ClockReadsBack(ClockField(t), t) && ' ' !in ClockField(t)
  {
    var h, m := PadTwo(t.hours), PadTwo(t.minutes);
    PadTwoField(t.hours);
    PadTwoField(t.minutes);
    DigitsHaveNo(h, '_');
    DigitsHaveNo(m, '_');
    DigitsHaveNo(h, ' ');
    DigitsHaveNo(m, ' ');
    JoinTwo(h, m, "_");
    SplitJoin([h, m], '_');
  }

  lemma DateHasNoSpace(t: LocalTime)
    requires ValidTime(t)
    ensures ' ' !in NormalDate(t)
  {
    var f := DateFields(t);
    DateFieldsHaveNoUnderscore(t);
    DigitsHaveNo(f[0], ' ');
    DigitsHaveNo(f[1], ' ');
    DigitsHaveNo(f[2], ' ');
  }
}
