/**
  Date normalisation (`formatar_data`): a calendar value becomes a
  `YYYY-MM-DD` string by one of three routes, after an icalendar property
  has been unwrapped to its `.dt` payload.
*/
module DateFormat {
  import opened Wrappers

  /** A proleptic Gregorian calendar date, as Python's `datetime.date`. */
  datatype Date = Date(year: int, month: int, day: int) {
    predicate Valid() {
      && 1 <= year <= 9999
      && 1 <= month <= 12
      && 1 <= day <= DaysInMonth(year, month)
    }
  }

  /** Python's date range (MINYEAR..MAXYEAR); no other dates can be built. */
  type ValidDate = d: Date | d.Valid() witness Date(2000, 1, 1)

  predicate IsLeap(year: int) {
    year % 4 == 0 && (year % 100 != 0 || year % 400 == 0)
  }

  function DaysInMonth(year: int, month: int): int {
    if month == 2 then (if IsLeap(year) then 29 else 28)
    else if month == 4 || month == 6 || month == 9 || month == 11 then 30
    else 31
  }

  datatype TimeOfDay = TimeOfDay(hour: int, minute: int, second: int)

  /** The Python values `formatar_data` may meet once `.dt` has been taken. */
  datatype DateValue =
    | Text(s: string)                                          // a `str`
    | Day(date: ValidDate)                                     // a `datetime.date`
    | Moment(date: ValidDate, time: TimeOfDay, tz: Option<string>) // a `datetime.datetime`
    | NoneValue                                                // Python `None`
    | Other(rendering: string)                                 // anything else; its `str()`
    | Broken                                                   // a value whose formatting raises

  /** A raw value as handed to `formatar_data`: bare, or an icalendar property with a `.dt`. */
  datatype CalValue = Plain(v: DateValue) | Property(dt: DateValue)

  function Unwrap(c: CalValue): DateValue {
    match c
    case Plain(v) => v
    case Property(v) => v
  }

  // ---------------------------------------------------------------- text route

  /** `s.split('T')[0]`: the text before the first 'T', or all of `s`. */
  function BeforeT(s: string): (r: string)
    ensures r <= s
    ensures 'T' !in r
    ensures |r| == |s| || s[|r|] == 'T'
  {
    if s == [] then []
    else if s[0] == 'T' then []
    else [s[0]] + BeforeT(s[1..])
  }

  // --------------------------------------------------------- strftime route

  function DigitChar(n: int): char
    requires 0 <= n < 10
  {
    (48 + n) as char
  }

  function Pow10(w: nat): nat {
    if w == 0 then 1 else 10 * Pow10(w - 1)
  }

  /** `n` in decimal, zero-padded to exactly `w` digits. */
  function Digits(n: nat, w: nat): (r: string)
    requires n < Pow10(w)
    ensures |r| == w
    ensures forall i :: 0 <= i < |r| ==> '0' <= r[i] <= '9'
  {
    if w == 0 then [] else Digits(n / 10, w - 1) + [DigitChar(n % 10)]
  }

  /** `strftime('%Y-%m-%d')`: uses only year, month and day. */
  function IsoDate(d: ValidDate): string {
    Digits(d.year, 4) + "-" + Digits(d.month, 2) + "-" + Digits(d.day, 2)
  }

  // ------------------------------------------------------------ the function

  function FormatValue(v: DateValue): string {
    match v
    case Text(s) => BeforeT(s)
    case Day(d) => IsoDate(d)
    case Moment(d, _, _) => IsoDate(d)
    case NoneValue => "None"
    case Other(s) => if |s| <= 10 then s else s[..10]
    case Broken => ""
  }

  /**
    `formatar_data(dt)`. A string keeps its text before the first 'T'; a
    date or datetime renders as a 10-character ISO date that reads back to
    the same calendar date; anything else keeps at most 10 characters of its
    rendering (`None` becomes "None"); a value that raises becomes "".
  */
  function FormatDate(c: CalValue): (r: string)
    ensures Unwrap(c).Text? ==>
      var s := Unwrap(c).s; r <= s && 'T' !in r && (|r| == |s| || s[|r|] == 'T')
    ensures (Unwrap(c).Day? || Unwrap(c).Moment?) ==>
      |r| == 10 && ParseIsoDate(r) == Some(Unwrap(c).date)
    ensures Unwrap(c).NoneValue? ==> r == "None"
    ensures Unwrap(c).Other? ==>
      r <= Unwrap(c).rendering && |r| == if |Unwrap(c).rendering| < 10 then |Unwrap(c).rendering| else 10
    ensures Unwrap(c).Broken? ==> r == ""
  {
    var v := Unwrap(c);
    if v.Day? || v.Moment? then
      IsoDateRoundTrip(v.date);
      FormatValue(v)
    else
      FormatValue(v)
  }

  // ---------------------------------------------------- reading a date back

  function DigitValue(c: char): int {
    c as int - 48
  }

  /** The number a run of decimal digits spells, or None when a non-digit appears. */
  function ParseDigits(s: string): Option<nat> {
    if s == [] then Some(0)
    else if !('0' <= s[|s| - 1] <= '9') then None
    else match ParseDigits(s[..|s| - 1])
      case None => None
      case Some(n) => Some(10 * n + DigitValue(s[|s| - 1]))
  }

  /** Reads `YYYY-MM-DD` back into a valid date; None for anything else. */
  function ParseIsoDate(s: string): Option<Date> {
    if |s| != 10 || s[4] != '-' || s[7] != '-' then None
    else match (ParseDigits(s[..4]), ParseDigits(s[5..7]), ParseDigits(s[8..]))
      case (Some(y), Some(m), Some(d)) =>
        if Date(y, m, d).Valid() then Some(Date(y, m, d)) else None
      case _ => None
  }

  lemma ParseDigitsSnoc(init: string, c: char, n: nat)
    requires ParseDigits(init) == Some(n)
    requires '0' <= c <= '9'
    ensures ParseDigits(init + [c]) == Some(10 * n + DigitValue(c))
  {
    assert (init + [c])[..|init|] == init;
  }

  lemma {:induction false} DigitsRoundTrip(n: nat, w: nat)
    requires n < Pow10(w)
    ensures ParseDigits(Digits(n, w)) == Some(n)
  {
    if w > 0 {
      var q, m := n / 10, n % 10;
      DivMod10(n);
      var init := Digits(q, w - 1);
      var c := DigitChar(m);
      assert Digits(n, w) == init + [c];
      DigitsRoundTrip(q, w - 1);
      ParseDigitsSnoc(init, c, q);
    }
  }

  lemma DivMod10(n: nat)
    ensures n == 10 * (n / 10) + n % 10
    ensures 0 <= n % 10 < 10
    ensures DigitValue(DigitChar(n % 10)) == n % 10
  {
  }

  /** Every valid date survives the trip through its ISO rendering. */
  lemma IsoDateRoundTrip(d: ValidDate)
    ensures |IsoDate(d)| == 10
    ensures ParseIsoDate(IsoDate(d)) == Some(d)
  {
    var s := IsoDate(d);
    assert s[..4] == Digits(d.year, 4);
    assert s[5..7] == Digits(d.month, 2);
    assert s[8..] == Digits(d.day, 2);
    DigitsRoundTrip(d.year, 4);
    DigitsRoundTrip(d.month, 2);
    DigitsRoundTrip(d.day, 2);
  }

  // -------------------------------------------------------------- properties

  /** Time of day and zone never reach the result: a datetime formats as its date. */
  lemma MomentFormatsAsItsDay(d: ValidDate, t: TimeOfDay, tz: Option<string>, wrapped: bool)
    ensures FormatDate(if wrapped then Property(Moment(d, t, tz)) else Plain(Moment(d, t, tz)))
         == FormatDate(Plain(Day(d)))
  {
  }

  /** Two dates format alike exactly when they are the same date. */
  lemma {:induction false} IsoDateInjective(d1: ValidDate, d2: ValidDate)
    ensures FormatDate(Plain(Day(d1))) == FormatDate(Plain(Day(d2))) <==> d1 == d2
  {
    IsoDateRoundTrip(d1);
    IsoDateRoundTrip(d2);
  }

  /** A date-time string and its bare date part normalise identically. */
  lemma {:induction false} TextDropsTimePart(date: string, rest: string)
    requires 'T' !in date
    ensures FormatDate(Plain(Text(date + "T" + rest))) == date
    ensures FormatDate(Plain(Text(date))) == date
  {
    var s := date + "T" + rest;
    var r := BeforeT(s);
    assert s[|date|] == 'T';
    assert forall i :: 0 <= i < |date| ==> s[i] == date[i] && s[i] != 'T';
    assert r == s[..|r|] == date;
    var r2 := BeforeT(date);
    assert r2 == date[..|r2|];
  }

  lemma ExampleDateTimeString()
    ensures FormatDate(Property(Text("2024-03-10T14:00:00Z"))) == FormatDate(Plain(Text("2024-03-10")))
    ensures FormatDate(Plain(Text("2024-03-10"))) == "2024-03-10"
  {
    var date, rest := "2024-03-10", "14:00:00Z";
    assert "2024-03-10T14:00:00Z" == date + "T" + rest;
    TextDropsTimePart(date, rest);
  }

  /**
    The raw values that format to "": an empty string, a string starting
    with 'T', an empty rendering, or a value whose formatting raises.
  */
  predicate EmptyRendering(c: CalValue) {
    match Unwrap(c)
    case Text(s) => s == [] || s[0] == 'T'
    case Other(s) => s == []
    case Broken => true
    case _ => false
  }

  /**
    The empty result, which makes the mapper drop an event, arises exactly
    from an empty string, a string starting with 'T', an empty rendering, or
    a formatting failure. A missing value (`None`) is NOT among them.
  */
  lemma FormatDateEmptyIff(c: CalValue)
    ensures FormatDate(c) == "" <==> EmptyRendering(c)
  {
    if Unwrap(c).Text? {
      var s := Unwrap(c).s;
      if s != [] && s[0] != 'T' {
        assert |FormatDate(c)| > 0;
      }
    }
  }

  /** Calendar dates render as zero-padded ISO text, e.g. 1 March 2024 as "2024-03-01". */
  lemma ExampleIsoDates()
    ensures FormatDate(Property(Day(Date(2024, 3, 1)))) == "2024-03-01"
    ensures FormatDate(Property(Day(Date(2024, 3, 5)))) == "2024-03-05"
  {
    ExampleDigits();
    assert IsoDate(Date(2024, 3, 1)) == "2024" + "-" + "03" + "-" + "01";
    assert IsoDate(Date(2024, 3, 5)) == "2024" + "-" + "03" + "-" + "05";
  }

  lemma ExampleDigits()
    ensures Digits(2024, 4) == "2024"
    ensures Digits(3, 2) == "03" && Digits(1, 2) == "01" && Digits(5, 2) == "05"
  {
    assert DigitChar(0) == '0' && DigitChar(1) == '1' && DigitChar(2) == '2';
    assert DigitChar(3) == '3' && DigitChar(4) == '4' && DigitChar(5) == '5';
    assert Digits(2, 1) == "2";
    assert Digits(20, 2) == "20";
    assert Digits(202, 3) == "202";
    assert Digits(0, 1) == "0";
  }
}
