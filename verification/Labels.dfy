/** Frequency labels and decimal numbers as attribute text (migration/_layout.py, _constants.py). */
module Labels {
  import opened Wrappers
  import opened Frequencies

  // -- month and day names -----------------------------------------------------------------------

  function MonthName(month: int): string {
    if month == 1 then "january" else if month == 2 then "february" else if month == 3 then "march"
    else if month == 4 then "april" else if month == 5 then "may" else if month == 6 then "june"
    else if month == 7 then "july" else if month == 8 then "august" else if month == 9 then "september"
    else if month == 10 then "october" else if month == 11 then "november" else "december"
  }

  function MonthNumber(name: string): (r: Option<int>)
    ensures r.Some? ==> 1 <= r.value <= 12 && MonthName(r.value) == name
  {
    if name == "january" then Some(1) else if name == "february" then Some(2) else if name == "march" then Some(3)
    else if name == "april" then Some(4) else if name == "may" then Some(5) else if name == "june" then Some(6)
    else if name == "july" then Some(7) else if name == "august" then Some(8) else if name == "september" then Some(9)
    else if name == "october" then Some(10) else if name == "november" then Some(11)
    else if name == "december" then Some(12) else None
  }

  lemma MonthNamesDiffer(month: int)
    requires 1 <= month <= 12
    ensures MonthNumber(MonthName(month)) == Some(month)
  {
    var name := MonthName(month);
    var letters := |name|;
    assert letters == if month == 5 then 3
                      else if month == 6 || month == 7 then 4
                      else if month == 3 || month == 4 then 5
                      else if month == 8 then 6 else if month == 1 || month == 10 then 7
                      else if month == 2 || month == 11 || month == 12 then 8 else 9;
    assert name[0] == if month == 1 || month == 6 || month == 7 then 'j' else if month == 2 then 'f'
                      else if month == 3 || month == 5 then 'm' else if month == 4 || month == 8 then 'a'
                      else if month == 9 then 's' else if month == 10 then 'o' else if month == 11 then 'n' else 'd';
    assert month == 6 ==> name[2] == 'n';
    assert month == 7 ==> name[2] == 'l';
  }

  function DayName(day: int): string {
    if day == 1 then "monday" else if day == 2 then "tuesday" else if day == 3 then "wednesday"
    else if day == 4 then "thursday" else if day == 5 then "friday" else if day == 6 then "saturday" else "sunday"
  }

  function DayNumber(name: string): (r: Option<int>)
    ensures r.Some? ==> 1 <= r.value <= 7 && DayName(r.value) == name
  {
    if name == "monday" then Some(1) else if name == "tuesday" then Some(2) else if name == "wednesday" then Some(3)
    else if name == "thursday" then Some(4) else if name == "friday" then Some(5)
    else if name == "saturday" then Some(6)
    else if name == "sunday" then Some(7) else None
  }

  lemma DayNamesDiffer(day: int)
    requires 1 <= day <= 7
    ensures DayNumber(DayName(day)) == Some(day)
  {
    var name := DayName(day);
    assert |name| == if day == 2 then 7 else if day == 3 then 9 else if day == 4 || day == 6 then 8 else 6;
    assert name[0] == if day == 1 then 'm' else if day == 5 then 'f' else if day == 3 then 'w' else
                      if day == 2 || day == 4 then 't' else 's';
  }

  // -- frequency labels ---------------------------------------------------------------------------

  const WEEKLY := "weekly_"
  const QUARTERLY := "quarterly_"
  const SEMIANNUAL := "semiannual_"
  const ANNUAL := "annual_"

  /** The FAME name of a frequency; quarterly and half-yearly anchors name their last ending month. */
  function Label(f: Frequency): string {
    match f
    case Unit => "case"
    case Daily => "daily"
    case BDaily => "business"
    case Monthly => "monthly"
    case Weekly(day) => WEEKLY + DayName(day)
    case Quarterly(month) => QUARTERLY + MonthName(month + 9)
    case HalfYearly(month) => SEMIANNUAL + MonthName(month + 6)
    case Yearly(month) => ANNUAL + MonthName(month)
  }

  /** The rest of a text after a prefix. */
  function Beyond(prefix: string, text: string): Option<string> {
    if prefix <= text then Some(text[|prefix|..]) else None
  }

  function WeeklyLabel(text: string): (r: Option<Frequency>)
    ensures r.Some? ==> r.value.Valid() && Label(r.value) == text
  {
    match Beyond(WEEKLY, text)
    case None => None
    case Some(rest) =>
      match DayNumber(rest)
      case None => None
      case Some(day) => Some(Weekly(day))
  }

  function MonthlyLabel(prefix: string, text: string): (r: Option<int>)
    ensures r.Some? ==> 1 <= r.value <= 12 && prefix + MonthName(r.value) == text
  {
    match Beyond(prefix, text)
    case None => None
    case Some(rest) => MonthNumber(rest)
  }

  /** The frequency a label names, among the supported ones. */
  function LabelFrequency(text: string): (r: Option<Frequency>)
    ensures r.Some? ==> r.value.Valid() && Label(r.value) == text
  {
    if text == "case" then Some(Unit)
    else if text == "daily" then Some(Daily)
    else if text == "business" then Some(BDaily)
    else if text == "monthly" then Some(Monthly)
    else if WeeklyLabel(text).Some? then WeeklyLabel(text)
    else
      var q, s, a := MonthlyLabel(QUARTERLY, text), MonthlyLabel(SEMIANNUAL, text), MonthlyLabel(ANNUAL, text);
      if q.Some? && q.value >= 10 then Some(Quarterly(q.value - 9))
      else if s.Some? && s.value >= 7 then Some(HalfYearly(s.value - 6))
      else if a.Some? then Some(Yearly(a.value))
      else None
  }

  lemma PrefixOnce(prefix: string, rest: string)
    ensures Beyond(prefix, prefix + rest) == Some(rest)
  {
    assert (prefix + rest)[|prefix|..] == rest;
  }

  /** A text whose first letter is that of one family names no frequency of another. */
  lemma OtherFamilies(text: string)
    requires text != []
    ensures text[0] != 'w' ==> WeeklyLabel(text).None?
    ensures text[0] != 'q' ==> MonthlyLabel(QUARTERLY, text).None?
    ensures text[0] != 's' ==> MonthlyLabel(SEMIANNUAL, text).None?
    ensures text[0] == 'w' || text[0] == 'q' || text[0] == 's' || text[0] == 'a' ==>
              text != "case" && text != "daily" && text != "business" && text != "monthly"
  {
    hide MonthNumber, DayNumber;
  }

  /** Every supported frequency is found again from its label. */
  lemma LabelNames(f: Frequency)
    requires f.Valid()
    ensures LabelFrequency(Label(f)) == Some(f)
  {
    hide MonthName, MonthNumber, DayName, DayNumber;
    var text := Label(f);
    match f
    case Weekly(day) =>
      PrefixOnce(WEEKLY, DayName(day));
      DayNamesDiffer(day);
      OtherFamilies(text);
    case Quarterly(month) =>
      PrefixOnce(QUARTERLY, MonthName(month + 9));
      MonthNamesDiffer(month + 9);
      OtherFamilies(text);
    case HalfYearly(month) =>
      PrefixOnce(SEMIANNUAL, MonthName(month + 6));
      MonthNamesDiffer(month + 6);
      OtherFamilies(text);
    case Yearly(month) =>
      PrefixOnce(ANNUAL, MonthName(month));
      MonthNamesDiffer(month);
      OtherFamilies(text);
    case _ =>
  }

  // -- decimal numbers ------------------------------------------------------------------------------

  predicate IsDigit(c: char) {
    '0' <= c <= '9'
  }

  predicate AllDigits(s: string) {
    s != [] && forall i :: 0 <= i < |s| ==> IsDigit(s[i])
  }

  function Digit(d: int): char
    requires 0 <= d < 10
  {
    ('0' as int + d) as char
  }

  function Digits(n: nat): (r: string)
    ensures AllDigits(r)
  {
    if n < 10 then [Digit(n)] else Digits(n / 10) + [Digit(n % 10)]
  }

  /** str(n) of an integer. */
  function Decimal(n: int): string {
    if n < 0 then "-" + Digits(-n) else Digits(n)
  }

  function DigitsValue(s: string): (n: nat)
    requires forall i :: 0 <= i < |s| ==> IsDigit(s[i])
  {
    if s == [] then 0
    else
      assert IsDigit(s[|s| - 1]);
      10 * DigitsValue(s[..|s| - 1]) + (s[|s| - 1] as int - '0' as int)
  }

  /** int(text) of a text that is digits after an optional minus sign. */
  function ParseDecimal(s: string): Option<int> {
    if AllDigits(s) then Some(DigitsValue(s))
    else if s != [] && s[0] == '-' && AllDigits(s[1..]) then Some(0 - DigitsValue(s[1..]))
    else None
  }

  lemma {:induction false} DigitsParse(n: nat)
    ensures DigitsValue(Digits(n)) == n
  {
    if n >= 10 {
      DigitsParse(n / 10);
      assert Digits(n)[..|Digits(n)| - 1] == Digits(n / 10);
    } else {
      assert Digits(n)[..0] == [];
    }
  }

  lemma DecimalParses(n: int)
    ensures ParseDecimal(Decimal(n)) == Some(n)
  {
    if n < 0 {
      DigitsParse(-n);
      assert Decimal(n)[0] == '-' && Decimal(n)[1..] == Digits(-n);
    } else {
      DigitsParse(n);
    }
  }
}
