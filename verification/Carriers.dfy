/** FAME carriers: typed values in their native encodings and the missing-value sentinels (_data.py). */
module Carriers {
  import opened Wrappers
  import opened Bytes
  import opened Frequencies

  datatype Kind = Precision | Numeric | Boolean | Date | String | Namelist

  /** One stored value: the bits of a number or the bytes of a string. */
  datatype Datum = Word(bits: int) | Chars(text: Text)

  /** What can go wrong with a value. */
  datatype ValueError =
    | Invalid
    | MissingValue
    | EmptySeries
    | TextEncoding
    | UnsupportedFrequency
    | Calendar(reason: CalendarError)

  const NORMAL := 0
  const NC := 1
  const NA := 2
  const ND := 3

  datatype Triplet = Triplet(nc: Datum, na: Datum, nd: Datum) {
    predicate Distinct() {
      nc != na && na != nd && nc != nd
    }

    predicate Has(d: Datum) {
      d == nc || d == na || d == nd
    }
  }

  /** The library's sentinels; nothing says that a floating sentinel is a NaN. */
  datatype Sentinels = Sentinels(precision: Triplet, numeric: Triplet, boolean: Triplet, index: Triplet,
      text: Triplet) {
    function Of(kind: Kind): Triplet {
      match kind
      case Precision => precision
      case Numeric => numeric
      case Boolean => boolean
      case Date => index
      case String => text
      case Namelist => text
    }

    predicate Distinct() {
      precision.Distinct() && numeric.Distinct() && boolean.Distinct() && index.Distinct() && text.Distinct()
    }

    predicate WellTyped() {
      precision.nc.Word? && precision.na.Word? && precision.nd.Word?
      && numeric.nc.Word? && numeric.na.Word? && numeric.nd.Word?
      && boolean.nc.Word? && boolean.na.Word? && boolean.nd.Word?
      && index.nc.Word? && index.na.Word? && index.nd.Word?
      && FitsInt64(index.nc.bits) && FitsInt64(index.na.bits)
      && text.nc.Chars? && text.na.Chars? && text.nd.Chars?
    }
  }

  // -- floating bit patterns ----------------------------------------------------------------

  const DOUBLE_FRACTION := 0x10_0000_0000_0000
  const SINGLE_FRACTION := 0x80_0000
  const DOUBLE_NAN := 0x7FF8_0000_0000_0000
  const SINGLE_NAN := 0x7FC0_0000

  predicate IsFloat(kind: Kind) {
    kind.Precision? || kind.Numeric?
  }

  /** Section 3.4 of IEEE 754-2019: all exponent bits set and a fraction that is not zero. */
  predicate IsNaN(kind: Kind, bits: int) {
    if kind.Precision? then bits / DOUBLE_FRACTION % 0x800 == 0x7FF && bits % DOUBLE_FRACTION != 0
    else bits / SINGLE_FRACTION % 0x100 == 0xFF && bits % SINGLE_FRACTION != 0
  }

  function CanonicalNaN(kind: Kind): int {
    if kind.Precision? then DOUBLE_NAN else SINGLE_NAN
  }

  // -- classification --------------------------------------------------------------------

  /** The code after three overwriting passes over one element. */
  function LastMatch(d: Datum, t: Triplet): int {
    if d == t.nd then ND else if d == t.na then NA else if d == t.nc then NC else NORMAL
  }

  function FirstMatch(d: Datum, t: Triplet): int {
    if d == t.nc then NC else if d == t.na then NA else if d == t.nd then ND else NORMAL
  }

  function Code(kind: Kind, d: Datum, t: Triplet): int {
    if kind.String? then FirstMatch(d, t) else LastMatch(d, t)
  }

  function Codes(kind: Kind, values: seq<Datum>, t: Triplet): (r: seq<int>)
    ensures |r| == |values| && forall i :: 0 <= i < |r| ==> r[i] == Code(kind, values[i], t)
  {
    seq(|values|, i requires 0 <= i < |values| => Code(kind, values[i], t))
  }

  function SentinelValue(category: int, t: Triplet): Datum {
    if category == NC then t.nc else if category == NA then t.na else t.nd
  }

  /** With distinct sentinels a code names exactly the sentinel that is stored. */
  lemma CodeNamesSentinel(kind: Kind, d: Datum, t: Triplet)
    requires t.Distinct()
    ensures forall c :: NC <= c <= ND ==> (Code(kind, d, t) == c <==> d == SentinelValue(c, t))
    ensures Code(kind, d, t) == NORMAL <==> !t.Has(d)
  {
  }

  /** Bitwise classification; a later pass overwrites the code of an earlier one. */
  method ClassifyBySentinel(kind: Kind, values: seq<Datum>, t: Triplet) returns (codes: array<int>)
    ensures fresh(codes) && codes[..] == Codes(kind, values, t)
  {
    codes := new int[|values|](_ => NORMAL);
    if kind.String? {
      for i := 0 to |values|
        invariant forall j :: 0 <= j < i ==> codes[j] == FirstMatch(values[j], t)
      {
        codes[i] := if values[i] == t.nc then NC else if values[i] == t.na then NA else if values[i] == t.nd then ND
                    else NORMAL;
      }
      return;
    }
    var passes := [(NC, t.nc), (NA, t.na), (ND, t.nd)];
    for p := 0 to 3
      invariant forall j :: 0 <= j < |values| ==> codes[j] == AfterPasses(values[j], t, p)
    {
      for i := 0 to |values|
        invariant forall j :: 0 <= j < i ==> codes[j] == AfterPasses(values[j], t, p + 1)
        invariant forall j :: i <= j < |values| ==> codes[j] == AfterPasses(values[j], t, p)
      {
        if values[i] == passes[p].1 {
          codes[i] := passes[p].0;
        }
      }
    }
  }

  function AfterPasses(d: Datum, t: Triplet, passes: int): int {
    if passes >= 3 && d == t.nd then ND
    else if passes >= 2 && d == t.na then NA
    else if passes >= 1 && d == t.nc then NC
    else NORMAL
  }

  // -- frequency codes ------------------------------------------------------------------------

  const CASE_CODE := 232

  function FameCode(f: Frequency): int {
    match f
    case Unit => CASE_CODE
    case Daily => 8
    case BDaily => 9
    case Weekly(day) => if day == 7 then 16 else 16 + day
    case Monthly => 129
    case Quarterly(month) => 159 + month
    case HalfYearly(month) => 203 + month
    case Yearly(month) => 191 + month
  }

  function TseconFrequency(code: int): (r: Option<Frequency>)
    ensures r.Some? ==> r.value.Valid() && FameCode(r.value) == code
  {
    if code == CASE_CODE then Some(Unit)
    else if code == 8 then Some(Daily)
    else if code == 9 then Some(BDaily)
    else if code == 16 then Some(Weekly(7))
    else if 17 <= code <= 22 then Some(Weekly(code - 16))
    else if code == 129 then Some(Monthly)
    else if 160 <= code <= 162 then Some(Quarterly(code - 159))
    else if 192 <= code <= 203 then Some(Yearly(code - 191))
    else if 204 <= code <= 209 then Some(HalfYearly(code - 203))
    else None
  }

  // -- carriers ---------------------------------------------------------------------------

  const MAX_OBSERVATIONS := 0x7FFF_FFFF

  datatype RawObject =
    | RawScalar(kind: Kind, value: Datum, dateFrequency: Option<int>)
    | RawSeries(kind: Kind, frequency: int, firstIndex: int, values: seq<Datum>, dateFrequency: Option<int>)
  {
    /** What the carriers' constructors accept. */
    predicate Constructible() {
      (kind.Date? <==> dateFrequency.Some?)
      && (dateFrequency.Some? ==> dateFrequency.value >= 8 && dateFrequency.value != CASE_CODE)
      && match this
         case RawScalar(_, d, _) => Encodes(kind, d)
         case RawSeries(_, _, first, data, _) =>
           !kind.Namelist? && FitsInt64(first) && |data| <= MAX_OBSERVATIONS
           && (data != [] ==> first + |data| - 1 < 0x8000_0000_0000_0000)
           && forall i :: 0 <= i < |data| ==> Encodes(kind, data[i])
    }
  }

  predicate Encodes(kind: Kind, d: Datum) {
    match kind
    case Precision => d.Word? && 0 <= d.bits < 0x1_0000_0000_0000_0000
    case Numeric => d.Word? && 0 <= d.bits < 0x1_0000_0000
    case Boolean => d.Word? && FitsInt32(d.bits)
    case Date => d.Word? && FitsInt64(d.bits)
    case String => d.Chars? && 0 !in d.text
    case Namelist => d.Chars? && 0 !in d.text
  }
}
