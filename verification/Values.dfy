/** Python values to FAME carriers and back, under the missing, empty and text policies (bridge/_values.py). */
module Values {
  import opened Wrappers
  import opened Bytes
  import opened Frequencies
  import opened Carriers
  import DoubleBits
  import ExactNumbers
  import NameLists

  /** A str or a bytes object. */
  datatype Words = Str(s: string) | Raw(t: Text)

  /** A series buffer of one dtype; floats are bit patterns. */
  datatype Buffer =
    | Doubles(bits: seq<int>)
    | Singles(bits: seq<int>)
    | Bools(flags: seq<bool>)
    | Integers(ints: seq<int>)
    | OtherDtype

  datatype Value =
    | Bool(b: bool)
    | Single(bits: int)
    | Double(bits: int)
    | Integer(n: int)
    | Instant(moment: Moment)
    | PlainText(s: string)
    | Names(members: seq<Text>)
    | Phrase(words: Words)
    | Series(first: Moment, data: Buffer)
    | Dates(first: Moment, items: seq<Option<Moment>>, valueFrequency: Frequency)
    | Strings(first: Moment, texts: seq<Option<Words>>)
    | Vector(parts: seq<Words>)
    | Nothing

  /** What the constructors of the value classes guarantee. */
  predicate WellFormed(v: Value) {
    match v
    case Single(bits) => Encodes(Numeric, Word(bits))
    case Double(bits) => Encodes(Precision, Word(bits))
    case Instant(m) => m.frequency.Valid()
    case Names(members) => forall m :: m in members ==> NameLists.ValidMember(m)
    case Series(first, data) =>
      first.frequency.Valid()
      && (data.Doubles? ==> forall i :: 0 <= i < |data.bits| ==> Encodes(Precision, Word(data.bits[i])))
      && (data.Singles? ==> forall i :: 0 <= i < |data.bits| ==> Encodes(Numeric, Word(data.bits[i])))
    case Dates(first, items, f) =>
      first.frequency.Valid() && f.Valid() && !f.Unit?
      && forall i :: 0 <= i < |items| && items[i].Some? ==> items[i].value.frequency == f
    case Strings(first, _) => first.frequency.Valid()
    case _ => true
  }

  // -- text ------------------------------------------------------------------------------

  datatype TextPolicy = Ascii | AsBytes | Utf8

  datatype Codec = Codec(encode: string -> Option<Text>, decode: Text -> Option<string>) {
    /** Strict: decoding undoes encoding. */
    ghost predicate Strict() {
      forall s :: encode(s).Some? ==> decode(encode(s).value) == Some(s)
    }
  }

  predicate IsAscii(s: string) {
    forall i :: 0 <= i < |s| ==> s[i] as int < 128
  }

  function EncodeAscii(s: string): (r: Option<Text>)
    ensures r.Some? ==> |r.value| == |s| && forall i :: 0 <= i < |s| ==> r.value[i] == s[i] as int < 128
  {
    if IsAscii(s) then Some(seq(|s|, i requires 0 <= i < |s| && IsAscii(s) => s[i] as Byte)) else None
  }

  predicate AsciiBytes(t: Text) {
    forall i :: 0 <= i < |t| ==> t[i] < 128
  }

  function DecodeAscii(t: Text): (r: Option<string>)
    ensures r.Some? <==> AsciiBytes(t)
    ensures r.Some? ==> |r.value| == |t| && forall i :: 0 <= i < |t| ==> r.value[i] == t[i] as char
  {
    if AsciiBytes(t) then Some(seq(|t|, i requires 0 <= i < |t| && AsciiBytes(t) => t[i] as char)) else None
  }

  lemma AsciiIsStrict()
    ensures Codec(EncodeAscii, DecodeAscii).Strict()
  {
    forall s | EncodeAscii(s).Some? ensures DecodeAscii(EncodeAscii(s).value) == Some(s) {
      var t := EncodeAscii(s).value;
      assert DecodeAscii(t).value == s;
    }
  }

  datatype Session = Session(native: NativeCalendar, sentinels: Sentinels, utf8: Codec) {
    ghost predicate Ready() {
      native.Consistent() && sentinels.Distinct() && sentinels.WellTyped() && utf8.Strict()
    }

    function CodecFor(p: TextPolicy): Codec {
      if p.Utf8? then utf8 else Codec(EncodeAscii, DecodeAscii)
    }
  }

  function EncodeValue(sess: Session, w: Words, p: TextPolicy): Result<Text, ValueError> {
    match w
    case Str(s) =>
      var encoded := sess.CodecFor(p).encode(s);
      if encoded.None? || 0 in encoded.value then Err(TextEncoding) else Ok(encoded.value)
    case Raw(t) => if 0 in t then Err(TextEncoding) else Ok(t)
  }

  function DecodeValue(sess: Session, t: Text, p: TextPolicy): Result<Words, ValueError> {
    if p.AsBytes? then Ok(Raw(t))
    else match sess.CodecFor(p).decode(t)
      case Some(s) => Ok(Str(s))
      case None => Err(TextEncoding)
  }

  // -- what is known before any native call ---------------------------------------------------

  datatype Prepared =
    | One(kind: Kind, datum: Datum)
    | OneDate(moment: Moment)
    | Many(kind: Kind, first: Moment, data: seq<Datum>)
    | ManyDates(first: Moment, items: seq<Option<Moment>>, valueFrequency: Frequency)
    | ManyStrings(first: Moment, texts: seq<Option<Text>>)

  function AsWords(bits: seq<int>): (r: seq<Datum>)
    ensures |r| == |bits| && forall i :: 0 <= i < |r| ==> r[i] == Word(bits[i])
  {
    seq(|bits|, i requires 0 <= i < |bits| => Word(bits[i]))
  }

  function FlagWord(b: bool): Datum {
    Word(if b then 1 else 0)
  }

  function AsFlags(flags: seq<bool>): (r: seq<Datum>)
    ensures |r| == |flags| && forall i :: 0 <= i < |r| ==> r[i] == FlagWord(flags[i])
  {
    seq(|flags|, i requires 0 <= i < |flags| => FlagWord(flags[i]))
  }

  predicate AllExact(ints: seq<int>) {
    forall i :: 0 <= i < |ints| ==> ExactNumbers.ScalarNumber(ints[i]).Some?
  }

  function AsDoubles(ints: seq<int>): (r: seq<int>)
    ensures |r| == |ints| && forall i :: 0 <= i < |r| ==> r[i] == DoubleBits.Encode(ints[i])
  {
    seq(|ints|, i requires 0 <= i < |ints| => DoubleBits.Encode(ints[i]))
  }

  function EncodeAll(sess: Session, texts: seq<Option<Words>>,
      p: TextPolicy): (r: Result<seq<Option<Text>>, ValueError>)
    ensures r.Ok? ==> |r.value| == |texts|
    ensures r.Ok? ==> forall i :: 0 <= i < |texts| ==> EncodesTo(sess, texts[i], p, r.value[i])
  {
    if texts == [] then Ok([])
    else
      var head :- (if texts[0].None? then Ok(None)
                   else var t :- EncodeValue(sess, texts[0].value, p); Ok(Some(t)));
      var tail :- EncodeAll(sess, texts[1..], p);
      Ok([head] + tail)
  }

  predicate EncodesTo(sess: Session, w: Option<Words>, p: TextPolicy, t: Option<Text>) {
    if w.None? then t.None? else t.Some? && EncodeValue(sess, w.value, p) == Ok(t.value)
  }

  function Present(parts: seq<Words>): (r: seq<Option<Words>>)
    ensures |r| == |parts| && forall i :: 0 <= i < |r| ==> r[i] == Some(parts[i])
  {
    seq(|parts|, i requires 0 <= i < |parts| => Some(parts[i]))
  }

  predicate LooksLikeNamelist(s: string) {
    |s| > 1 && s[0] == '{' && s[|s| - 1] == '}'
  }

  /** The members of list text: printable ASCII, or nothing. */
  function ParseNames(s: string): Option<seq<Text>> {
    match EncodeAscii(s)
    case None => None
    case Some(t) => NameLists.Members(t)
  }

  function Prepare(sess: Session, v: Value, p: TextPolicy): Result<Prepared, ValueError> {
    match v
    case Bool(b) => Ok(One(Boolean, FlagWord(b)))
    case Single(bits) => Ok(One(Numeric, Word(bits)))
    case Double(bits) => Ok(One(Precision, Word(bits)))
    case Integer(n) =>
      if ExactNumbers.ScalarNumber(n).None? then Err(Invalid) else Ok(One(Precision, Word(DoubleBits.Encode(n))))
    case Instant(m) => if m.frequency.Unit? then Err(Invalid) else Ok(OneDate(m))
    case PlainText(s) =>
      var t :- EncodeValue(sess, Str(s), p); Ok(One(String, Chars(t)))
    case Names(members) => Ok(One(Namelist, Chars(Upper(NameLists.Print(members)))))
    case Phrase(w) =>
      if w.Str? && LooksLikeNamelist(w.s) then
        match ParseNames(w.s)
        case None => Err(Invalid)
        case Some(members) => Ok(One(Namelist, Chars(Upper(NameLists.Print(members)))))
      else
        var t :- EncodeValue(sess, w, p); Ok(One(String, Chars(t)))
    case Series(first, data) => PrepareSeries(first, data)
    case Dates(first, items, f) =>
      if |items| > MAX_OBSERVATIONS then Err(Invalid) else Ok(ManyDates(first, items, f))
    case Strings(first, texts) =>
      if |texts| > MAX_OBSERVATIONS then Err(Invalid)
      else var ts :- EncodeAll(sess, texts, p); Ok(ManyStrings(first, ts))
    case Vector(parts) =>
      if |parts| > MAX_OBSERVATIONS then Err(Invalid)
      else var ts :- EncodeAll(sess, Present(parts), p); Ok(ManyStrings(Moment(Unit, 1), ts))
    case Nothing => Err(Invalid)
  }

  function Length(data: Buffer): nat {
    match data
    case Doubles(bits) => |bits|
    case Singles(bits) => |bits|
    case Bools(flags) => |flags|
    case Integers(ints) => |ints|
    case OtherDtype => 0
  }

  function PrepareSeries(first: Moment, data: Buffer): Result<Prepared, ValueError> {
    if Length(data) > MAX_OBSERVATIONS then Err(Invalid)
    else match data
      case Doubles(bits) => Ok(Many(Precision, first, AsWords(bits)))
      case Singles(bits) => Ok(Many(Numeric, first, AsWords(bits)))
      case Bools(flags) => Ok(Many(Boolean, first, AsFlags(flags)))
      case Integers(ints) =>
        if AllExact(ints) then Ok(Many(Precision, first, AsWords(AsDoubles(ints)))) else Err(Invalid)
      case OtherDtype => Err(Invalid)
  }

  // -- to_fame -----------------------------------------------------------------------------

  datatype EmptyPolicy = Preserve | Reference
  datatype MissingPolicy = ToNan | Strict

  predicate MissingDatum(kind: Kind, d: Datum) {
    IsFloat(kind) && d.Word? && IsNaN(kind, d.bits)
  }

  /** NaN observations become the NC sentinel. */
  function Marked(kind: Kind, data: seq<Datum>, nc: Datum): (r: seq<Datum>)
    ensures |r| == |data|
    ensures forall i :: 0 <= i < |r| ==> r[i] == if MissingDatum(kind, data[i]) then nc else data[i]
  {
    seq(|data|, i requires 0 <= i < |data| => if MissingDatum(kind, data[i]) then nc else data[i])
  }

  function DateIndex(sess: Session, item: Option<Moment>): Result<int, ValueError>
    requires sess.sentinels.WellTyped()
  {
    if item.None? then Ok(sess.sentinels.index.nc.bits)
    else match MitToIndex(sess.native, item.value)
      case Ok(index) => if FitsInt64(index) then Ok(index) else Err(Calendar(TooWide))
      case Err(e) => Err(Calendar(e))
  }

  function DateIndices(sess: Session, items: seq<Option<Moment>>): (r: Result<seq<Datum>, ValueError>)
    requires sess.sentinels.WellTyped()
    ensures r.Ok? ==> |r.value| == |items|
    ensures r.Ok? ==> forall i :: 0 <= i < |items| ==> IndexedAs(sess, items[i], r.value[i])
  {
    if items == [] then Ok([])
    else
      var rest :- DateIndices(sess, items[..|items| - 1]);
      var last :- DateIndex(sess, items[|items| - 1]);
      Ok(rest + [Word(last)])
  }

  predicate IndexedAs(sess: Session, item: Option<Moment>, d: Datum)
    requires sess.sentinels.WellTyped()
  {
    d.Word? && DateIndex(sess, item) == Ok(d.bits)
  }

  function TextOrMarker(texts: seq<Option<Text>>, nc: Datum): (r: seq<Datum>)
    ensures |r| == |texts|
    ensures forall i :: 0 <= i < |r| ==> r[i] == if texts[i].None? then nc else Chars(texts[i].value)
  {
    seq(|texts|, i requires 0 <= i < |texts| => if texts[i].None? then nc else Chars(texts[i].value))
  }

  /** The carrier's constructor: ranges that do not fit are refused. */
  function MakeSeries(kind: Kind, frequency: int, first: int, data: seq<Datum>, dateFrequency: Option<int>):
    Result<RawObject, ValueError>
  {
    if !FitsInt64(first) || |data| > MAX_OBSERVATIONS then Err(Invalid)
    else if data != [] && first + |data| - 1 >= 0x8000_0000_0000_0000 then Err(Invalid)
    else Ok(RawSeries(kind, frequency, first, data, dateFrequency))
  }

  function FirstIndex(sess: Session, first: Moment, count: nat): Result<int, ValueError> {
    match MitToIndex(sess.native, first)
    case Err(e) => Err(Calendar(e))
    case Ok(index) =>
      if first.frequency.Unit? && count > 0 && index + count - 1 >= 0x8000_0000_0000_0000 then Err(Invalid)
      else Ok(index)
  }

  function EmptyCarrier(sess: Session, kind: Kind, code: int, first: int, dateFrequency: Option<int>,
      empty: EmptyPolicy):
    Result<RawObject, ValueError>
    requires sess.sentinels.WellTyped()
  {
    if empty.Reference? && !kind.String? then
      MakeSeries(kind, code, first, [sess.sentinels.Of(kind).na], dateFrequency)
    else MakeSeries(kind, code, sess.sentinels.index.nc.bits, [], dateFrequency)
  }

  function Convert(sess: Session, p: Prepared, empty: EmptyPolicy): Result<RawObject, ValueError>
    requires sess.sentinels.WellTyped()
  {
    match p
    case One(kind, d) =>
      Ok(RawScalar(kind, if MissingDatum(kind, d) then sess.sentinels.Of(kind).nc else d, None))
    case OneDate(m) =>
      var index :- DateIndex(sess, Some(m)); Ok(RawScalar(Date, Word(index), Some(FameCode(m.frequency))))
    case Many(kind, first, data) =>
      var index :- FirstIndex(sess, first, |data|);
      var code := FameCode(first.frequency);
      if data == [] then EmptyCarrier(sess, kind, code, index, None, empty)
      else MakeSeries(kind, code, index, Marked(kind, data, sess.sentinels.Of(kind).nc), None)
    case ManyDates(first, items, f) =>
      var index :- FirstIndex(sess, first, |items|);
      var code := FameCode(first.frequency);
      if items == [] then EmptyCarrier(sess, Date, code, index, Some(FameCode(f)), empty)
      else
        var indices :- DateIndices(sess, items);
        MakeSeries(Date, code, index, indices, Some(FameCode(f)))
    case ManyStrings(first, texts) =>
      var index :- FirstIndex(sess, first, |texts|);
      var code := FameCode(first.frequency);
      if texts == [] then EmptyCarrier(sess, String, code, index, None, empty)
      else MakeSeries(String, code, index, TextOrMarker(texts, sess.sentinels.text.nc), None)
  }

  function ToFame(sess: Session, v: Value, empty: EmptyPolicy, text: TextPolicy): Result<RawObject, ValueError>
    requires sess.sentinels.WellTyped()
  {
    var prepared :- Prepare(sess, v, text);
    Convert(sess, prepared, empty)
  }

  // -- from_fame ----------------------------------------------------------------------------

  /** Missing observations of a floating buffer become the canonical NaN. */
  function Blanked(kind: Kind, data: seq<Datum>, codes: seq<int>): (r: seq<int>)
    requires |codes| == |data|
    ensures |r| == |data|
    ensures forall i :: 0 <= i < |r| ==>
              r[i] == if codes[i] != NORMAL then CanonicalNaN(kind) else if data[i].Word? then data[i].bits else 0
  {
    seq(|data|, i requires 0 <= i < |data| =>
      if codes[i] != NORMAL then CanonicalNaN(kind) else if data[i].Word? then data[i].bits else 0)
  }

  function Flags(data: seq<Datum>): (r: seq<bool>)
    ensures |r| == |data| && forall i :: 0 <= i < |r| ==> r[i] == (data[i] != Word(0))
  {
    seq(|data|, i requires 0 <= i < |data| => data[i] != Word(0))
  }

  function ReadMoment(sess: Session, f: Frequency, d: Datum, code: int): Result<Option<Moment>, ValueError> {
    if code != NORMAL then Ok(None)
    else if !d.Word? then Err(Invalid)
    else match IndexToMit(sess.native, f, d.bits)
      case Ok(m) => Ok(Some(m))
      case Err(e) => Err(Calendar(e))
  }

  function ReadMoments(sess: Session, f: Frequency, data: seq<Datum>, codes: seq<int>):
    (r: Result<seq<Option<Moment>>, ValueError>)
    requires |codes| == |data|
    ensures r.Ok? ==> |r.value| == |data|
    ensures r.Ok? ==> forall i :: 0 <= i < |data| ==> ReadMoment(sess, f, data[i], codes[i]) == Ok(r.value[i])
  {
    if data == [] then Ok([])
    else
      var n := |data| - 1;
      var rest :- ReadMoments(sess, f, data[..n], codes[..n]);
      var last :- ReadMoment(sess, f, data[n], codes[n]);
      Ok(rest + [last])
  }

  function ReadText(sess: Session, p: TextPolicy, d: Datum, code: int): Result<Option<Words>, ValueError> {
    if code != NORMAL then Ok(None)
    else if !d.Chars? then Err(Invalid)
    else var w :- DecodeValue(sess, d.text, p); Ok(Some(w))
  }

  function ReadTexts(sess: Session, p: TextPolicy, data: seq<Datum>, codes: seq<int>):
    (r: Result<seq<Option<Words>>, ValueError>)
    requires |codes| == |data|
    ensures r.Ok? ==> |r.value| == |data|
    ensures r.Ok? ==> forall i :: 0 <= i < |data| ==> ReadText(sess, p, data[i], codes[i]) == Ok(r.value[i])
  {
    if data == [] then Ok([])
    else
      var n := |data| - 1;
      var rest :- ReadTexts(sess, p, data[..n], codes[..n]);
      var last :- ReadText(sess, p, data[n], codes[n]);
      Ok(rest + [last])
  }

  function Empty(kind: Kind, first: Moment, f: Frequency): Value {
    match kind
    case Precision => Series(first, Doubles([]))
    case Numeric => Series(first, Singles([]))
    case Boolean => Series(first, Bools([]))
    case Date => Dates(first, [], f)
    case String => Strings(first, [])
    case Namelist => Nothing
  }

  predicate AnyMissing(codes: seq<int>) {
    exists i :: 0 <= i < |codes| && codes[i] != NORMAL
  }

  /** The value frequency of a raw object; only dates have one. */
  function ValueFrequency(raw: RawObject): Result<Frequency, ValueError> {
    if raw.dateFrequency.None? then Ok(Unit)
    else match TseconFrequency(raw.dateFrequency.value)
      case Some(f) => Ok(f)
      case None => Err(UnsupportedFrequency)
  }

  function ScalarFromFame(sess: Session, raw: RawObject, f: Frequency, missing: MissingPolicy, text: TextPolicy):
    Result<Value, ValueError>
    requires raw.RawScalar?
  {
    var d := raw.value;
    var code := Code(raw.kind, d, sess.sentinels.Of(raw.kind));
    if raw.kind.Namelist? then
      match (if d.Chars? then NameLists.Members(d.text) else None)
      case Some(members) => Ok(Names(members))
      case None => Err(Invalid)
    else if code != NORMAL then
      if missing.Strict? || raw.kind.Boolean? then Err(MissingValue)
      else if raw.kind.Precision? then Ok(Double(DOUBLE_NAN))
      else if raw.kind.Numeric? then Ok(Single(SINGLE_NAN))
      else Ok(Nothing)
    else if raw.kind.String? then
      if d.Chars? then var w :- DecodeValue(sess, d.text, text); Ok(Phrase(w)) else Err(Invalid)
    else if !d.Word? then Err(Invalid)
    else if raw.kind.Precision? then Ok(Double(d.bits))
    else if raw.kind.Numeric? then Ok(Single(d.bits))
    else if raw.kind.Boolean? then Ok(Bool(d.bits != 0))
    else match IndexToMit(sess.native, f, d.bits)
      case Ok(m) => Ok(Instant(m))
      case Err(e) => Err(Calendar(e))
  }

  function Observations(sess: Session, raw: RawObject, first: Moment, f: Frequency, text: TextPolicy):
    Result<Value, ValueError>
    requires raw.RawSeries?
  {
    var codes := Codes(raw.kind, raw.values, sess.sentinels.Of(raw.kind));
    match raw.kind
    case Precision => Ok(Series(first, Doubles(Blanked(Precision, raw.values, codes))))
    case Numeric => Ok(Series(first, Singles(Blanked(Numeric, raw.values, codes))))
    case Boolean => Ok(Series(first, Bools(Flags(raw.values))))
    case Date => var moments :- ReadMoments(sess, f, raw.values, codes); Ok(Dates(first, moments, f))
    case String => var texts :- ReadTexts(sess, text, raw.values, codes); Ok(Strings(first, texts))
    case Namelist => Err(Invalid)
  }

  function SeriesFromFame(sess: Session, raw: RawObject, f: Frequency, missing: MissingPolicy, empty: EmptyPolicy,
                          emptyFirst: Option<Moment>, text: TextPolicy): Result<Value, ValueError>
    requires raw.RawSeries?
  {
    match TseconFrequency(raw.frequency)
    case None => Err(UnsupportedFrequency)
    case Some(frequency) =>
      if raw.values == [] then
        if emptyFirst.None? then Err(EmptySeries)
        else if emptyFirst.value.frequency != frequency then Err(Invalid)
        else Ok(Empty(raw.kind, emptyFirst.value, f))
      else
        var codes := Codes(raw.kind, raw.values, sess.sentinels.Of(raw.kind));
        match IndexToMit(sess.native, frequency, raw.firstIndex)
        case Err(e) => Err(Calendar(e))
        case Ok(first) =>
          if empty.Reference? && !raw.kind.String? && |raw.values| == 1 && codes[0] != NORMAL then
            Ok(Empty(raw.kind, first, f))
          else if AnyMissing(codes) && (missing.Strict? || raw.kind.Boolean?) then Err(MissingValue)
          else Observations(sess, raw, first, f, text)
  }

  function FromFame(sess: Session, raw: RawObject, missing: MissingPolicy, empty: EmptyPolicy,
                    emptyFirst: Option<Moment>, text: TextPolicy): Result<Value, ValueError>
  {
    if raw.RawSeries? && TseconFrequency(raw.frequency).None? then Err(UnsupportedFrequency)
    else
      var f :- ValueFrequency(raw);
      if raw.RawScalar? then ScalarFromFame(sess, raw, f, missing, text)
      else SeriesFromFame(sess, raw, f, missing, empty, emptyFirst, text)
  }

  // -- the loops that fill buffers in place ------------------------------------------------------

  /** NaN observations of an owned buffer are overwritten by the NC sentinel. */
  method MarkInPlace(kind: Kind, data: array<Datum>, nc: Datum)
    modifies data
    ensures data[..] == Marked(kind, old(data[..]), nc)
  {
    for i := 0 to data.Length
      invariant forall j :: 0 <= j < i ==>
                  data[j] == if MissingDatum(kind, old(data[j])) then nc else old(data[j])
      invariant forall j :: i <= j < data.Length ==> data[j] == old(data[j])
    {
      if MissingDatum(kind, data[i]) {
        data[i] := nc;
      }
    }
  }

  /** Floating buffers are marked in place, date buffers filled index by index. */
  method ConvertInSteps(sess: Session, p: Prepared, empty: EmptyPolicy) returns (r: Result<RawObject, ValueError>)
    requires sess.sentinels.WellTyped()
    ensures r == Convert(sess, p, empty)
  {
    hide FirstIndex, MakeSeries, FameCode, EmptyCarrier, DateIndices, MissingDatum;
    if p.Many? && p.data != [] {
      var index := FirstIndex(sess, p.first, |p.data|);
      if index.Err? {
        return Err(index.error);
      }
      var data := new Datum[|p.data|](i requires 0 <= i < |p.data| => p.data[i]);
      assert data[..] == p.data;
      MarkInPlace(p.kind, data, sess.sentinels.Of(p.kind).nc);
      r := MakeSeries(p.kind, FameCode(p.first.frequency), index.value, data[..], None);
    } else if p.ManyDates? && p.items != [] {
      var index := FirstIndex(sess, p.first, |p.items|);
      if index.Err? {
        return Err(index.error);
      }
      var indices := IndexDates(sess, p.items);
      if indices.Err? {
        return Err(indices.error);
      }
      r := MakeSeries(Date, FameCode(p.first.frequency), index.value, indices.value[..],
          Some(FameCode(p.valueFrequency)));
    } else {
      r := Convert(sess, p, empty);
    }
  }

  method ToFameInSteps(sess: Session, v: Value, empty: EmptyPolicy,
      text: TextPolicy) returns (r: Result<RawObject, ValueError>)
    requires sess.sentinels.WellTyped()
    ensures r == ToFame(sess, v, empty, text)
  {
    hide Prepare, Convert;
    var prepared := Prepare(sess, v, text);
    if prepared.Err? {
      return Err(prepared.error);
    }
    r := ConvertInSteps(sess, prepared.value, empty);
  }

  method IndexDates(sess: Session, items: seq<Option<Moment>>) returns (r: Result<array<Datum>, ValueError>)
    requires sess.sentinels.WellTyped()
    ensures r.Err? ==> DateIndices(sess, items) == Err(r.error)
    ensures r.Ok? ==> fresh(r.value) && DateIndices(sess, items) == Ok(r.value[..])
  {
    var indices := new Datum[|items|](_ => Word(0));
    for i := 0 to |items|
      invariant DateIndices(sess, items[..i]) == Ok(indices[..i])
    {
      assert items[..i + 1][..i] == items[..i];
      var index := DateIndex(sess, items[i]);
      if index.Err? {
        IndicesFail(sess, items, i + 1);
        return Err(index.error);
      }
      indices[i] := Word(index.value);
      assert indices[..i + 1] == indices[..i] + [Word(index.value)];
    }
    assert items[..|items|] == items && indices[..|items|] == indices[..];
    r := Ok(indices);
  }

  lemma {:induction false} IndicesFail(sess: Session, items: seq<Option<Moment>>, n: nat)
    requires sess.sentinels.WellTyped() && n <= |items| && DateIndices(sess, items[..n]).Err?
    ensures DateIndices(sess, items) == DateIndices(sess, items[..n])
    decreases |items|
  {
    if n < |items| {
      assert items[..|items| - 1][..n] == items[..n];
      IndicesFail(sess, items[..|items| - 1], n);
    } else {
      assert items[..n] == items;
    }
  }

  method MomentsOf(sess: Session, f: Frequency, data: seq<Datum>, codes: seq<int>)
    returns (r: Result<seq<Option<Moment>>, ValueError>)
    requires |codes| == |data|
    ensures r == ReadMoments(sess, f, data, codes)
  {
    hide ReadMoment;
    var moments: seq<Option<Moment>> := [];
    for i := 0 to |data|
      invariant ReadMoments(sess, f, data[..i], codes[..i]) == Ok(moments)
    {
      assert data[..i + 1][..i] == data[..i] && codes[..i + 1][..i] == codes[..i];
      var moment := ReadMoment(sess, f, data[i], codes[i]);
      if moment.Err? {
        MomentsFail(sess, f, data, codes, i + 1);
        return Err(moment.error);
      }
      moments := moments + [moment.value];
    }
    assert data[..|data|] == data && codes[..|data|] == codes;
    r := Ok(moments);
  }

  lemma {:induction false} MomentsFail(sess: Session, f: Frequency, data: seq<Datum>, codes: seq<int>, n: nat)
    requires |codes| == |data| && n <= |data| && ReadMoments(sess, f, data[..n], codes[..n]).Err?
    ensures ReadMoments(sess, f, data, codes) == ReadMoments(sess, f, data[..n], codes[..n])
    decreases |data|
  {
    if n < |data| {
      var m := |data| - 1;
      assert data[..m][..n] == data[..n] && codes[..m][..n] == codes[..n];
      MomentsFail(sess, f, data[..m], codes[..m], n);
    } else {
      assert data[..n] == data && codes[..n] == codes;
    }
  }

  method TextsOf(sess: Session, p: TextPolicy, data: seq<Datum>, codes: seq<int>)
    returns (r: Result<seq<Option<Words>>, ValueError>)
    requires |codes| == |data|
    ensures r == ReadTexts(sess, p, data, codes)
  {
    hide ReadText;
    var texts: seq<Option<Words>> := [];
    for i := 0 to |data|
      invariant ReadTexts(sess, p, data[..i], codes[..i]) == Ok(texts)
    {
      assert data[..i + 1][..i] == data[..i] && codes[..i + 1][..i] == codes[..i];
      var item := ReadText(sess, p, data[i], codes[i]);
      if item.Err? {
        TextsFail(sess, p, data, codes, i + 1);
        return Err(item.error);
      }
      texts := texts + [item.value];
    }
    assert data[..|data|] == data && codes[..|data|] == codes;
    r := Ok(texts);
  }

  lemma {:induction false} TextsFail(sess: Session, p: TextPolicy, data: seq<Datum>, codes: seq<int>, n: nat)
    requires |codes| == |data| && n <= |data| && ReadTexts(sess, p, data[..n], codes[..n]).Err?
    ensures ReadTexts(sess, p, data, codes) == ReadTexts(sess, p, data[..n], codes[..n])
    decreases |data|
  {
    if n < |data| {
      var m := |data| - 1;
      assert data[..m][..n] == data[..n] && codes[..m][..n] == codes[..n];
      TextsFail(sess, p, data[..m], codes[..m], n);
    } else {
      assert data[..n] == data && codes[..n] == codes;
    }
  }

  /** Missing observations of a floating buffer are overwritten by NaN. */
  method BlankInPlace(kind: Kind, data: array<int>, codes: seq<int>)
    requires |codes| == data.Length
    modifies data
    ensures forall i :: 0 <= i < data.Length ==>
              data[i] == if codes[i] != NORMAL then CanonicalNaN(kind) else old(data[i])
  {
    for i := 0 to data.Length
      invariant forall j :: 0 <= j < i ==>
                  data[j] == if codes[j] != NORMAL then CanonicalNaN(kind) else old(data[j])
      invariant forall j :: i <= j < data.Length ==> data[j] == old(data[j])
    {
      if codes[i] != NORMAL {
        data[i] := CanonicalNaN(kind);
      }
    }
  }

  /** The series branch of from_fame, classified, blanked and collected step by step. */
  method ObservationsOf(sess: Session, raw: RawObject, first: Moment, f: Frequency, text: TextPolicy)
    returns (r: Result<Value, ValueError>)
    requires raw.RawSeries?
    ensures r == Observations(sess, raw, first, f, text)
  {
    var codes := ClassifyBySentinel(raw.kind, raw.values, sess.sentinels.Of(raw.kind));
    match raw.kind
    case Precision =>
      var data := Owned(raw.values);
      BlankInPlace(Precision, data, codes[..]);
      assert data[..] == Blanked(Precision, raw.values, codes[..]);
      r := Ok(Series(first, Doubles(data[..])));
    case Numeric =>
      var data := Owned(raw.values);
      BlankInPlace(Numeric, data, codes[..]);
      assert data[..] == Blanked(Numeric, raw.values, codes[..]);
      r := Ok(Series(first, Singles(data[..])));
    case Boolean => r := Ok(Series(first, Bools(Flags(raw.values))));
    case Date =>
      var moments := MomentsOf(sess, f, raw.values, codes[..]);
      r := if moments.Ok? then Ok(Dates(first, moments.value, f)) else Err(moments.error);
    case String =>
      var texts := TextsOf(sess, text, raw.values, codes[..]);
      r := if texts.Ok? then Ok(Strings(first, texts.value)) else Err(texts.error);
    case Namelist => r := Err(Invalid);
  }

  method Owned(values: seq<Datum>) returns (data: array<int>)
    ensures fresh(data) && data.Length == |values|
    ensures forall i :: 0 <= i < |values| ==> data[i] == if values[i].Word? then values[i].bits else 0
  {
    data := new int[|values|](i requires 0 <= i < |values| => if values[i].Word? then values[i].bits else 0);
  }
}
