/** Which values to_fame and from_fame accept, and what they make of every observation (bridge/_values.py). */
module Acceptance {
  import opened Wrappers
  import opened Bytes
  import opened Frequencies
  import opened Carriers
  import opened Values
  import opened ValueTrips
  import DoubleBits
  import ExactNumbers
  import NameLists

  // -- what to_fame accepts ----------------------------------------------------------------------

  /** What text is stored as: its own bytes, UTF-8, or one byte for every ASCII character. */
  function BytesOf(sess: Session, w: Words, p: TextPolicy): Text {
    match w
    case Raw(t) => t
    case Str(s) =>
      if p.Utf8? then sess.utf8.encode(s).GetOr([])
      else seq(|s|, i requires 0 <= i < |s| => if s[i] as int < 128 then s[i] as Byte else 0)
  }

  /** Bytes without NUL, or text of the codec without NUL. */
  predicate Encodable(sess: Session, w: Words, p: TextPolicy) {
    match w
    case Raw(t) => 0 !in t
    case Str(s) =>
      if p.Utf8? then sess.utf8.encode(s).Some? && 0 !in sess.utf8.encode(s).value
      else forall i :: 0 <= i < |s| ==> 0 < s[i] as int < 128
  }

  lemma EncodableIff(sess: Session, w: Words, p: TextPolicy)
    ensures EncodeValue(sess, w, p).Ok? <==> Encodable(sess, w, p)
    ensures EncodeValue(sess, w, p).Ok? ==> EncodeValue(sess, w, p).value == BytesOf(sess, w, p)
  {
    if w.Str? && !p.Utf8? && IsAscii(w.s) {
      var t := EncodeAscii(w.s).value;
      assert forall i :: 0 <= i < |w.s| ==> t[i] as int == w.s[i] as int;
    }
  }

  /** Text between braces. */
  ghost predicate Braced(s: string) {
    exists inner :: s == "{" + inner + "}"
  }

  lemma BracedIff(s: string)
    ensures LooksLikeNamelist(s) <==> Braced(s)
  {
    if LooksLikeNamelist(s) {
      assert s == "{" + s[1..|s| - 1] + "}";
    }
  }

  predicate Indexed(sess: Session, m: Moment) {
    MitToIndex(sess.native, m).Ok? && FitsInt64(MitToIndex(sess.native, m).value)
  }

  /** A series of a length starts at a date whose index, and that of the last observation, fit 64 bits;
      an empty one stores its date only under the reference policy, and then not for strings. */
  predicate Placeable(sess: Session, first: Moment, count: nat, kind: Kind, empty: EmptyPolicy) {
    var index := MitToIndex(sess.native, first);
    index.Ok? && count <= MAX_OBSERVATIONS
    && (count > 0 ==> FitsInt64(index.value) && index.value + count - 1 < 0x8000_0000_0000_0000)
    && (count == 0 && empty.Reference? && !kind.String? ==> FitsInt64(index.value))
  }

  ghost predicate Writable(sess: Session, v: Value, empty: EmptyPolicy, p: TextPolicy) {
    match v
    case Integer(n) => ExactNumbers.Representable(n)
    case Instant(m) => !m.frequency.Unit? && Indexed(sess, m)
    case PlainText(s) => Encodable(sess, Str(s), p)
    case Phrase(w) =>
      if w.Str? && Braced(w.s) then IsAscii(w.s) && NameLists.Members(EncodeAscii(w.s).value).Some?
      else Encodable(sess, w, p)
    case Series(first, data) =>
      !data.OtherDtype? && Placeable(sess, first, Length(data), KindOf(v), empty)
      && (data.Integers? ==> forall i :: 0 <= i < |data.ints| ==> ExactNumbers.Representable(data.ints[i]))
    case Dates(first, items, _) =>
      Placeable(sess, first, |items|, Date, empty)
      && forall i :: 0 <= i < |items| && items[i].Some? ==> Indexed(sess, items[i].value)
    case Strings(first, texts) =>
      Placeable(sess, first, |texts|, String, empty)
      && forall i :: 0 <= i < |texts| && texts[i].Some? ==> Encodable(sess, texts[i].value, p)
    case Vector(parts) =>
      Placeable(sess, Moment(Unit, 1), |parts|, String, empty)
      && forall i :: 0 <= i < |parts| ==> Encodable(sess, parts[i], p)
    case Nothing => false
    case _ => true
  }

  lemma {:induction false} AllEncodableIff(sess: Session, texts: seq<Option<Words>>, p: TextPolicy)
    ensures EncodeAll(sess, texts, p).Ok?
       <==> forall i :: 0 <= i < |texts| && texts[i].Some? ==> Encodable(sess, texts[i].value, p)
    decreases |texts|
  {
    hide EncodeValue, Encodable, EncodesTo;
    if texts != [] {
      if texts[0].Some? { EncodableIff(sess, texts[0].value, p); }
      AllEncodableIff(sess, texts[1..], p);
      assert forall i :: 0 < i < |texts| ==> texts[i] == texts[1..][i - 1];
    }
  }

  lemma {:induction false} AllIndexedIff(sess: Session, items: seq<Option<Moment>>)
    requires sess.sentinels.WellTyped()
    ensures DateIndices(sess, items).Ok?
       <==> forall i :: 0 <= i < |items| && items[i].Some? ==> Indexed(sess, items[i].value)
    decreases |items|
  {
    hide MitToIndex;
    if items != [] {
      var n := |items| - 1;
      AllIndexedIff(sess, items[..n]);
      assert items == items[..n] + [items[n]];
    }
  }

  lemma ExactIff(ints: seq<int>)
    ensures AllExact(ints) <==> forall i :: 0 <= i < |ints| ==> ExactNumbers.Representable(ints[i])
  {
    forall i | 0 <= i < |ints|
      ensures ExactNumbers.ScalarNumber(ints[i]).Some? <==> ExactNumbers.Representable(ints[i])
    {
      ExactNumbers.ScalarAccepted(ints[i]);
    }
    hide ExactNumbers.Representable, ExactNumbers.ScalarNumber;
  }

  /** Whether a series of some length gets a carrier depends only on where it starts. */
  lemma CarrierIff(sess: Session, first: Moment, data: seq<Datum>, kind: Kind, dates: Option<int>, empty: EmptyPolicy)
    requires sess.sentinels.WellTyped() && |data| <= MAX_OBSERVATIONS
    ensures var index := FirstIndex(sess, first, |data|);
            var code := FameCode(first.frequency);
            (index.Ok? && if data == [] then EmptyCarrier(sess, kind, code, index.value, dates, empty).Ok?
                          else MakeSeries(kind, code, index.value, data, dates).Ok?)
            <==> Placeable(sess, first, |data|, kind, empty)
  {
    hide MitToIndex, FameCode;
  }

  lemma SeriesAccepted(sess: Session, first: Moment, data: Buffer, empty: EmptyPolicy, p: TextPolicy)
    requires sess.sentinels.WellTyped()
    ensures ToFame(sess, Series(first, data), empty, p).Ok? <==> Writable(sess, Series(first, data), empty, p)
  {
    hide MitToIndex, FameCode, ExactNumbers.Representable, ExactNumbers.ScalarNumber, IsNaN, DoubleBits.Encode,
         FirstIndex, MakeSeries, EmptyCarrier, Placeable, AllExact, MissingDatum;
    if data.Integers? { ExactIff(data.ints); }
    var prepared := PrepareSeries(first, data);
    if prepared.Ok? {
      var kind, items := prepared.value.kind, prepared.value.data;
      assert |items| == Length(data) && kind == KindOf(Series(first, data));
      var marked := Marked(kind, items, sess.sentinels.Of(kind).nc);
      CarrierIff(sess, first, marked, kind, None, empty);
    } else {
      hide PrepareSeries;
      PreparedSeriesIff(first, data);
      LengthPlaced(sess, first, Length(data), KindOf(Series(first, data)), empty);
    }
  }

  lemma PreparedSeriesIff(first: Moment, data: Buffer)
    ensures PrepareSeries(first, data).Ok?
       <==> Length(data) <= MAX_OBSERVATIONS && !data.OtherDtype? && (data.Integers? ==> AllExact(data.ints))
  {
    hide AllExact;
  }

  lemma LengthPlaced(sess: Session, first: Moment, count: nat, kind: Kind, empty: EmptyPolicy)
    ensures Placeable(sess, first, count, kind, empty) ==> count <= MAX_OBSERVATIONS
  {
    hide MitToIndex;
  }

  lemma DatesAccepted(sess: Session, first: Moment, items: seq<Option<Moment>>, f: Frequency, empty: EmptyPolicy,
      p: TextPolicy)
    requires sess.sentinels.WellTyped()
    ensures ToFame(sess, Dates(first, items, f), empty, p).Ok? <==> Writable(sess, Dates(first, items, f), empty, p)
  {
    hide FameCode, FirstIndex, MakeSeries, EmptyCarrier, Placeable, Indexed, DateIndices;
    AllIndexedIff(sess, items);
    LengthPlaced(sess, first, |items|, Date, empty);
    if |items| <= MAX_OBSERVATIONS && DateIndices(sess, items).Ok? {
      CarrierIff(sess, first, DateIndices(sess, items).value, Date, Some(FameCode(f)), empty);
    }
    if items == [] { CarrierIff(sess, first, [], Date, Some(FameCode(f)), empty); }
  }

  lemma StringsAccepted(sess: Session, first: Moment, texts: seq<Option<Words>>, empty: EmptyPolicy, p: TextPolicy)
    requires sess.sentinels.WellTyped()
    ensures ToFame(sess, Strings(first, texts), empty, p).Ok? <==> Writable(sess, Strings(first, texts), empty, p)
  {
    hide FameCode, FirstIndex, MakeSeries, EmptyCarrier, Placeable, Encodable, EncodeAll;
    AllEncodableIff(sess, texts, p);
    LengthPlaced(sess, first, |texts|, String, empty);
    if |texts| <= MAX_OBSERVATIONS && EncodeAll(sess, texts, p).Ok? {
      var encoded := EncodeAll(sess, texts, p).value;
      CarrierIff(sess, first, TextOrMarker(encoded, sess.sentinels.text.nc), String, None, empty);
    }
  }

  lemma VectorAccepted(sess: Session, parts: seq<Words>, empty: EmptyPolicy, p: TextPolicy)
    requires sess.sentinels.WellTyped()
    ensures ToFame(sess, Vector(parts), empty, p).Ok? <==> Writable(sess, Vector(parts), empty, p)
  {
    hide Convert, EncodeAll, Encodable, Placeable;
    StringsAccepted(sess, Moment(Unit, 1), Present(parts), empty, p);
    assert forall i :: 0 <= i < |parts| ==> Present(parts)[i] == Some(parts[i]);
  }

  lemma ScalarAccepted(sess: Session, v: Value, empty: EmptyPolicy, p: TextPolicy)
    requires sess.sentinels.WellTyped() && !IsSeries(v)
    ensures ToFame(sess, v, empty, p).Ok? <==> Writable(sess, v, empty, p)
  {
    hide MitToIndex, FameCode, ExactNumbers.Representable, ExactNumbers.ScalarNumber, NameLists.Members, IsNaN,
         DoubleBits.Encode, NameLists.Print, Upper;
    if v.Integer? { ExactNumbers.ScalarAccepted(v.n); }
    if v.Phrase? && v.words.Str? { BracedIff(v.words.s); }
    hide LooksLikeNamelist, Braced;
  }

  /** to_fame accepts exactly the values whose numbers are exact, whose texts encode without NUL, and whose
      dates have indices of 64 bits. */
  lemma ToFameAcceptsIff(sess: Session, v: Value, empty: EmptyPolicy, p: TextPolicy)
    requires sess.sentinels.WellTyped()
    ensures ToFame(sess, v, empty, p).Ok? <==> Writable(sess, v, empty, p)
  {
    hide ToFame, Writable;
    match v
    case Series(first, data) => SeriesAccepted(sess, first, data, empty, p);
    case Dates(first, items, f) => DatesAccepted(sess, first, items, f, empty, p);
    case Strings(first, texts) => StringsAccepted(sess, first, texts, empty, p);
    case Vector(parts) => VectorAccepted(sess, parts, empty, p);
    case _ => ScalarAccepted(sess, v, empty, p);
  }

  // -- what to_fame stores -----------------------------------------------------------------------

  /** The native encoding of one observation that is not missing. */
  function DatumAt(sess: Session, v: Value, i: nat, p: TextPolicy): Datum
    requires IsSeries(v) && i < Count(v) && !MissingAt(v, i)
  {
    match v
    case Series(_, data) =>
      (match data
       case Doubles(bits) => Word(bits[i])
       case Singles(bits) => Word(bits[i])
       case Bools(flags) => Word(if flags[i] then 1 else 0)
       case Integers(ints) => Word(DoubleBits.Encode(ints[i]))
       case OtherDtype => Word(0))
    case Dates(_, items, _) =>
      (match MitToIndex(sess.native, items[i].value) case Ok(index) => Word(index) case Err(_) => Word(0))
    case Strings(_, texts) => Chars(BytesOf(sess, texts[i].value, p))
    case Vector(parts) => Chars(BytesOf(sess, parts[i], p))
  }

  function DateCode(v: Value): Option<int> {
    if v.Dates? then Some(FameCode(v.valueFrequency)) else None
  }

  predicate StoredSeries(sess: Session, v: Value, p: TextPolicy, raw: RawObject)
    requires IsSeries(v)
  {
    raw.RawSeries? && raw.kind == KindOf(v) && raw.frequency == FameCode(FirstOf(v).frequency)
    && MitToIndex(sess.native, FirstOf(v)) == Ok(raw.firstIndex) && raw.dateFrequency == DateCode(v)
    && |raw.values| == Count(v)
    && forall i: nat :: i < Count(v) ==>
         raw.values[i] == if MissingAt(v, i) then sess.sentinels.Of(KindOf(v)).nc else DatumAt(sess, v, i, p)
  }

  lemma BufferStored(sess: Session, v: Value, empty: EmptyPolicy, p: TextPolicy, raw: RawObject)
    requires sess.sentinels.WellTyped() && v.Series? && Count(v) > 0 && ToFame(sess, v, empty, p) == Ok(raw)
    ensures StoredSeries(sess, v, p, raw)
  {
    hide MitToIndex, FameCode, ExactNumbers.ScalarNumber, IsNaN, DoubleBits.Encode;
    if v.data.Integers? {
      AcceptedIntegers(sess, v, p);
      IntegersAreNumbers(v.data.ints);
    }
  }

  lemma IndexStored(sess: Session, item: Option<Moment>, d: Datum)
    requires sess.sentinels.WellTyped() && IndexedAs(sess, item, d)
    ensures if item.None? then d == sess.sentinels.index.nc
            else MitToIndex(sess.native, item.value).Ok? && d == Word(MitToIndex(sess.native, item.value).value)
  {
    hide MitToIndex;
  }

  lemma DatesStored(sess: Session, v: Value, empty: EmptyPolicy, p: TextPolicy, raw: RawObject)
    requires sess.sentinels.WellTyped() && v.Dates? && Count(v) > 0 && ToFame(sess, v, empty, p) == Ok(raw)
    ensures StoredSeries(sess, v, p, raw)
  {
    hide FameCode, IndexedAs, DateIndices, MitToIndex;
    forall i: nat | i < |v.items|
      ensures raw.values[i] == if MissingAt(v, i) then sess.sentinels.index.nc else DatumAt(sess, v, i, p)
    {
      IndexStored(sess, v.items[i], raw.values[i]);
    }
  }

  lemma WordStored(sess: Session, w: Option<Words>, p: TextPolicy, t: Option<Text>)
    requires EncodesTo(sess, w, p, t)
    ensures (w.None? <==> t.None?) && (w.Some? ==> t.value == BytesOf(sess, w.value, p))
  {
    hide EncodeValue, BytesOf;
    if w.Some? { EncodableIff(sess, w.value, p); }
  }

  lemma TextsStored(sess: Session, v: Value, texts: seq<Option<Words>>, empty: EmptyPolicy, p: TextPolicy,
      raw: RawObject)
    requires sess.sentinels.WellTyped() && texts != []
    requires (v.Strings? && texts == v.texts) || (v.Vector? && texts == Present(v.parts))
    requires ToFame(sess, v, empty, p) == Ok(raw)
    ensures StoredSeries(sess, v, p, raw)
  {
    hide FameCode, EncodesTo, EncodeAll, MitToIndex;
    var encoded := EncodeAll(sess, texts, p).value;
    forall i: nat | i < |texts|
      ensures (texts[i].None? <==> encoded[i].None?)
              && (texts[i].Some? ==> encoded[i].value == BytesOf(sess, texts[i].value, p))
    {
      WordStored(sess, texts[i], p, encoded[i]);
    }
    hide BytesOf;
  }

  /** An accepted series of observations is stored with its kind, its date and length, the NC sentinel at
      exactly the missing positions and the exact native encoding at the others. */
  lemma ToFameStores(sess: Session, v: Value, empty: EmptyPolicy, p: TextPolicy, raw: RawObject)
    requires sess.sentinels.WellTyped() && IsSeries(v) && Count(v) > 0 && ToFame(sess, v, empty, p) == Ok(raw)
    ensures StoredSeries(sess, v, p, raw)
  {
    hide ToFame, StoredSeries;
    match v
    case Series(_, _) => BufferStored(sess, v, empty, p, raw);
    case Dates(_, _, _) => DatesStored(sess, v, empty, p, raw);
    case Strings(_, texts) => TextsStored(sess, v, texts, empty, p, raw);
    case Vector(parts) => TextsStored(sess, v, Present(parts), empty, p, raw);
  }

  /** An empty series is one NA observation at its date under the reference policy, strings excepted, and
      otherwise a series without observations at the NC index. */
  lemma EmptyStored(sess: Session, v: Value, empty: EmptyPolicy, p: TextPolicy, raw: RawObject)
    requires sess.sentinels.WellTyped() && IsSeries(v) && Count(v) == 0 && ToFame(sess, v, empty, p) == Ok(raw)
    ensures raw.RawSeries? && raw.kind == KindOf(v) && raw.frequency == FameCode(FirstOf(v).frequency)
            && raw.dateFrequency == DateCode(v)
    ensures if empty.Reference? && !KindOf(v).String? then
              raw.values == [sess.sentinels.Of(KindOf(v)).na]
              && MitToIndex(sess.native, FirstOf(v)) == Ok(raw.firstIndex)
            else raw.values == [] && raw.firstIndex == sess.sentinels.index.nc.bits
  {
    hide FameCode, MitToIndex;
  }

  /** A scalar is stored as its exact native encoding, a NaN as NC; list text as its members upper-cased. */
  lemma ScalarStored(sess: Session, v: Value, empty: EmptyPolicy, p: TextPolicy, raw: RawObject)
    requires sess.sentinels.WellTyped() && !IsSeries(v) && ToFame(sess, v, empty, p) == Ok(raw)
    ensures raw.RawScalar? && (raw.dateFrequency.Some? <==> v.Instant?)
    ensures v.Bool? ==> raw.kind.Boolean? && raw.value == Word(if v.b then 1 else 0)
    ensures v.Single? ==>
            raw.kind.Numeric? && raw.value == if IsNaN(Numeric, v.bits) then sess.sentinels.numeric.nc else Word(v.bits)
    ensures v.Double? ==>
            raw.kind.Precision?
            && raw.value == if IsNaN(Precision, v.bits) then sess.sentinels.precision.nc else Word(v.bits)
    ensures v.Integer? ==> raw.kind.Precision? && raw.value == Word(DoubleBits.Encode(v.n))
    ensures v.Instant? ==> raw.kind.Date? && raw.value.Word? && MitToIndex(sess.native, v.moment) == Ok(raw.value.bits)
                           && raw.dateFrequency == Some(FameCode(v.moment.frequency))
    ensures v.PlainText? ==> raw.kind.String? && raw.value == Chars(BytesOf(sess, Str(v.s), p))
    ensures v.Names? ==> raw.kind.Namelist? && raw.value == Chars(Upper(NameLists.Print(v.members)))
    ensures v.Phrase? ==>
            if v.words.Str? && Braced(v.words.s) then
              raw.kind.Namelist? && ParseNames(v.words.s).Some?
              && raw.value == Chars(Upper(NameLists.Print(ParseNames(v.words.s).value)))
            else raw.kind.String? && raw.value == Chars(BytesOf(sess, v.words, p))
  {
    hide MitToIndex, FameCode, ExactNumbers.ScalarNumber, IsNaN, DoubleBits.Encode, NameLists.Print, Upper, ParseNames;
    if v.Integer? { IntegerIsNumber(v.n); }
    if v.Phrase? && v.words.Str? { BracedIff(v.words.s); }
    hide LooksLikeNamelist, Braced;
  }

  predicate NotMistaken(sess: Session, v: Value, raw: RawObject)
    requires IsSeries(v) && raw.RawSeries? && |raw.values| == Count(v)
  {
    forall i: nat :: i < Count(v) && !MissingAt(v, i) ==> !sess.sentinels.Of(KindOf(v)).Has(raw.values[i])
  }

  lemma CleanBuffer(sess: Session, v: Value, empty: EmptyPolicy, p: TextPolicy, raw: RawObject)
    requires sess.Ready() && v.Series? && Count(v) > 0 && ToFame(sess, v, empty, p) == Ok(raw)
    requires StoredSeries(sess, v, p, raw)
    ensures Clean(sess, Prepare(sess, v, p).value) <==> NotMistaken(sess, v, raw)
  {
    hide MitToIndex, FameCode, ExactNumbers.ScalarNumber, IsNaN, DoubleBits.Encode;
    if v.data.Integers? {
      AcceptedIntegers(sess, v, p);
      IntegersAreNumbers(v.data.ints);
    }
    var data := Prepare(sess, v, p).value.data;
    var kind := KindOf(v);
    forall i: nat | i < Count(v) ensures MissingDatum(kind, data[i]) <==> MissingAt(v, i)
    {
    }
    assert forall i: nat :: i < Count(v) && !MissingAt(v, i) ==> raw.values[i] == data[i];
    hide StoredSeries, ToFame, Convert, MissingDatum, MissingAt;
  }

  lemma CleanDates(sess: Session, v: Value, empty: EmptyPolicy, p: TextPolicy, raw: RawObject)
    requires sess.Ready() && v.Dates? && Count(v) > 0 && ToFame(sess, v, empty, p) == Ok(raw)
    requires StoredSeries(sess, v, p, raw)
    ensures Clean(sess, Prepare(sess, v, p).value) <==> NotMistaken(sess, v, raw)
  {
    hide MitToIndex, FameCode, Convert, DateIndex;
    ToFameAcceptsIff(sess, v, empty, p);
    forall i: nat | i < |v.items| && v.items[i].Some?
      ensures CleanDate(sess, v.items[i].value) <==> !sess.sentinels.index.Has(raw.values[i])
    {
      assert Indexed(sess, v.items[i].value);
      OneClean(sess, v.items[i].value);
    }
    hide StoredSeries, CleanDate, Indexed;
  }

  lemma OneClean(sess: Session, m: Moment)
    requires sess.sentinels.WellTyped() && Indexed(sess, m)
    ensures CleanDate(sess, m) <==> !sess.sentinels.index.Has(Word(MitToIndex(sess.native, m).value))
  {
    hide MitToIndex;
  }

  lemma CleanTexts(sess: Session, v: Value, texts: seq<Option<Words>>, empty: EmptyPolicy, p: TextPolicy,
      raw: RawObject)
    requires sess.Ready() && texts != []
    requires (v.Strings? && texts == v.texts) || (v.Vector? && texts == Present(v.parts))
    requires ToFame(sess, v, empty, p) == Ok(raw) && StoredSeries(sess, v, p, raw)
    ensures Clean(sess, Prepare(sess, v, p).value) <==> NotMistaken(sess, v, raw)
  {
    hide FameCode, EncodesTo, EncodeAll, MitToIndex, Convert;
    var encoded := EncodeAll(sess, texts, p).value;
    forall i: nat | i < |texts|
      ensures (texts[i].None? <==> encoded[i].None?)
              && (texts[i].Some? ==> encoded[i].value == BytesOf(sess, texts[i].value, p))
    {
      WordStored(sess, texts[i], p, encoded[i]);
    }
    hide BytesOf;
    assert forall i: nat :: i < |texts| ==> (MissingAt(v, i) <==> encoded[i].None?);
    assert forall i: nat :: i < |texts| && !MissingAt(v, i) ==> raw.values[i] == Chars(encoded[i].value);
    hide MissingAt, DatumAt;
  }

  /** Nothing accepted is mistaken for a missing observation exactly when no observation that is not missing
      is stored as a sentinel. */
  lemma CleanIff(sess: Session, v: Value, empty: EmptyPolicy, p: TextPolicy, raw: RawObject)
    requires sess.Ready() && IsSeries(v) && Count(v) > 0 && ToFame(sess, v, empty, p) == Ok(raw)
    ensures raw.RawSeries? && |raw.values| == Count(v)
    ensures Clean(sess, Prepare(sess, v, p).value)
       <==> forall i: nat :: i < Count(v) && !MissingAt(v, i) ==> !sess.sentinels.Of(KindOf(v)).Has(raw.values[i])
  {
    ToFameStores(sess, v, empty, p, raw);
    match v {
      case Series(_, _) => CleanBuffer(sess, v, empty, p, raw);
      case Dates(_, _, _) => CleanDates(sess, v, empty, p, raw);
      case Strings(_, texts) => CleanTexts(sess, v, texts, empty, p, raw);
      case Vector(parts) => CleanTexts(sess, v, Present(parts), empty, p, raw);
    }
    hide Clean, ToFame, MissingAt, KindOf;
  }

  // -- what from_fame reads ----------------------------------------------------------------------

  lemma CodeMarks(kind: Kind, d: Datum, t: Triplet)
    ensures Code(kind, d, t) != NORMAL <==> t.Has(d)
  {
  }

  predicate TextReads(sess: Session, d: Datum, p: TextPolicy) {
    d.Chars?
    && match p
       case AsBytes => true
       case Utf8 => sess.utf8.decode(d.text).Some?
       case Ascii => forall i :: 0 <= i < |d.text| ==> d.text[i] < 128
  }

  /** What stored text reads as: its bytes, its UTF-8 decoding, or one character for every byte. */
  predicate Spells(sess: Session, t: Text, p: TextPolicy, w: Words) {
    match p
    case AsBytes => w == Raw(t)
    case Utf8 => w.Str? && sess.utf8.decode(t) == Some(w.s)
    case Ascii => w.Str? && |w.s| == |t| && forall i :: 0 <= i < |t| ==> w.s[i] as int == t[i] as int
  }

  lemma TextSpells(sess: Session, t: Text, p: TextPolicy)
    ensures DecodeValue(sess, t, p).Ok? <==> TextReads(sess, Chars(t), p)
    ensures DecodeValue(sess, t, p).Ok? ==> Spells(sess, t, p, DecodeValue(sess, t, p).value)
  {
  }

  predicate DateReads(sess: Session, f: Frequency, d: Datum) {
    d.Word? && IndexToMit(sess.native, f, d.bits).Ok?
  }

  /** The frequencies a carrier names are supported ones. */
  predicate Supported(raw: RawObject) {
    (raw.RawSeries? ==> TseconFrequency(raw.frequency).Some?)
    && (raw.dateFrequency.Some? ==> TseconFrequency(raw.dateFrequency.value).Some?)
  }

  /** The frequency the dates of a carrier have. */
  function DatesAt(raw: RawObject): Frequency {
    if raw.dateFrequency.None? then Unit else TseconFrequency(raw.dateFrequency.value).GetOr(Unit)
  }

  predicate DatumReads(sess: Session, raw: RawObject, d: Datum, p: TextPolicy) {
    match raw.kind
    case Date => DateReads(sess, DatesAt(raw), d)
    case String => TextReads(sess, d, p)
    case Namelist => false
    case _ => true
  }

  predicate Marker(sess: Session, raw: RawObject, d: Datum) {
    sess.sentinels.Of(raw.kind).Has(d)
  }

  predicate StandsForEmpty(sess: Session, raw: RawObject, empty: EmptyPolicy)
    requires raw.RawSeries?
  {
    empty.Reference? && !raw.kind.String? && |raw.values| == 1 && Marker(sess, raw, raw.values[0])
  }

  predicate Dated(sess: Session, raw: RawObject)
    requires raw.RawSeries?
  {
    Supported(raw) && IndexToMit(sess.native, TseconFrequency(raw.frequency).value, raw.firstIndex).Ok?
  }

  lemma MomentReadIff(sess: Session, f: Frequency, d: Datum, t: Triplet)
    ensures ReadMoment(sess, f, d, Code(Date, d, t)).Ok? <==> t.Has(d) || DateReads(sess, f, d)
  {
    hide IndexToMit;
  }

  lemma {:induction false} MomentsReadIff(sess: Session, f: Frequency, data: seq<Datum>, t: Triplet)
    ensures ReadMoments(sess, f, data, Codes(Date, data, t)).Ok?
       <==> forall i :: 0 <= i < |data| ==> t.Has(data[i]) || DateReads(sess, f, data[i])
    decreases |data|
  {
    hide ReadMoment, DateReads, Code, Triplet.Has;
    if data != [] {
      var n := |data| - 1;
      MomentsReadIff(sess, f, data[..n], t);
      assert Codes(Date, data, t)[..n] == Codes(Date, data[..n], t);
      MomentReadIff(sess, f, data[n], t);
      assert forall i :: 0 <= i < n ==> data[i] == data[..n][i];
    }
  }

  lemma TextReadIff(sess: Session, p: TextPolicy, d: Datum, t: Triplet)
    ensures ReadText(sess, p, d, Code(String, d, t)).Ok? <==> t.Has(d) || TextReads(sess, d, p)
  {
    hide DecodeValue;
    if d.Chars? { TextSpells(sess, d.text, p); }
  }

  lemma {:induction false} TextsReadIff(sess: Session, p: TextPolicy, data: seq<Datum>, t: Triplet)
    ensures ReadTexts(sess, p, data, Codes(String, data, t)).Ok?
       <==> forall i :: 0 <= i < |data| ==> t.Has(data[i]) || TextReads(sess, data[i], p)
    decreases |data|
  {
    hide ReadText, TextReads, Code, Triplet.Has;
    if data != [] {
      var n := |data| - 1;
      TextsReadIff(sess, p, data[..n], t);
      assert Codes(String, data, t)[..n] == Codes(String, data[..n], t);
      TextReadIff(sess, p, data[n], t);
      assert forall i :: 0 <= i < n ==> data[i] == data[..n][i];
    }
  }

  lemma MarkedIff(kind: Kind, data: seq<Datum>, t: Triplet)
    ensures AnyMissing(Codes(kind, data, t)) <==> exists i :: 0 <= i < |data| && t.Has(data[i])
  {
    hide Code;
    forall i | 0 <= i < |data| ensures Codes(kind, data, t)[i] != NORMAL <==> t.Has(data[i]) {
      CodeMarks(kind, data[i], t);
    }
    if AnyMissing(Codes(kind, data, t)) {
      var i :| 0 <= i < |data| && Codes(kind, data, t)[i] != NORMAL;
      assert t.Has(data[i]);
    }
  }

  lemma ObservedIff(sess: Session, raw: RawObject, first: Moment, p: TextPolicy)
    requires raw.RawSeries? && !raw.kind.Namelist?
    ensures Observations(sess, raw, first, DatesAt(raw), p).Ok?
       <==> forall i :: 0 <= i < |raw.values| && !Marker(sess, raw, raw.values[i])
                        ==> DatumReads(sess, raw, raw.values[i], p)
  {
    hide ReadMoments, ReadTexts, DateReads, TextReads, DatesAt, Code;
    var t := sess.sentinels.Of(raw.kind);
    if raw.kind.Date? {
      MomentsReadIff(sess, DatesAt(raw), raw.values, t);
    } else if raw.kind.String? {
      TextsReadIff(sess, p, raw.values, t);
    }
    hide Codes;
  }

  /** from_fame reads a series of observations exactly when its frequencies are supported, its first index is
      a date, and either it stands for an empty series or its sentinels are allowed and every other
      observation decodes. */
  lemma SeriesReadsIff(sess: Session, raw: RawObject, missing: MissingPolicy, empty: EmptyPolicy,
      emptyFirst: Option<Moment>, p: TextPolicy)
    requires raw.RawSeries? && raw.values != [] && !raw.kind.Namelist?
    ensures FromFame(sess, raw, missing, empty, emptyFirst, p).Ok?
       <==> Dated(sess, raw)
            && (StandsForEmpty(sess, raw, empty)
                || forall i :: 0 <= i < |raw.values| ==>
                     if Marker(sess, raw, raw.values[i]) then missing.ToNan? && !raw.kind.Boolean?
                     else DatumReads(sess, raw, raw.values[i], p))
    ensures FromFame(sess, raw, missing, empty, emptyFirst, p) == Err(MissingValue)
       <==> Dated(sess, raw) && !StandsForEmpty(sess, raw, empty) && (missing.Strict? || raw.kind.Boolean?)
            && exists i :: 0 <= i < |raw.values| && Marker(sess, raw, raw.values[i])
  {
    hide IndexToMit, TseconFrequency, Code, Observations, DatumReads, Codes, Empty;
    MarkedIff(raw.kind, raw.values, sess.sentinels.Of(raw.kind));
    CodeMarks(raw.kind, raw.values[0], sess.sentinels.Of(raw.kind));
    if Dated(sess, raw) {
      var first := IndexToMit(sess.native, TseconFrequency(raw.frequency).value, raw.firstIndex).value;
      ObservedIff(sess, raw, first, p);
      ObservationErrors(sess, raw, first, p);
    }
  }

  lemma ObservationErrors(sess: Session, raw: RawObject, first: Moment, p: TextPolicy)
    requires raw.RawSeries?
    ensures Observations(sess, raw, first, DatesAt(raw), p) != Err(MissingValue)
  {
    var codes := Codes(raw.kind, raw.values, sess.sentinels.Of(raw.kind));
    MomentErrors(sess, DatesAt(raw), raw.values, codes);
    TextErrors(sess, p, raw.values, codes);
    hide ReadMoments, ReadTexts, Codes;
  }

  lemma {:induction false} MomentErrors(sess: Session, f: Frequency, data: seq<Datum>, codes: seq<int>)
    requires |codes| == |data|
    ensures ReadMoments(sess, f, data, codes) != Err(MissingValue)
    decreases |data|
  {
    hide IndexToMit;
    if data != [] { MomentErrors(sess, f, data[..|data| - 1], codes[..|data| - 1]); }
  }

  lemma {:induction false} TextErrors(sess: Session, p: TextPolicy, data: seq<Datum>, codes: seq<int>)
    requires |codes| == |data|
    ensures ReadTexts(sess, p, data, codes) != Err(MissingValue)
    decreases |data|
  {
    if data != [] { TextErrors(sess, p, data[..|data| - 1], codes[..|data| - 1]); }
  }

  /** An empty carrier needs a first date of its own frequency; nothing else can fail. */
  lemma EmptyReadsIff(sess: Session, raw: RawObject, missing: MissingPolicy, empty: EmptyPolicy,
      emptyFirst: Option<Moment>, p: TextPolicy)
    requires raw.RawSeries? && raw.values == []
    ensures FromFame(sess, raw, missing, empty, emptyFirst, p).Ok?
       <==> Supported(raw) && emptyFirst.Some? && TseconFrequency(raw.frequency) == Some(emptyFirst.value.frequency)
    ensures FromFame(sess, raw, missing, empty, emptyFirst, p) == Err(EmptySeries)
       <==> Supported(raw) && emptyFirst.None?
  {
    hide TseconFrequency, Empty;
  }

  /** What one observation of a carrier becomes. */
  ghost predicate ShowsDatum(sess: Session, raw: RawObject, d: Datum, v: Value, i: nat, p: TextPolicy)
    requires IsSeries(v) && i < Count(v)
  {
    match raw.kind
    case Precision =>
      v.Series? && v.data.Doubles?
      && (if Marker(sess, raw, d) then v.data.bits[i] == DOUBLE_NAN else d.Word? ==> v.data.bits[i] == d.bits)
    case Numeric =>
      v.Series? && v.data.Singles?
      && (if Marker(sess, raw, d) then v.data.bits[i] == SINGLE_NAN else d.Word? ==> v.data.bits[i] == d.bits)
    case Boolean => v.Series? && v.data.Bools? && v.data.flags[i] == (d != Word(0))
    case Date =>
      v.Dates?
      && if Marker(sess, raw, d) then v.items[i].None?
         else v.items[i].Some? && d.Word?
              && IndexToMit(sess.native, DatesAt(raw), d.bits) == Ok(v.items[i].value)
    case String =>
      v.Strings?
      && if Marker(sess, raw, d) then v.texts[i].None?
         else v.texts[i].Some? && d.Chars?
              && Spells(sess, d.text, p, v.texts[i].value)
    case Namelist => false
  }

  lemma ObservationsShow(sess: Session, raw: RawObject, first: Moment, p: TextPolicy)
    requires raw.RawSeries? && Observations(sess, raw, first, DatesAt(raw), p).Ok?
    ensures var v := Observations(sess, raw, first, DatesAt(raw), p).value;
            IsSeries(v) && KindOf(v) == raw.kind && FirstOf(v) == first && Count(v) == |raw.values|
            && (v.Dates? ==> v.valueFrequency == DatesAt(raw))
            && forall i: nat :: i < |raw.values| ==> ShowsDatum(sess, raw, raw.values[i], v, i, p)
  {
    hide IndexToMit, Code, ReadMoments, ReadTexts, DatesAt;
    var t := sess.sentinels.Of(raw.kind);
    forall i | 0 <= i < |raw.values| ensures Code(raw.kind, raw.values[i], t) != NORMAL <==> t.Has(raw.values[i]) {
      CodeMarks(raw.kind, raw.values[i], t);
    }
  }

  /** What is read of a series is of its kind, at its date, of its length, and shows every observation: the
      canonical NaN or None at exactly the sentinels, and the exact value everywhere else. */
  lemma SeriesShows(sess: Session, raw: RawObject, missing: MissingPolicy, empty: EmptyPolicy,
      emptyFirst: Option<Moment>, p: TextPolicy)
    requires raw.RawSeries? && raw.values != [] && !raw.kind.Namelist?
    requires FromFame(sess, raw, missing, empty, emptyFirst, p).Ok?
    ensures var v := FromFame(sess, raw, missing, empty, emptyFirst, p).value;
            Dated(sess, raw) && IsSeries(v) && KindOf(v) == raw.kind
            && Ok(FirstOf(v)) == IndexToMit(sess.native, TseconFrequency(raw.frequency).value, raw.firstIndex)
            && (v.Dates? ==> v.valueFrequency == DatesAt(raw))
            && if StandsForEmpty(sess, raw, empty) then Count(v) == 0
               else Count(v) == |raw.values|
                    && forall i: nat :: i < Count(v) ==> ShowsDatum(sess, raw, raw.values[i], v, i, p)
  {
    hide IndexToMit, TseconFrequency, Code, Observations, ShowsDatum, Codes;
    CodeMarks(raw.kind, raw.values[0], sess.sentinels.Of(raw.kind));
    if Dated(sess, raw) && !StandsForEmpty(sess, raw, empty) {
      var first := IndexToMit(sess.native, TseconFrequency(raw.frequency).value, raw.firstIndex).value;
      ObservationsShow(sess, raw, first, p);
    }
  }

  predicate ScalarReads(sess: Session, raw: RawObject, missing: MissingPolicy, p: TextPolicy)
    requires raw.RawScalar?
  {
    if raw.kind.Namelist? then raw.value.Chars? && NameLists.Members(raw.value.text).Some?
    else if Marker(sess, raw, raw.value) then missing.ToNan? && !raw.kind.Boolean?
    else if raw.kind.String? then TextReads(sess, raw.value, p)
    else if raw.kind.Date? then DateReads(sess, DatesAt(raw), raw.value)
    else raw.value.Word?
  }

  lemma ScalarReadsIff(sess: Session, raw: RawObject, missing: MissingPolicy, empty: EmptyPolicy,
      emptyFirst: Option<Moment>, p: TextPolicy)
    requires raw.RawScalar?
    ensures FromFame(sess, raw, missing, empty, emptyFirst, p).Ok?
       <==> Supported(raw) && ScalarReads(sess, raw, missing, p)
    ensures FromFame(sess, raw, missing, empty, emptyFirst, p) == Err(MissingValue)
       <==> Supported(raw) && !raw.kind.Namelist? && Marker(sess, raw, raw.value)
            && (missing.Strict? || raw.kind.Boolean?)
  {
    hide IndexToMit, TseconFrequency, Code, NameLists.Members;
    CodeMarks(raw.kind, raw.value, sess.sentinels.Of(raw.kind));
  }

  /** A scalar that is read is the exact value of its kind, a sentinel the canonical NaN or nothing. */
  lemma ScalarShows(sess: Session, raw: RawObject, missing: MissingPolicy, empty: EmptyPolicy,
      emptyFirst: Option<Moment>, p: TextPolicy)
    requires raw.RawScalar? && FromFame(sess, raw, missing, empty, emptyFirst, p).Ok?
    ensures var v, d := FromFame(sess, raw, missing, empty, emptyFirst, p).value, raw.value;
            if raw.kind.Namelist? then
              d.Chars? && NameLists.Members(d.text).Some? && v == Names(NameLists.Members(d.text).value)
            else if Marker(sess, raw, d) then
              v == (if raw.kind.Precision? then Double(DOUBLE_NAN)
                    else if raw.kind.Numeric? then Single(SINGLE_NAN) else Nothing)
            else
              (raw.kind.Precision? ==> d.Word? && v == Double(d.bits))
              && (raw.kind.Numeric? ==> d.Word? && v == Single(d.bits))
              && (raw.kind.Boolean? ==> d.Word? && v == Bool(d.bits != 0))
              && (raw.kind.Date? ==>
                  d.Word? && v.Instant? && IndexToMit(sess.native, DatesAt(raw), d.bits) == Ok(v.moment))
              && (raw.kind.String? ==> d.Chars? && v.Phrase? && Spells(sess, d.text, p, v.words))
  {
    if raw.value.Chars? { TextSpells(sess, raw.value.text, p); }
    hide IndexToMit, TseconFrequency, Code, NameLists.Members, DecodeValue, Spells;
    CodeMarks(raw.kind, raw.value, sess.sentinels.Of(raw.kind));
  }
}
