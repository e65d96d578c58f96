/** What a written value reads back as: the normal form, and what the empty policy identifies. */
module ValueTrips {
  import opened Wrappers
  import opened Bytes
  import opened Frequencies
  import opened Carriers
  import opened Values
  import DoubleBits
  import ExactNumbers
  import NameLists

  // -- the documented normal form, independent of sentinels and indices ---------------------------

  predicate IsSeries(v: Value) {
    v.Series? || v.Dates? || v.Strings? || v.Vector?
  }

  function KindOf(v: Value): Kind
    requires IsSeries(v)
  {
    match v
    case Series(_, data) =>
      if data.Singles? then Numeric else if data.Bools? then Boolean else Precision
    case Dates(_, _, _) => Date
    case _ => String
  }

  function FirstOf(v: Value): Moment
    requires IsSeries(v)
  {
    match v
    case Series(first, _) => first
    case Dates(first, _, _) => first
    case Strings(first, _) => first
    case Vector(_) => Moment(Unit, 1)
  }

  function Count(v: Value): nat
    requires IsSeries(v)
  {
    match v
    case Series(_, data) => Length(data)
    case Dates(_, items, _) => |items|
    case Strings(_, texts) => |texts|
    case Vector(parts) => |parts|
  }

  /** A missing observation of a Python series is a NaN or a None. */
  predicate MissingAt(v: Value, i: nat)
    requires IsSeries(v) && i < Count(v)
  {
    match v
    case Series(_, data) =>
      (data.Doubles? && IsNaN(Precision, data.bits[i])) || (data.Singles? && IsNaN(Numeric, data.bits[i]))
    case Dates(_, items, _) => items[i].None?
    case Strings(_, texts) => texts[i].None?
    case Vector(_) => false
  }

  predicate SomeMissing(v: Value)
    requires IsSeries(v)
  {
    exists i: nat :: i < Count(v) && MissingAt(v, i)
  }

  function NormalBits(kind: Kind, bits: seq<int>): (r: seq<int>)
    ensures |r| == |bits|
    ensures forall i :: 0 <= i < |r| ==> r[i] == if IsNaN(kind, bits[i]) then CanonicalNaN(kind) else bits[i]
  {
    seq(|bits|, i requires 0 <= i < |bits| => if IsNaN(kind, bits[i]) then CanonicalNaN(kind) else bits[i])
  }

  function NormalWords(sess: Session, w: Words, p: TextPolicy): Result<Words, ValueError> {
    match w
    case Str(s) => if p.AsBytes? then Ok(Raw(EncodeAscii(s).GetOr([]))) else Ok(w)
    case Raw(t) => DecodeValue(sess, t, p)
  }

  function NormalText(sess: Session, w: Option<Words>, p: TextPolicy): Result<Option<Words>, ValueError> {
    if w.None? then Ok(None)
    else var n :- NormalWords(sess, w.value, p); Ok(Some(n))
  }

  function NormalTexts(sess: Session, texts: seq<Option<Words>>,
      p: TextPolicy): (r: Result<seq<Option<Words>>, ValueError>)
    ensures r.Ok? ==> |r.value| == |texts|
    ensures r.Ok? ==> forall i :: 0 <= i < |texts| ==> NormalText(sess, texts[i], p) == Ok(r.value[i])
  {
    if texts == [] then Ok([])
    else
      var n := |texts| - 1;
      var rest :- NormalTexts(sess, texts[..n], p);
      var last :- NormalText(sess, texts[n], p);
      Ok(rest + [last])
  }

  function NormalScalar(sess: Session, v: Value, missing: MissingPolicy, p: TextPolicy): Result<Value, ValueError> {
    match v
    case Single(bits) =>
      if !IsNaN(Numeric, bits) then Ok(v) else if missing.Strict? then Err(MissingValue) else Ok(Single(SINGLE_NAN))
    case Double(bits) =>
      if !IsNaN(Precision, bits) then Ok(v) else if missing.Strict? then Err(MissingValue) else Ok(Double(DOUBLE_NAN))
    case Integer(n) => Ok(Double(DoubleBits.Encode(n)))
    case PlainText(s) => var w :- NormalWords(sess, Str(s), p); Ok(Phrase(w))
    case Names(members) => Ok(Names(NameLists.UpperAll(members)))
    case Phrase(w) =>
      if w.Str? && LooksLikeNamelist(w.s) then
        match ParseNames(w.s)
        case Some(members) => Ok(Names(NameLists.UpperAll(members)))
        case None => Err(Invalid)
      else var n :- NormalWords(sess, w, p); Ok(Phrase(n))
    case _ => Ok(v)
  }

  function NormalSeries(sess: Session, v: Value, p: TextPolicy): Result<Value, ValueError>
    requires IsSeries(v)
  {
    match v
    case Series(first, data) =>
      (match data
       case Doubles(bits) => Ok(Series(first, Doubles(NormalBits(Precision, bits))))
       case Singles(bits) => Ok(Series(first, Singles(NormalBits(Numeric, bits))))
       case Integers(ints) => Ok(Series(first, Doubles(AsDoubles(ints))))
       case _ => Ok(v))
    case Dates(_, _, _) => Ok(v)
    case Strings(first, texts) => var ts :- NormalTexts(sess, texts, p); Ok(Strings(first, ts))
    case Vector(parts) => var ts :- NormalTexts(sess, Present(parts), p); Ok(Strings(Moment(Unit, 1), ts))
  }

  function ValueFrequencyOf(v: Value): Frequency {
    if v.Dates? then v.valueFrequency else Unit
  }

  /** The reference policy reads a single missing observation, strings excepted, as an empty series. */
  predicate ReadAsEmpty(v: Value, empty: EmptyPolicy)
    requires IsSeries(v) && Count(v) > 0
  {
    empty.Reference? && !KindOf(v).String? && Count(v) == 1 && MissingAt(v, 0)
  }

  function Normal(sess: Session, v: Value, missing: MissingPolicy, empty: EmptyPolicy, emptyFirst: Option<Moment>,
                  p: TextPolicy): Result<Value, ValueError>
  {
    if !IsSeries(v) then NormalScalar(sess, v, missing, p)
    else
      var kind, f := KindOf(v), ValueFrequencyOf(v);
      if Count(v) == 0 then
        if empty.Reference? && !kind.String? then Ok(Empty(kind, FirstOf(v), f))
        else if emptyFirst.None? then Err(EmptySeries)
        else if emptyFirst.value.frequency != FirstOf(v).frequency then Err(Invalid)
        else Ok(Empty(kind, emptyFirst.value, f))
      else if ReadAsEmpty(v, empty) then Ok(Empty(kind, FirstOf(v), f))
      else if missing.Strict? && SomeMissing(v) then Err(MissingValue)
      else NormalSeries(sess, v, p)
  }

  // -- no normal observation is encoded as a sentinel ----------------------------------------------

  predicate CleanDate(sess: Session, m: Moment)
    requires sess.sentinels.WellTyped()
  {
    var index := DateIndex(sess, Some(m));
    index.Ok? ==> !sess.sentinels.index.Has(Word(index.value))
  }

  predicate Clean(sess: Session, p: Prepared)
    requires sess.sentinels.WellTyped()
  {
    match p
    case One(kind, d) => kind.Namelist? || MissingDatum(kind, d) || !sess.sentinels.Of(kind).Has(d)
    case OneDate(m) => CleanDate(sess, m)
    case Many(kind, _, data) =>
      forall i :: 0 <= i < |data| ==> MissingDatum(kind, data[i]) || !sess.sentinels.Of(kind).Has(data[i])
    case ManyDates(_, items, _) => forall i :: 0 <= i < |items| && items[i].Some? ==> CleanDate(sess, items[i].value)
    case ManyStrings(_, texts) =>
      forall i :: 0 <= i < |texts| && texts[i].Some? ==> !sess.sentinels.text.Has(Chars(texts[i].value))
  }

  // -- pieces of the round trip ---------------------------------------------------------------------

  lemma CodesInvert(f: Frequency)
    requires f.Valid()
    ensures TseconFrequency(FameCode(f)) == Some(f)
  {
  }

  lemma FirstReturns(sess: Session, first: Moment, count: nat, index: int)
    requires sess.Ready() && first.frequency.Valid()
    requires FirstIndex(sess, first, count) == Ok(index) && FitsInt64(index)
    ensures IndexToMit(sess.native, first.frequency, index) == Ok(first)
  {
    hide MitToIndex, IndexToMit;
    IndexRoundTrip(sess.native, first, index);
  }

  lemma DateReturns(sess: Session, m: Moment)
    requires sess.Ready() && m.frequency.Valid() && CleanDate(sess, m)
    ensures var index := DateIndex(sess, Some(m));
            index.Ok? ==> FitsInt64(index.value) && IndexToMit(sess.native, m.frequency, index.value) == Ok(m)
                          && Code(Date, Word(index.value), sess.sentinels.index) == NORMAL
  {
    hide MitToIndex, IndexToMit;
    var index := DateIndex(sess, Some(m));
    if index.Ok? {
      IndexRoundTrip(sess.native, m, index.value);
    }
  }

  /** After marking, exactly the NaN observations carry a sentinel, and it is NC. */
  lemma MarkedCodes(kind: Kind, data: seq<Datum>, t: Triplet)
    requires t.Distinct() && !kind.String?
    requires forall i :: 0 <= i < |data| ==> MissingDatum(kind, data[i]) || !t.Has(data[i])
    ensures var codes := Codes(kind, Marked(kind, data, t.nc), t);
            forall i :: 0 <= i < |data| ==> codes[i] == if MissingDatum(kind, data[i]) then NC else NORMAL
  {
    hide IsNaN;
    var marked := Marked(kind, data, t.nc);
    forall i | 0 <= i < |data|
      ensures Code(kind, marked[i], t) == if MissingDatum(kind, data[i]) then NC else NORMAL
    {
      CodeNamesSentinel(kind, marked[i], t);
    }
  }

  lemma FloatsReturn(kind: Kind, bits: seq<int>, t: Triplet)
    requires t.Distinct() && IsFloat(kind)
    requires forall i :: 0 <= i < |bits| ==> IsNaN(kind, bits[i]) || !t.Has(Word(bits[i]))
    ensures var marked := Marked(kind, AsWords(bits), t.nc);
            Blanked(kind, marked, Codes(kind, marked, t)) == NormalBits(kind, bits)
            && (AnyMissing(Codes(kind, marked, t)) <==> exists i :: 0 <= i < |bits| && IsNaN(kind, bits[i]))
            && (bits != [] ==> (Codes(kind, marked, t)[0] != NORMAL <==> IsNaN(kind, bits[0])))
  {
    MarkedCodes(kind, AsWords(bits), t);
    hide IsNaN;
    hide Code;
  }

  lemma FlagsReturn(flags: seq<bool>, t: Triplet)
    requires t.Distinct()
    requires forall i :: 0 <= i < |flags| ==> !t.Has(FlagWord(flags[i]))
    ensures var marked := Marked(Boolean, AsFlags(flags), t.nc);
            Flags(marked) == flags && !AnyMissing(Codes(Boolean, marked, t))
            && (flags != [] ==> Codes(Boolean, marked, t)[0] == NORMAL)
  {
    MarkedCodes(Boolean, AsFlags(flags), t);
    hide IsNaN;
    hide Code;
  }

  lemma IntegersAreNumbers(ints: seq<int>)
    requires AllExact(ints)
    ensures forall i :: 0 <= i < |ints| ==> !IsNaN(Precision, AsDoubles(ints)[i])
    ensures NormalBits(Precision, AsDoubles(ints)) == AsDoubles(ints)
  {
    forall i | 0 <= i < |ints| ensures !IsNaN(Precision, DoubleBits.Encode(ints[i])) {
      IntegerIsNumber(ints[i]);
    }
    hide IsNaN;
  }

  lemma IntegerIsNumber(n: int)
    requires ExactNumbers.ScalarNumber(n).Some?
    ensures !IsNaN(Precision, DoubleBits.Encode(n))
  {
    hide ExactNumbers.ScalarNumber, ExactNumbers.Representable, DoubleBits.Encode;
    ExactNumbers.ScalarAccepted(n);
    DoubleBits.EncodeDenotes(n);
  }

  lemma WordsReturn(sess: Session, w: Words, p: TextPolicy)
    requires sess.Ready() && EncodeValue(sess, w, p).Ok?
    ensures DecodeValue(sess, EncodeValue(sess, w, p).value, p) == NormalWords(sess, w, p)
  {
    AsciiIsStrict();
  }

  lemma TextReturns(sess: Session, word: Option<Words>, encoded: Option<Text>, p: TextPolicy)
    requires sess.Ready() && EncodesTo(sess, word, p, encoded)
    requires encoded.Some? ==> !sess.sentinels.text.Has(Chars(encoded.value))
    ensures var t := sess.sentinels.text;
            var d := TextOrMarker([encoded], t.nc)[0];
            ReadText(sess, p, d, Code(String, d, t)) == NormalText(sess, word, p)
  {
    hide EncodeValue, DecodeValue, NormalWords;
    var t := sess.sentinels.text;
    CodeNamesSentinel(String, TextOrMarker([encoded], t.nc)[0], t);
    if word.Some? { WordsReturn(sess, word.value, p); }
  }

  lemma {:induction false} TextsReturn(sess: Session, texts: seq<Option<Words>>, encoded: seq<Option<Text>>,
      p: TextPolicy)
    requires sess.Ready() && |encoded| == |texts|
    requires forall i :: 0 <= i < |texts| ==> EncodesTo(sess, texts[i], p, encoded[i])
    requires forall i :: 0 <= i < |encoded| && encoded[i].Some? ==> !sess.sentinels.text.Has(Chars(encoded[i].value))
    ensures var t := sess.sentinels.text;
            var data := TextOrMarker(encoded, t.nc);
            ReadTexts(sess, p, data, Codes(String, data, t)) == NormalTexts(sess, texts, p)
    decreases |texts|
  {
    hide EncodesTo, ReadText, NormalText, Code, Triplet.Has, Session.Ready;
    if texts != [] {
      var t := sess.sentinels.text;
      var n := |texts| - 1;
      var data := TextOrMarker(encoded, t.nc);
      TextsReturn(sess, texts[..n], encoded[..n], p);
      assert TextOrMarker(encoded[..n], t.nc) == data[..n];
      assert Codes(String, data, t)[..n] == Codes(String, data[..n], t);
      TextReturns(sess, texts[n], encoded[n], p);
      assert data[n] == TextOrMarker([encoded[n]], t.nc)[0];
    }
  }

  lemma SomeMissingIs(v: Value, codes: seq<int>)
    requires IsSeries(v) && |codes| == Count(v)
    requires forall i: nat :: i < Count(v) ==> (codes[i] != NORMAL <==> MissingAt(v, i))
    ensures SomeMissing(v) <==> AnyMissing(codes)
  {
    hide MissingAt;
    if AnyMissing(codes) {
      var i: nat :| i < |codes| && codes[i] != NORMAL;
      assert MissingAt(v, i);
    }
  }

  lemma TextsMissing(sess: Session, encoded: seq<Option<Text>>)
    requires sess.Ready()
    requires forall i :: 0 <= i < |encoded| && encoded[i].Some? ==> !sess.sentinels.text.Has(Chars(encoded[i].value))
    ensures var t := sess.sentinels.text;
            var codes := Codes(String, TextOrMarker(encoded, t.nc), t);
            forall i :: 0 <= i < |encoded| ==> (codes[i] != NORMAL <==> encoded[i].None?)
  {
    var t := sess.sentinels.text;
    var codes := Codes(String, TextOrMarker(encoded, t.nc), t);
    forall i | 0 <= i < |encoded| ensures codes[i] != NORMAL <==> encoded[i].None? {
      CodeNamesSentinel(String, TextOrMarker(encoded, t.nc)[i], t);
    }
  }

  lemma {:induction false} DatesReturn(sess: Session, items: seq<Option<Moment>>, f: Frequency)
    requires sess.Ready() && f.Valid() && DateIndices(sess, items).Ok?
    requires forall i :: 0 <= i < |items| && items[i].Some? ==>
             items[i].value.frequency == f && CleanDate(sess, items[i].value)
    ensures var data := DateIndices(sess, items).value;
            ReadMoments(sess, f, data, Codes(Date, data, sess.sentinels.index)) == Ok(items)
    decreases |items|
  {
    hide DateIndex, MitToIndex, IndexToMit;
    if items != [] {
      var n := |items| - 1;
      var t := sess.sentinels.index;
      var data := DateIndices(sess, items).value;
      DatesReturn(sess, items[..n], f);
      assert DateIndices(sess, items[..n]).value == data[..n];
      assert Codes(Date, data, t)[..n] == Codes(Date, data[..n], t);
      assert items[..n] + [items[n]] == items;
      OneDateReturns(sess, items[n], f, data[n]);
    }
  }

  lemma OneDateReturns(sess: Session, item: Option<Moment>, f: Frequency, d: Datum)
    requires sess.Ready() && f.Valid() && IndexedAs(sess, item, d)
    requires item.Some? ==> item.value.frequency == f && CleanDate(sess, item.value)
    ensures var code := Code(Date, d, sess.sentinels.index);
            ReadMoment(sess, f, d, code) == Ok(item) && (code != NORMAL <==> item.None?)
  {
    hide MitToIndex, IndexToMit;
    CodeNamesSentinel(Date, d, sess.sentinels.index);
    if item.Some? {
      DateReturns(sess, item.value);
    }
  }

  lemma DatesMissing(sess: Session, items: seq<Option<Moment>>, f: Frequency)
    requires sess.Ready() && f.Valid() && DateIndices(sess, items).Ok?
    requires forall i :: 0 <= i < |items| && items[i].Some? ==>
             items[i].value.frequency == f && CleanDate(sess, items[i].value)
    ensures var codes := Codes(Date, DateIndices(sess, items).value, sess.sentinels.index);
            forall i :: 0 <= i < |items| ==> (codes[i] != NORMAL <==> items[i].None?)
  {
    hide ReadMoment;
    forall i | 0 <= i < |items|
      ensures Code(Date, DateIndices(sess, items).value[i], sess.sentinels.index) != NORMAL <==> items[i].None?
    {
      OneDateReturns(sess, items[i], f, DateIndices(sess, items).value[i]);
    }
  }

  // -- the round trip ------------------------------------------------------------------------------

  /** How a nonempty carrier with a known first date reads back. */
  function Rebuilt(sess: Session, raw: RawObject, first: Moment, f: Frequency, missing: MissingPolicy,
      empty: EmptyPolicy,
                   text: TextPolicy): Result<Value, ValueError>
    requires raw.RawSeries? && raw.values != []
  {
    var codes := Codes(raw.kind, raw.values, sess.sentinels.Of(raw.kind));
    if empty.Reference? && !raw.kind.String? && |raw.values| == 1 && codes[0] != NORMAL then
      Ok(Empty(raw.kind, first, f))
    else if AnyMissing(codes) && (missing.Strict? || raw.kind.Boolean?) then Err(MissingValue)
    else Observations(sess, raw, first, f, text)
  }

  lemma ReadsRebuilt(sess: Session, kind: Kind, first: Moment, index: int, values: seq<Datum>, f: Frequency,
                     missing: MissingPolicy, empty: EmptyPolicy, emptyFirst: Option<Moment>, text: TextPolicy)
    requires sess.Ready() && first.frequency.Valid() && f.Valid() && values != [] && FitsInt64(index)
    requires FirstIndex(sess, first, |values|) == Ok(index) && (!kind.Date? ==> f.Unit?)
    ensures var raw := RawSeries(kind, FameCode(first.frequency), index, values,
                                 if kind.Date? then Some(FameCode(f)) else None);
            FromFame(sess, raw, missing, empty, emptyFirst, text) == Rebuilt(sess, raw, first, f, missing, empty, text)
  {
    CodesInvert(first.frequency);
    CodesInvert(f);
    FirstReturns(sess, first, |values|, index);
    hide MitToIndex, IndexToMit, FameCode, TseconFrequency, Codes, Observations, Empty;
  }

  lemma ReadsStandIn(sess: Session, raw: RawObject, first: Moment, f: Frequency, missing: MissingPolicy,
      emptyFirst: Option<Moment>, text: TextPolicy)
    requires raw.RawSeries? && |raw.values| == 1 && !raw.kind.String?
    requires Codes(raw.kind, raw.values, sess.sentinels.Of(raw.kind))[0] != NORMAL
    requires TseconFrequency(raw.frequency) == Some(first.frequency) && ValueFrequency(raw) == Ok(f)
    requires IndexToMit(sess.native, first.frequency, raw.firstIndex) == Ok(first)
    ensures FromFame(sess, raw, missing, Reference, emptyFirst, text) == Ok(Empty(raw.kind, first, f))
  {
    hide IndexToMit, TseconFrequency, ValueFrequency, Observations, Empty, Codes, Code, AnyMissing, Sentinels.Of,
         ScalarFromFame;
  }

  lemma MarkerCode(kind: Kind, t: Triplet)
    requires t.Distinct()
    ensures Codes(kind, [t.na], t)[0] != NORMAL
  {
    CodeNamesSentinel(kind, t.na, t);
  }

  /** One NA observation at the first date reads back as an empty series under the reference policy. */
  lemma StandInReturns(sess: Session, kind: Kind, first: Moment, index: int, f: Frequency, missing: MissingPolicy,
      emptyFirst: Option<Moment>, text: TextPolicy)
    requires sess.Ready() && first.frequency.Valid() && f.Valid() && !kind.Namelist? && !kind.String?
    requires FirstIndex(sess, first, 0) == Ok(index) && FitsInt64(index) && (!kind.Date? ==> f.Unit?)
    ensures var raw := RawSeries(kind, FameCode(first.frequency), index, [sess.sentinels.Of(kind).na],
                                 if kind.Date? then Some(FameCode(f)) else None);
            FromFame(sess, raw, missing, Reference, emptyFirst, text) == Ok(Empty(kind, first, f))
  {
    hide FromFame, IndexToMit, MitToIndex, FirstIndex, FameCode, TseconFrequency, Empty, Codes, Code;
    CodesInvert(first.frequency);
    CodesInvert(f);
    FirstReturns(sess, first, 0, index);
    MarkerCode(kind, sess.sentinels.Of(kind));
    var raw := RawSeries(kind, FameCode(first.frequency), index, [sess.sentinels.Of(kind).na],
                         if kind.Date? then Some(FameCode(f)) else None);
    ReadsStandIn(sess, raw, first, f, missing, emptyFirst, text);
  }

  /** A carrier without observations reads back with the supplied first date, if it fits. */
  lemma NothingReturns(sess: Session, kind: Kind, frequency: Frequency, index: int, f: Frequency,
      missing: MissingPolicy, empty: EmptyPolicy, emptyFirst: Option<Moment>, text: TextPolicy)
    requires frequency.Valid() && f.Valid() && (!kind.Date? ==> f.Unit?)
    ensures var raw := RawSeries(kind, FameCode(frequency), index, [], if kind.Date? then Some(FameCode(f)) else None);
            FromFame(sess, raw, missing, empty, emptyFirst, text)
            == if emptyFirst.None? then Err(EmptySeries)
               else if emptyFirst.value.frequency != frequency then Err(Invalid)
               else Ok(Empty(kind, emptyFirst.value, f))
  {
    CodesInvert(frequency);
    CodesInvert(f);
    hide FameCode, TseconFrequency, Empty;
  }

  lemma EmptyReturns(sess: Session, kind: Kind, first: Moment, index: int, f: Frequency, raw: RawObject,
                     missing: MissingPolicy, empty: EmptyPolicy, emptyFirst: Option<Moment>, text: TextPolicy)
    requires sess.Ready() && first.frequency.Valid() && f.Valid() && !kind.Namelist?
    requires FirstIndex(sess, first, 0) == Ok(index) && (!kind.Date? ==> f.Unit?)
    requires var dateCode := if kind.Date? then Some(FameCode(f)) else None;
             EmptyCarrier(sess, kind, FameCode(first.frequency), index, dateCode, empty) == Ok(raw)
    ensures FromFame(sess, raw, missing, empty, emptyFirst, text)
         == if empty.Reference? && !kind.String? then Ok(Empty(kind, first, f))
            else if emptyFirst.None? then Err(EmptySeries)
            else if emptyFirst.value.frequency != first.frequency then Err(Invalid)
            else Ok(Empty(kind, emptyFirst.value, f))
  {
    hide FromFame, FirstIndex, FameCode, Empty;
    if empty.Reference? && !kind.String? {
      StandInReturns(sess, kind, first, index, f, missing, emptyFirst, text);
    } else {
      NothingReturns(sess, kind, first.frequency, sess.sentinels.index.nc.bits, f, missing, empty, emptyFirst, text);
    }
  }

  lemma FloatTrip(sess: Session, v: Value, kind: Kind, bits: seq<int>, raw: RawObject,
                  missing: MissingPolicy, empty: EmptyPolicy, emptyFirst: Option<Moment>, text: TextPolicy)
    requires sess.Ready() && WellFormed(v) && v.Series? && IsFloat(kind) && bits != []
    requires KindOf(v) == kind && Count(v) == |bits|
    requires forall i: nat :: i < |bits| ==> (MissingAt(v, i) <==> IsNaN(kind, bits[i]))
    requires NormalSeries(sess, v, text)
          == Ok(Series(v.first,
                       if kind.Precision? then Doubles(NormalBits(kind, bits)) else Singles(NormalBits(kind, bits))))
    requires Convert(sess, Many(kind, v.first, AsWords(bits)), empty) == Ok(raw)
    requires Clean(sess, Many(kind, v.first, AsWords(bits)))
    ensures FromFame(sess, raw, missing, empty, emptyFirst, text) == Normal(sess, v, missing, empty, emptyFirst, text)
  {
    hide IsNaN, Code, NormalBits, MitToIndex, IndexToMit, FameCode, TseconFrequency, FromFame, NormalSeries,
         WellFormed, Codes;
    var t := sess.sentinels.Of(kind);
    var marked := Marked(kind, AsWords(bits), t.nc);
    var index := FirstIndex(sess, v.first, |bits|).value;
    assert v.first.frequency.Valid() by { SeriesIsValid(v); }
    ReadsRebuilt(sess, kind, v.first, index, marked, Unit, missing, empty, emptyFirst, text);
    FloatsReturn(kind, bits, t) by {
      forall i | 0 <= i < |bits| ensures IsNaN(kind, bits[i]) || !t.Has(Word(bits[i])) {
        assert AsWords(bits)[i] == Word(bits[i]);
      }
    }
    assert SomeMissing(v) <==> AnyMissing(Codes(kind, marked, t));
  }

  lemma SeriesIsValid(v: Value)
    requires WellFormed(v) && IsSeries(v)
    ensures FirstOf(v).frequency.Valid()
  {
  }

  lemma FlagTrip(sess: Session, first: Moment, flags: seq<bool>, raw: RawObject,
                 missing: MissingPolicy, empty: EmptyPolicy, emptyFirst: Option<Moment>, text: TextPolicy)
    requires sess.Ready() && first.frequency.Valid() && flags != []
    requires Convert(sess, Many(Boolean, first, AsFlags(flags)), empty) == Ok(raw)
    requires Clean(sess, Many(Boolean, first, AsFlags(flags)))
    ensures FromFame(sess, raw, missing, empty, emptyFirst, text) == Ok(Series(first, Bools(flags)))
  {
    hide MitToIndex, IndexToMit, FameCode, TseconFrequency, FromFame, Code, Codes;
    var t := sess.sentinels.boolean;
    var marked := Marked(Boolean, AsFlags(flags), t.nc);
    var index := FirstIndex(sess, first, |flags|).value;
    ReadsRebuilt(sess, Boolean, first, index, marked, Unit, missing, empty, emptyFirst, text);
    FlagsReturn(flags, t) by {
      forall i | 0 <= i < |flags| ensures !t.Has(FlagWord(flags[i])) {
        assert AsFlags(flags)[i] == FlagWord(flags[i]);
      }
    }
  }

  lemma DateTrip(sess: Session, first: Moment, items: seq<Option<Moment>>, f: Frequency, raw: RawObject,
                 missing: MissingPolicy, empty: EmptyPolicy, emptyFirst: Option<Moment>, text: TextPolicy)
    requires sess.Ready() && WellFormed(Dates(first, items, f)) && items != []
    requires Convert(sess, ManyDates(first, items, f), empty) == Ok(raw) && Clean(sess, ManyDates(first, items, f))
    ensures FromFame(sess, raw, missing, empty, emptyFirst, text)
         == Normal(sess, Dates(first, items, f), missing, empty, emptyFirst, text)
  {
    hide MitToIndex, IndexToMit, FameCode, TseconFrequency, FromFame, Code, Codes, DateIndex, ReadMoments, DateIndices;
    var v := Dates(first, items, f);
    var t := sess.sentinels.index;
    var index := FirstIndex(sess, first, |items|).value;
    var data := DateIndices(sess, items).value;
    ReadsRebuilt(sess, Date, first, index, data, f, missing, empty, emptyFirst, text);
    DatesReturn(sess, items, f);
    DatesMissing(sess, items, f);
    assert MissingAt(v, 0) <==> Codes(Date, data, t)[0] != NORMAL;
    SomeMissingIs(v, Codes(Date, data, t));
  }

  lemma TextTrip(sess: Session, first: Moment, texts: seq<Option<Words>>, encoded: seq<Option<Text>>, raw: RawObject,
                 missing: MissingPolicy, empty: EmptyPolicy, emptyFirst: Option<Moment>, text: TextPolicy)
    requires sess.Ready() && first.frequency.Valid() && texts != []
    requires EncodeAll(sess, texts, text) == Ok(encoded) && Clean(sess, ManyStrings(first, encoded))
    requires Convert(sess, ManyStrings(first, encoded), empty) == Ok(raw)
    ensures FromFame(sess, raw, missing, empty, emptyFirst, text)
         == Normal(sess, Strings(first, texts), missing, empty, emptyFirst, text)
  {
    hide MitToIndex, IndexToMit, FameCode, TseconFrequency, FromFame, Code, Codes, ReadTexts, NormalTexts, EncodeAll;
    var v := Strings(first, texts);
    var t := sess.sentinels.text;
    var index := FirstIndex(sess, first, |texts|).value;
    var data := TextOrMarker(encoded, t.nc);
    ReadsRebuilt(sess, String, first, index, data, Unit, missing, empty, emptyFirst, text);
    TextsReturn(sess, texts, encoded, text);
    TextsMissing(sess, encoded);
    assert forall i :: 0 <= i < |texts| ==>
           (EncodesTo(sess, texts[i], text, encoded[i]) && (texts[i].None? <==> encoded[i].None?));
    SomeMissingIs(v, Codes(String, data, t));
  }

  lemma WordTrip(sess: Session, w: Words, raw: RawObject, missing: MissingPolicy, empty: EmptyPolicy,
                 emptyFirst: Option<Moment>, text: TextPolicy)
    requires sess.Ready() && EncodeValue(sess, w, text).Ok?
    requires !sess.sentinels.text.Has(Chars(EncodeValue(sess, w, text).value))
    ensures var raw := RawScalar(String, Chars(EncodeValue(sess, w, text).value), None);
            FromFame(sess, raw, missing, empty, emptyFirst, text)
            == (match NormalWords(sess, w, text) case Ok(n) => Ok(Phrase(n)) case Err(e) => Err(e))
  {
    hide EncodeValue, DecodeValue, NormalWords;
    WordsReturn(sess, w, text);
    CodeNamesSentinel(String, Chars(EncodeValue(sess, w, text).value), sess.sentinels.text);
  }

  lemma NameTrip(sess: Session, members: seq<Text>, missing: MissingPolicy, empty: EmptyPolicy,
                 emptyFirst: Option<Moment>, text: TextPolicy)
    requires forall m :: m in members ==> NameLists.ValidMember(m)
    ensures FromFame(sess, RawScalar(Namelist, Chars(Upper(NameLists.Print(members))), None), missing, empty,
              emptyFirst, text)
         == Ok(Names(NameLists.UpperAll(members)))
  {
    NameLists.UpperPrintParses(members);
    hide NameLists.Members, NameLists.Print, NameLists.UpperAll, Upper, NameLists.ValidMember;
  }

  lemma ParsedAreValid(s: string)
    requires ParseNames(s).Some?
    ensures forall m :: m in ParseNames(s).value ==> NameLists.ValidMember(m)
  {
    NameLists.ParserIsGrammar(EncodeAscii(s).value, ParseNames(s).value);
    hide NameLists.Members, NameLists.ValidMember;
  }

  lemma NumberTrip(sess: Session, kind: Kind, bits: int, missing: MissingPolicy, empty: EmptyPolicy,
                   emptyFirst: Option<Moment>, text: TextPolicy)
    requires sess.Ready() && IsFloat(kind) && Clean(sess, One(kind, Word(bits)))
    ensures var d := if IsNaN(kind, bits) then sess.sentinels.Of(kind).nc else Word(bits);
            var number := if IsNaN(kind, bits) then CanonicalNaN(kind) else bits;
            FromFame(sess, RawScalar(kind, d, None), missing, empty, emptyFirst, text)
            == (if IsNaN(kind, bits) && missing.Strict? then Err(MissingValue)
                else Ok(if kind.Precision? then Double(number) else Single(number)))
  {
    var d := if IsNaN(kind, bits) then sess.sentinels.Of(kind).nc else Word(bits);
    CodeNamesSentinel(kind, d, sess.sentinels.Of(kind));
    hide IsNaN;
  }

  lemma ScalarTrip(sess: Session, v: Value, raw: RawObject, missing: MissingPolicy, empty: EmptyPolicy,
                   emptyFirst: Option<Moment>, text: TextPolicy)
    requires sess.Ready() && WellFormed(v) && !IsSeries(v)
    requires Prepare(sess, v, text).Ok? && Clean(sess, Prepare(sess, v, text).value)
    requires ToFame(sess, v, empty, text) == Ok(raw)
    ensures FromFame(sess, raw, missing, empty, emptyFirst, text) == NormalScalar(sess, v, missing, text)
  {
    hide MitToIndex, IndexToMit, FromFame, IsNaN, NormalWords, EncodeValue, Codes, ParseNames, NameLists.ValidMember;
    match v
    case Bool(b) => FlagScalar(sess, b, missing, empty, emptyFirst, text);
    case Single(bits) => NumberTrip(sess, Numeric, bits, missing, empty, emptyFirst, text);
    case Double(bits) => NumberTrip(sess, Precision, bits, missing, empty, emptyFirst, text);
    case Integer(n) =>
      IntegerIsNumber(n);
      NumberTrip(sess, Precision, DoubleBits.Encode(n), missing, empty, emptyFirst, text);
    case Instant(m) => InstantTrip(sess, m, missing, empty, emptyFirst, text);
    case PlainText(s) => WordTrip(sess, Str(s), raw, missing, empty, emptyFirst, text);
    case Names(members) => NameTrip(sess, members, missing, empty, emptyFirst, text);
    case Phrase(w) =>
      if w.Str? && LooksLikeNamelist(w.s) {
        ParsedAreValid(w.s);
        NameTrip(sess, ParseNames(w.s).value, missing, empty, emptyFirst, text);
      } else {
        WordTrip(sess, w, raw, missing, empty, emptyFirst, text);
      }
    case _ =>
  }

  lemma FlagScalar(sess: Session, b: bool, missing: MissingPolicy, empty: EmptyPolicy, emptyFirst: Option<Moment>,
      text: TextPolicy)
    requires sess.Ready() && !sess.sentinels.boolean.Has(FlagWord(b))
    ensures FromFame(sess, RawScalar(Boolean, FlagWord(b), None), missing, empty, emptyFirst, text) == Ok(Bool(b))
  {
    CodeNamesSentinel(Boolean, FlagWord(b), sess.sentinels.boolean);
  }

  lemma InstantTrip(sess: Session, m: Moment, missing: MissingPolicy, empty: EmptyPolicy, emptyFirst: Option<Moment>,
      text: TextPolicy)
    requires sess.Ready() && m.frequency.Valid() && CleanDate(sess, m) && DateIndex(sess, Some(m)).Ok?
    ensures var raw := RawScalar(Date, Word(DateIndex(sess, Some(m)).value), Some(FameCode(m.frequency)));
            FromFame(sess, raw, missing, empty, emptyFirst, text) == Ok(Instant(m))
  {
    CodesInvert(m.frequency);
    DateReturns(sess, m);
    hide MitToIndex, IndexToMit, FameCode, TseconFrequency, DateIndex;
  }

  /** Writing and reading back gives the documented normal form, for every accepted value and policy. */
  lemma RoundTrip(sess: Session, v: Value, raw: RawObject, missing: MissingPolicy, empty: EmptyPolicy,
                  emptyFirst: Option<Moment>, text: TextPolicy)
    requires sess.Ready() && WellFormed(v) && ToFame(sess, v, empty, text) == Ok(raw)
    requires Clean(sess, Prepare(sess, v, text).value)
    ensures FromFame(sess, raw, missing, empty, emptyFirst, text) == Normal(sess, v, missing, empty, emptyFirst, text)
  {
    hide MitToIndex, IndexToMit, FromFame, IsNaN, Normal, EncodeValue, EncodeAll, Codes, NameLists.ValidMember,
         NormalBits, NormalTexts;
    if !IsSeries(v) {
      ScalarTrip(sess, v, raw, missing, empty, emptyFirst, text);
      ScalarNormal(sess, v, missing, empty, emptyFirst, text);
    } else if Count(v) == 0 {
      EmptyTrip(sess, v, raw, missing, empty, emptyFirst, text);
    } else if v.Series? {
      BufferTrip(sess, v, raw, missing, empty, emptyFirst, text);
    } else if v.Dates? {
      DateTrip(sess, v.first, v.items, v.valueFrequency, raw, missing, empty, emptyFirst, text);
    } else if v.Strings? {
      var encoded := EncodeAll(sess, v.texts, text).value;
      TextTrip(sess, v.first, v.texts, encoded, raw, missing, empty, emptyFirst, text);
    } else {
      var encoded := EncodeAll(sess, Present(v.parts), text).value;
      TextTrip(sess, Moment(Unit, 1), Present(v.parts), encoded, raw, missing, empty, emptyFirst, text);
      VectorNormal(sess, v.parts, missing, empty, emptyFirst, text);
    }
  }

  lemma ScalarNormal(sess: Session, v: Value, missing: MissingPolicy, empty: EmptyPolicy, emptyFirst: Option<Moment>,
      text: TextPolicy)
    requires !IsSeries(v)
    ensures Normal(sess, v, missing, empty, emptyFirst, text) == NormalScalar(sess, v, missing, text)
  {
  }

  lemma VectorNormal(sess: Session, parts: seq<Words>, missing: MissingPolicy, empty: EmptyPolicy,
      emptyFirst: Option<Moment>, text: TextPolicy)
    ensures Normal(sess, Strings(Moment(Unit, 1), Present(parts)), missing, empty, emptyFirst, text)
         == Normal(sess, Vector(parts), missing, empty, emptyFirst, text)
  {
    hide NormalTexts;
    assert !SomeMissing(Vector(parts)) && !SomeMissing(Strings(Moment(Unit, 1), Present(parts)));
  }

  lemma EmptyTrip(sess: Session, v: Value, raw: RawObject, missing: MissingPolicy, empty: EmptyPolicy,
                  emptyFirst: Option<Moment>, text: TextPolicy)
    requires sess.Ready() && WellFormed(v) && IsSeries(v) && Count(v) == 0
    requires ToFame(sess, v, empty, text) == Ok(raw)
    ensures FromFame(sess, raw, missing, empty, emptyFirst, text) == Normal(sess, v, missing, empty, emptyFirst, text)
  {
    hide MitToIndex, IndexToMit, FromFame, FameCode, Empty, EmptyCarrier, MissingDatum;
    var first, kind, f := FirstOf(v), KindOf(v), ValueFrequencyOf(v);
    var index := FirstIndex(sess, first, 0).value;
    EmptyReturns(sess, kind, first, index, f, raw, missing, empty, emptyFirst, text);
  }

  lemma BufferTrip(sess: Session, v: Value, raw: RawObject, missing: MissingPolicy, empty: EmptyPolicy,
                   emptyFirst: Option<Moment>, text: TextPolicy)
    requires sess.Ready() && WellFormed(v) && v.Series? && Count(v) > 0
    requires ToFame(sess, v, empty, text) == Ok(raw) && Clean(sess, Prepare(sess, v, text).value)
    ensures FromFame(sess, raw, missing, empty, emptyFirst, text) == Normal(sess, v, missing, empty, emptyFirst, text)
  {
    hide MitToIndex, IndexToMit, FromFame, FameCode, Empty, IsNaN, Convert, Clean;
    match v.data
    case Doubles(bits) => FloatTrip(sess, v, Precision, bits, raw, missing, empty, emptyFirst, text);
    case Singles(bits) => FloatTrip(sess, v, Numeric, bits, raw, missing, empty, emptyFirst, text);
    case Bools(flags) => FlagTrip(sess, v.first, flags, raw, missing, empty, emptyFirst, text);
    case Integers(ints) =>
      IntegersAreNumbers(ints);
      FloatTrip(sess, v, Precision, AsDoubles(ints), raw, missing, empty, emptyFirst, text);
    case OtherDtype =>
  }

  // -- what the round trip says -----------------------------------------------------------------------

  predicate IsEmptyValue(v: Value) {
    IsSeries(v) && Count(v) == 0
  }

  /** A series that reads back keeps its kind, first date and length, with its missing observations in
      place; if it is read as an empty series it keeps kind and first date. */
  lemma MissingInPlace(sess: Session, v: Value, raw: RawObject, missing: MissingPolicy, empty: EmptyPolicy,
      emptyFirst: Option<Moment>, text: TextPolicy)
    requires sess.Ready() && WellFormed(v) && ToFame(sess, v, empty, text) == Ok(raw)
    requires Clean(sess, Prepare(sess, v, text).value) && IsSeries(v) && Count(v) > 0
    ensures var back := FromFame(sess, raw, missing, empty, emptyFirst, text);
            back.Ok? ==>
              if ReadAsEmpty(v, empty) then
                IsEmptyValue(back.value) && KindOf(back.value) == KindOf(v) && FirstOf(back.value) == FirstOf(v)
              else SameShape(v, back.value)
  {
    hide FromFame, Clean, WellFormed, Convert;
    RoundTrip(sess, v, raw, missing, empty, emptyFirst, text);
    if v.Series? && v.data.Integers? { AcceptedIntegers(sess, v, text); }
    hide ToFame, Prepare;
    NormalKeepsShape(sess, v, text);
  }

  lemma AcceptedIntegers(sess: Session, v: Value, text: TextPolicy)
    requires Prepare(sess, v, text).Ok? && v.Series? && v.data.Integers?
    ensures AllExact(v.data.ints)
  {
  }

  predicate SameShape(v: Value, w: Value)
    requires IsSeries(v)
  {
    IsSeries(w) && KindOf(w) == KindOf(v) && FirstOf(w) == FirstOf(v) && Count(w) == Count(v)
    && forall i: nat :: i < Count(v) ==> (MissingAt(w, i) <==> MissingAt(v, i))
  }

  lemma CanonicalIsNaN(kind: Kind)
    requires IsFloat(kind)
    ensures IsNaN(kind, CanonicalNaN(kind))
  {
  }

  lemma NormalKeepsShape(sess: Session, v: Value, text: TextPolicy)
    requires IsSeries(v) && (v.Series? && v.data.Integers? ==> AllExact(v.data.ints))
    ensures NormalSeries(sess, v, text).Ok? ==> SameShape(v, NormalSeries(sess, v, text).value)
  {
    CanonicalIsNaN(Precision);
    CanonicalIsNaN(Numeric);
    if v.Series? && v.data.Integers? {
      IntegersAreNumbers(v.data.ints);
    }
    hide IsNaN, NormalWords, AllExact;
  }

  /** The reference empty policy identifies exactly the one-observation missing series (strings
      excepted) with an empty one, under every missing policy; the preserving policy identifies none. */
  lemma OnlyOneMissingIsEmpty(sess: Session, v: Value, raw: RawObject, missing: MissingPolicy, empty: EmptyPolicy,
      emptyFirst: Option<Moment>, text: TextPolicy)
    requires sess.Ready() && WellFormed(v) && ToFame(sess, v, empty, text) == Ok(raw)
    requires Clean(sess, Prepare(sess, v, text).value) && IsSeries(v) && Count(v) > 0
    ensures var back := FromFame(sess, raw, missing, empty, emptyFirst, text);
            (back.Ok? && IsEmptyValue(back.value)) <==> ReadAsEmpty(v, empty)
  {
    hide FromFame, Clean;
    RoundTrip(sess, v, raw, missing, empty, emptyFirst, text);
    hide ToFame, Prepare, WellFormed;
    NormalKeepsCount(sess, v, text);
  }

  lemma NormalKeepsCount(sess: Session, v: Value, text: TextPolicy)
    requires IsSeries(v)
    ensures NormalSeries(sess, v, text).Ok? ==>
            IsSeries(NormalSeries(sess, v, text).value) && Count(NormalSeries(sess, v, text).value) == Count(v)
  {
  }
}
