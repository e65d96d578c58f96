/** Which source objects a migration converts, stated about the raw object alone (migration/_migrate.py). */
module Conversions {
  import opened Wrappers
  import opened Frequencies
  import opened Carriers
  import opened Acceptance
  import opened Migrating
  import Layout
  import NameLists
  import Values
  import ValueTrips

  predicate HasMissing(sess: Values.Session, raw: RawObject)
    requires raw.RawSeries?
  {
    exists i :: 0 <= i < |raw.values| && Marker(sess, raw, raw.values[i])
  }

  /** A value that is not a sentinel decodes: a date reads back, a text is ASCII. */
  predicate Decodes(sess: Values.Session, raw: RawObject, d: Datum) {
    (raw.kind.Date? ==> d.Word? && IndexToMit(sess.native, DatesAt(raw), d.bits).Ok?)
    && (raw.kind.String? ==> d.Chars? && forall i :: 0 <= i < |d.text| ==> d.text[i] < 128)
  }

  /** Missing observations can be kept: as categories, or as NaN. */
  predicate CanBeMissing(kind: Kind, missing: Missing) {
    missing.Mask? || IsFloat(kind)
  }

  // -- a series of observations ------------------------------------------------------------------

  lemma MarkedMeans(sess: Values.Session, raw: RawObject)
    requires raw.RawSeries?
    ensures Layout.AnyMarked(Codes(raw.kind, raw.values, sess.sentinels.Of(raw.kind))) <==> HasMissing(sess, raw)
  {
    hide Code;
    var codes := Codes(raw.kind, raw.values, sess.sentinels.Of(raw.kind));
    forall i | 0 <= i < |raw.values| ensures codes[i] != NORMAL <==> Marker(sess, raw, raw.values[i]) {
      CodeMarks(raw.kind, raw.values[i], sess.sentinels.Of(raw.kind));
    }
    if Layout.AnyMarked(codes) {
      var i :| 0 <= i < |codes| && codes[i] != NORMAL;
      assert Marker(sess, raw, raw.values[i]);
    }
  }

  /** What the bridge is given reads exactly when the normal observations decode; the missing Booleans were
      replaced by False, which must not itself be a sentinel. */
  lemma SourceReads(sess: Values.Session, raw: RawObject)
    requires raw.RawSeries? && raw.values != [] && raw.Constructible()
    ensures Bridged(sess, Source(sess, raw), Values.ToNan).Ok?
       <==> Dated(sess, raw)
            && (forall i :: 0 <= i < |raw.values| && !Marker(sess, raw, raw.values[i])
                            ==> Decodes(sess, raw, raw.values[i]))
            && (raw.kind.Boolean? && HasMissing(sess, raw) ==> !Marker(sess, raw, Word(0)))
  {
    hide IndexToMit, TseconFrequency, Code, Values.FromFame;
    var source := Source(sess, raw);
    SeriesReadsIff(sess, source, Values.ToNan, Values.Preserve, None, Values.Ascii);
    if raw.kind.Boolean? {
      forall i | 0 <= i < |raw.values|
        ensures source.values[i] == if Marker(sess, raw, raw.values[i]) then Word(0) else raw.values[i]
      {
        CodeMarks(Boolean, raw.values[i], sess.sentinels.boolean);
      }
    }
  }

  lemma BridgeValueCarries(sess: Values.Session, raw: RawObject)
    requires raw.RawSeries? && raw.values != [] && raw.Constructible()
    ensures var v := Bridged(sess, Source(sess, raw), Values.ToNan); v.Ok? ==> CarrierOf(v.value).Some?
  {
    hide IndexToMit, TseconFrequency, Code, Values.FromFame;
    var source := Source(sess, raw);
    var v := Values.FromFame(sess, source, Values.ToNan, Values.Preserve, None, Values.Ascii);
    if v.Ok? {
      SeriesShows(sess, source, Values.ToNan, Values.Preserve, None, Values.Ascii);
      assert ShowsDatum(sess, source, source.values[0], v.value, 0, Values.Ascii);
    }
  }

  /** A series of observations converts exactly when its missing observations can be kept, its frequencies are
      supported, its first index is a date and its normal observations decode; it is refused as a loss
      exactly when they cannot be kept. */
  lemma SeriesConvertsIff(sess: Values.Session, raw: RawObject, missing: Missing)
    requires raw.RawSeries? && raw.values != [] && raw.Constructible()
    ensures ConvertSeries(sess, raw, missing).Ok?
       <==> (CanBeMissing(raw.kind, missing) || !HasMissing(sess, raw))
            && Dated(sess, raw)
            && (forall i :: 0 <= i < |raw.values| && !Marker(sess, raw, raw.values[i])
                            ==> Decodes(sess, raw, raw.values[i]))
            && (raw.kind.Boolean? && HasMissing(sess, raw) ==> !Marker(sess, raw, Word(0)))
    ensures ConvertSeries(sess, raw, missing) == Err(Loss)
       <==> !CanBeMissing(raw.kind, missing) && HasMissing(sess, raw)
  {
    MarkedMeans(sess, raw);
    SourceReads(sess, raw);
    BridgeValueCarries(sess, raw);
    hide Source, Dated, HasMissing, Decodes, Codes, Layout.AnyMarked, CarrierOf, Values.FromFame;
  }

  /** An empty series needs supported frequencies and nothing else. */
  lemma EmptyConvertsIff(sess: Values.Session, raw: RawObject, missing: Missing)
    requires raw.RawSeries? && raw.values == []
    ensures ConvertSeries(sess, raw, missing).Ok? <==> Supported(raw)
    ensures ConvertSeries(sess, raw, missing) != Err(Loss)
  {
    hide TseconFrequency;
  }

  // -- a scalar ----------------------------------------------------------------------------------

  /** A namelist converts exactly when its text is a list of members; any other scalar when its frequency is
      supported and it is a missing value that can be kept or a value that decodes. */
  lemma ScalarConvertsIff(sess: Values.Session, raw: RawObject, missing: Missing)
    requires raw.RawScalar? && raw.Constructible()
    ensures ConvertScalar(sess, raw, missing).Ok?
       <==> if raw.kind.Namelist? then NameLists.Members(raw.value.text).Some?
            else Supported(raw)
                 && if Marker(sess, raw, raw.value) then CanBeMissing(raw.kind, missing)
                    else Decodes(sess, raw, raw.value)
    ensures ConvertScalar(sess, raw, missing) == Err(Loss)
       <==> !raw.kind.Namelist? && Supported(raw) && Marker(sess, raw, raw.value) && !CanBeMissing(raw.kind, missing)
  {
    hide IndexToMit, TseconFrequency, Code, NameLists.Members, Values.FromFame;
    CodeMarks(raw.kind, raw.value, sess.sentinels.Of(raw.kind));
    ScalarReadsIff(sess, raw, Values.ToNan, Values.Preserve, None, Values.Ascii);
    ScalarReadsIff(sess, raw, Values.Strict, Values.Preserve, None, Values.Ascii);
  }
}
