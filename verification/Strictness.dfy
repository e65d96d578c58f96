/** Exactly which stored objects the strict reader accepts (migration/_layout.py). */
module Strictness {
  import opened Wrappers
  import opened Frequencies
  import opened Carriers
  import opened DataEcon
  import opened Labels
  import opened Layout
  import opened Reader
  import opened Restoring
  import opened LayoutTrips

  // -- the catalog ---------------------------------------------------------------------------------

  /** The layout attributes of a catalog: version, status, and counts that agree with it. */
  predicate CatalogSound(a: Attributes) {
    {LayoutKey, StatusKey} <= a.Keys <= {LayoutKey, StatusKey, PlannedKey, WrittenKey}
    && a[LayoutKey] == "1" && (a[StatusKey] == "started" || a[StatusKey] == "complete" || a[StatusKey] == "incomplete")
    && (forall k :: k in {PlannedKey, WrittenKey} && k in a ==> AllDigits(a[k]))
    && (a[StatusKey] != "started" ==> PlannedKey in a && WrittenKey in a)
    && (PlannedKey in a && WrittenKey in a ==>
        DigitsValue(a[WrittenKey]) <= DigitsValue(a[PlannedKey])
        && (a[StatusKey] == "complete" ==> DigitsValue(a[WrittenKey]) == DigitsValue(a[PlannedKey])))
  }

  lemma CatalogSoundIff(store: Store, catalog: string)
    ensures CheckLayout(store, catalog).Ok? <==> catalog in store && CatalogSound(store[catalog].attributes)
    ensures CheckLayout(store, catalog).Ok? ==> CheckLayout(store, catalog).value == store[catalog].attributes
  {
    hide AllDigits, DigitsValue;
  }

  // -- scalars and name-lists ------------------------------------------------------------------------

  predicate OfLabel(f: Frequency, text: string) {
    f.Valid() && Label(f) == text
  }

  lemma LabelIff(f: Frequency, text: string)
    ensures LabelFrequency(text) == Some(f) <==> OfLabel(f, text)
  {
    if f.Valid() { LabelNames(f); }
    hide Label, LabelFrequency;
  }

  ghost predicate IsLabel(text: string) {
    exists f :: OfLabel(f, text)
  }

  lemma IsLabelIff(text: string)
    ensures LabelFrequency(text).Some? <==> IsLabel(text)
  {
    hide Label, LabelFrequency;
    forall f ensures LabelFrequency(text) == Some(f) <==> OfLabel(f, text) {
      LabelIff(f, text);
    }
    if LabelFrequency(text).Some? { assert OfLabel(LabelFrequency(text).value, text); }
  }

  /** A normal scalar stores a value of its kind; dates are of the frequency the label names. */
  predicate NormalScalar(kind: Kind, payload: Payload, a: Attributes) {
    match kind
    case Precision => payload.WordScalar? && payload.dtype == Float64
    case Numeric => payload.WordScalar? && payload.dtype == Float32
    case Boolean => payload.WordScalar? && payload.dtype == Int8 && 0 <= payload.word <= 1
    case Date =>
      payload.MomentScalar? && ValueFrequencyKey in a && Label(payload.moment.frequency) == a[ValueFrequencyKey]
    case String => payload.TextScalar?
    case Namelist => false
  }

  /** A missing scalar stores nothing but the placeholder of its kind. */
  predicate MissingScalar(kind: Kind, payload: Payload) {
    match kind
    case Precision => payload.WordScalar? && payload.dtype == Float64 && IsNaN(Precision, payload.word)
    case Numeric => payload.WordScalar? && payload.dtype == Float32 && IsNaN(Numeric, payload.word)
    case Boolean => payload == WordScalar(Int8, 0)
    case Date => payload == WordScalar(Int64, 0) || payload == WordScalar(Int8, 0)
    case String => payload == TextScalar("")
    case Namelist => false
  }

  ghost predicate ScalarSound(kind: Kind, a: Attributes, payload: Payload) {
    a.Keys - {MissingKey} == (if kind.Date? then {KindKey, ValueFrequencyKey} else {KindKey})
    && (kind.Date? ==> IsLabel(a[ValueFrequencyKey]))
    && if MissingKey !in a then NormalScalar(kind, payload, a)
       else (a[MissingKey] == "NC" || a[MissingKey] == "NA" || a[MissingKey] == "ND") && MissingScalar(kind, payload)
  }

  lemma TagIff(a: Attributes)
    ensures Tag(a).Ok?
       <==> (MissingKey in a ==> a[MissingKey] == "NC" || a[MissingKey] == "NA" || a[MissingKey] == "ND")
    ensures Tag(a).Ok? ==> (Tag(a).value == NORMAL <==> MissingKey !in a)
  {
  }

  lemma ScalarSoundIff(name: string, kind: Kind, a: Attributes, payload: Payload)
    requires !kind.Namelist?
    ensures ReadScalar(name, kind, a, payload).Ok? <==> ScalarSound(kind, a, payload)
  {
    TagIff(a);
    if ValueFrequencyKey in a { IsLabelIff(a[ValueFrequencyKey]); }
    hide Tag, Label, LabelFrequency, IsLabel, IsNaN;
  }

  /** An accepted scalar has the category its attribute names, and a value exactly when it names none. */
  lemma ScalarShows(name: string, kind: Kind, a: Attributes, payload: Payload)
    requires !kind.Namelist? && ReadScalar(name, kind, a, payload).Ok?
    ensures var m := ReadScalar(name, kind, a, payload).value;
            m.MigratedScalar? && m.kind == kind && (m.value.Some? <==> MissingKey !in a)
            && m.category == (if MissingKey !in a then 0
                              else if a[MissingKey] == "NC" then 1 else if a[MissingKey] == "NA" then 2 else 3)
            && m.valueLabel == (if kind.Date? then Some(a[ValueFrequencyKey]) else None)
  {
    ScalarSoundIff(name, kind, a, payload);
    hide ScalarItem, ScalarPlaceholder, NormalScalar, MissingScalar, IsLabel;
  }

  predicate NamesSound(a: Attributes, payload: Payload) {
    a.Keys == {KindKey, RepresentationKey} && a[RepresentationKey] == "members"
    && payload.TextArray? && forall i :: 0 <= i < |payload.texts| ==> GoodMember(payload.texts[i])
  }

  lemma NamesSoundIff(name: string, a: Attributes, payload: Payload)
    ensures ReadNames(name, a, payload).Ok? <==> NamesSound(a, payload)
  {
    hide GoodMember;
  }

  // -- masks -----------------------------------------------------------------------------------------

  /** A declared mask starts where the series does, has its length, holds categories and marks a position; an
      undeclared one does not exist. */
  predicate MaskSound(store: Store, path: string, a: Attributes, first: Moment, length: nat) {
    if MaskKey !in a then path !in store
    else
      a[MaskKey] == "1" && path in store
      && var mask := store[path].payload;
         mask.WordSeries? && mask.dtype == Int8 && mask.first == first && |mask.words| == length
         && (forall i :: 0 <= i < length ==> 0 <= mask.words[i] <= 3)
         && exists i :: 0 <= i < length && mask.words[i] != 0
  }

  predicate MarkedAt(store: Store, path: string, a: Attributes, i: nat) {
    MaskKey in a && path in store
    && var mask := store[path].payload;
       mask.WordSeries? && i < |mask.words| && mask.words[i] != 0
  }

  lemma MaskSoundIff(store: Store, catalog: string, name: string, a: Attributes, first: Moment, length: nat)
    ensures var codes := ReadCodes(store, catalog, name, a, first, length);
            (codes.Ok? <==> MaskSound(store, MaskPath(catalog, name), a, first, length))
            && (codes.Ok? ==> forall i: nat :: i < length ==>
                  (codes.value[i] != NORMAL <==> MarkedAt(store, MaskPath(catalog, name), a, i)))
  {
    hide MaskPath;
  }

  // -- series ------------------------------------------------------------------------------------------

  predicate StringsSound(store: Store, path: string, a: Attributes, f: Frequency, payload: Payload) {
    a.Keys - {MaskKey} == {KindKey, FrequencyKey, RepresentationKey, FirstdateKey}
    && a[RepresentationKey] == "text" && payload.TextArray? && ParseDecimal(a[FirstdateKey]).Some?
    && MaskSound(store, path, a, Moment(f, ParseDecimal(a[FirstdateKey]).value), |payload.texts|)
    && forall i: nat :: i < |payload.texts| && MarkedAt(store, path, a, i) ==> payload.texts[i] == ""
  }

  lemma StringsSoundIff(store: Store, catalog: string, name: string, a: Attributes, f: Frequency, payload: Payload)
    requires FrequencyKey in a
    ensures ReadStrings(store, catalog, name, a, f, payload).Ok?
       <==> StringsSound(store, MaskPath(catalog, name), a, f, payload)
  {
    hide MaskPath, ReadCodes, MaskSound, ParseDecimal;
    if payload.TextArray? && FirstdateKey in a && ParseDecimal(a[FirstdateKey]).Some? {
      var first := Moment(f, ParseDecimal(a[FirstdateKey]).value);
      MaskSoundIff(store, catalog, name, a, first, |payload.texts|);
    }
    hide MarkedAt;
  }

  predicate PlainSound(store: Store, path: string, kind: Kind, a: Attributes, payload: Payload) {
    a.Keys - {MaskKey} == {KindKey, FrequencyKey, RepresentationKey} && a[RepresentationKey] == "native"
    && payload.WordSeries? && payload.dtype == KindDtype(kind)
    && MaskSound(store, path, a, payload.first, |payload.words|)
    && forall i: nat :: i < |payload.words| && MarkedAt(store, path, a, i) ==>
         if kind.Boolean? then payload.words[i] == 0 else IsNaN(kind, payload.words[i])
  }

  lemma PlainSoundIff(store: Store, catalog: string, name: string, kind: Kind, a: Attributes, payload: Payload)
    requires FrequencyKey in a
    ensures ReadPlain(store, catalog, name, kind, a, payload).Ok?
       <==> PlainSound(store, MaskPath(catalog, name), kind, a, payload)
  {
    hide MaskPath, ReadCodes, MaskSound, IsNaN;
    if payload.WordSeries? {
      MaskSoundIff(store, catalog, name, a, payload.first, |payload.words|);
    }
    hide MarkedAt;
  }

  /** Dates are stored natively when none is missing, and as codes under a mask when some are. */
  ghost predicate DatesSound(store: Store, path: string, a: Attributes, payload: Payload)
    requires payload.Class() == SeriesClass
  {
    a.Keys - {MaskKey} == {KindKey, FrequencyKey, RepresentationKey, ValueFrequencyKey}
    && IsLabel(a[ValueFrequencyKey]) && a[ValueFrequencyKey] != "case"
    && MaskSound(store, path, a, SeriesFirst(payload), |SeriesWords(payload)|)
    && if MaskKey !in a then
         a[RepresentationKey] == "native" && payload.DateSeries?
         && (payload.words != [] ==> Label(payload.elements) == a[ValueFrequencyKey])
       else
         a[RepresentationKey] == "codes" && payload.WordSeries? && payload.dtype == Int64
         && forall i: nat :: i < |payload.words| && MarkedAt(store, path, a, i) ==> payload.words[i] == 0
  }

  lemma CaseLabel(text: string)
    requires LabelFrequency(text).Some?
    ensures LabelFrequency(text).value.Unit? <==> text == "case"
  {
    LabelIff(Unit, text);
    LabelIff(LabelFrequency(text).value, text);
    hide LabelFrequency;
  }

  lemma SameLabels(f: Frequency, g: Frequency, text: string)
    requires f.Valid() && LabelFrequency(text) == Some(g)
    ensures Label(f) == text <==> f == g
  {
    LabelIff(f, text);
    LabelIff(g, text);
    hide LabelFrequency, Label;
  }

  lemma DatesSoundIff(store: Store, catalog: string, name: string, a: Attributes, payload: Payload)
    requires FrequencyKey in a && payload.Class() == SeriesClass && Typed(payload)
    ensures ReadDates(store, catalog, name, a, payload).Ok?
       <==> DatesSound(store, MaskPath(catalog, name), a, payload)
  {
    hide MaskPath, ReadCodes, MaskSound, Label, LabelFrequency, IsLabel;
    if ValueFrequencyKey in a {
      IsLabelIff(a[ValueFrequencyKey]);
      if LabelFrequency(a[ValueFrequencyKey]).Some? {
        CaseLabel(a[ValueFrequencyKey]);
        if payload.DateSeries? {
          SameLabels(payload.elements, LabelFrequency(a[ValueFrequencyKey]).value, a[ValueFrequencyKey]);
        }
      }
    }
    MaskSoundIff(store, catalog, name, a, SeriesFirst(payload), |SeriesWords(payload)|);
    assert "native"[0] != "codes"[0];
    hide MarkedAt;
  }

  /** The attributes of an empty series, given its mode. */
  predicate EmptyKeys(kind: Kind, a: Attributes)
    requires EmptyKey in a
  {
    a.Keys == {KindKey, FrequencyKey, EmptyKey} + (if kind.Date? then {ValueFrequencyKey} else {})
              + (if kind.String? && a[EmptyKey] == "explicit_firstdate" then {FirstdateKey} else {})
  }

  /** Nothing is stored but, if the mode says so, a first date. */
  predicate EmptySound(kind: Kind, a: Attributes, f: Frequency, payload: Payload)
    requires EmptyKey in a
  {
    var explicit := a[EmptyKey] == "explicit_firstdate";
    (explicit || a[EmptyKey] == "unknown_firstdate")
    && EmptyKeys(kind, a)
    && if kind.String? then payload == TextArray([]) && (explicit ==> ParseDecimal(a[FirstdateKey]).Some?)
       else if !explicit then payload == WordArray(KindDtype(kind), [])
       else if kind.Date? then
         payload.DateSeries? && payload.words == [] && payload.first.frequency == f
         && Label(payload.elements) == a[ValueFrequencyKey] && a[ValueFrequencyKey] != "case"
       else payload.WordSeries? && payload.dtype == KindDtype(kind) && payload.words == []
            && payload.first.frequency == f
  }

  lemma EmptyDatesIff(name: string, a: Attributes, f: Frequency, payload: Payload)
    requires EmptyKey in a && FrequencyKey in a && EmptyKeys(Date, a) && Typed(payload)
    ensures ReadEmpty(name, Date, a, f, payload).Ok? <==> EmptySound(Date, a, f, payload)
  {
    hide Label, LabelFrequency, ParseDecimal;
    if payload.DateSeries? {
      LabelIff(payload.elements, a[ValueFrequencyKey]);
      if LabelFrequency(a[ValueFrequencyKey]).Some? { CaseLabel(a[ValueFrequencyKey]); }
    }
  }

  lemma EmptyPlainIff(name: string, kind: Kind, a: Attributes, f: Frequency, payload: Payload)
    requires EmptyKey in a && FrequencyKey in a && EmptyKeys(kind, a) && !kind.Namelist? && !kind.Date?
    ensures ReadEmpty(name, kind, a, f, payload).Ok? <==> EmptySound(kind, a, f, payload)
  {
    hide Label, LabelFrequency, ParseDecimal;
  }

  lemma EmptySoundIff(name: string, kind: Kind, a: Attributes, f: Frequency, payload: Payload)
    requires EmptyKey in a && FrequencyKey in a && !kind.Namelist? && Typed(payload)
    ensures ReadEmpty(name, kind, a, f, payload).Ok? <==> EmptySound(kind, a, f, payload)
  {
    if EmptyKeys(kind, a) {
      if kind.Date? { EmptyDatesIff(name, a, f, payload); } else { EmptyPlainIff(name, kind, a, f, payload); }
    }
    hide EmptyFirst, Label, LabelFrequency, ParseDecimal, EmptyColumn, Typed;
  }

  // -- the whole object --------------------------------------------------------------------------------

  ghost predicate ObjectSound(store: Store, path: string, kind: Kind, a: Attributes, payload: Payload) {
    if kind.Namelist? then NamesSound(a, payload)
    else if FrequencyKey !in a then ScalarSound(kind, a, payload)
    else
      exists f :: OfLabel(f, a[FrequencyKey])
                  && if EmptyKey in a then EmptySound(kind, a, f, payload)
                     else if kind.String? then StringsSound(store, path, a, f, payload)
                     else payload.Class() == SeriesClass && SeriesFirst(payload).frequency == f
                          && if kind.Date? then DatesSound(store, path, a, payload)
                             else PlainSound(store, path, kind, a, payload)
  }

  lemma ObjectSoundIff(store: Store, catalog: string, name: string, kind: Kind, a: Attributes, payload: Payload)
    requires Typed(payload)
    ensures ReadObject(store, catalog, name, kind, a, payload).Ok?
       <==> ObjectSound(store, MaskPath(catalog, name), kind, a, payload)
  {
    hide MaskPath, Label, LabelFrequency, ReadNames, ReadScalar, ReadEmpty, ReadStrings, ReadDates, ReadPlain,
         NamesSound, ScalarSound, EmptySound, StringsSound, DatesSound, PlainSound, Typed, OfLabel;
    if kind.Namelist? {
      NamesSoundIff(name, a, payload);
    } else if FrequencyKey !in a {
      ScalarSoundIff(name, kind, a, payload);
      ScalarClassed(kind, a, payload);
    } else {
      forall f ensures LabelFrequency(a[FrequencyKey]) == Some(f) <==> OfLabel(f, a[FrequencyKey]) {
        LabelIff(f, a[FrequencyKey]);
      }
      if LabelFrequency(a[FrequencyKey]).Some? {
        var f := LabelFrequency(a[FrequencyKey]).value;
        if EmptyKey in a {
          EmptySoundIff(name, kind, a, f, payload);
        } else if kind.String? {
          StringsSoundIff(store, catalog, name, a, f, payload);
        } else if payload.Class() == SeriesClass {
          if kind.Date? { DatesSoundIff(store, catalog, name, a, payload); }
          else { PlainSoundIff(store, catalog, name, kind, a, payload); }
        }
      }
    }
  }

  lemma ScalarClassed(kind: Kind, a: Attributes, payload: Payload)
    ensures ScalarSound(kind, a, payload) ==> payload.Class() == ScalarClass
  {
    hide IsLabel, Label, IsNaN;
  }

  ghost predicate Sound(store: Store, catalog: string, name: string) {
    catalog in store && CatalogSound(store[catalog].attributes) && CatalogPath(catalog, name) in store
    && var a := AttributesAt(store, catalog, name);
       KindKey in a
       && exists kind :: KindName(kind) == a[KindKey]
                         && ObjectSound(store, MaskPath(catalog, name), kind, a, PayloadAt(store, catalog, name))
  }

  /** The reader accepts exactly the objects of a sound catalog whose attributes are those of their form, no
      more and no fewer, and whose stored data agree with them. */
  lemma ReadsIff(store: Store, catalog: string, name: string)
    requires CatalogPath(catalog, name) in store ==> Typed(PayloadAt(store, catalog, name))
    ensures ReadMigrated(store, catalog, name).Ok? <==> Sound(store, catalog, name)
  {
    hide CatalogPath, MaskPath, CheckLayout, CatalogSound, ReadObject, ObjectSound, Typed, KindNamed, KindName;
    CatalogSoundIff(store, catalog);
    if CatalogPath(catalog, name) in store {
      var a, payload := AttributesAt(store, catalog, name), PayloadAt(store, catalog, name);
      forall kind: Kind
        ensures ReadObject(store, catalog, name, kind, a, payload).Ok?
           <==> ObjectSound(store, MaskPath(catalog, name), kind, a, payload)
        ensures KindNamed(KindName(kind)) == Some(kind)
      {
        ObjectSoundIff(store, catalog, name, kind, a, payload);
        KindNames(kind);
      }
    }
  }
}
