/** What the strict reader guarantees about an accepted object, and when it can be stored again. */
module Restoring {
  import opened Wrappers
  import opened Frequencies
  import opened Carriers
  import opened DataEcon
  import opened Labels
  import opened Layout
  import opened Reader
  import opened LayoutTrips

  /** What the file format itself guarantees of a stored payload. */
  predicate Typed(payload: Payload) {
    match payload
    case MomentScalar(m) => m.frequency.Valid()
    case WordSeries(first, dtype, words) =>
      first.frequency.Valid() && (dtype.Int64? ==> forall i :: 0 <= i < |words| ==> FitsInt64(words[i]))
    case DateSeries(first, elements, words) =>
      first.frequency.Valid() && elements.Valid() && forall i :: 0 <= i < |words| ==> FitsInt64(words[i])
    case OtherSeries(first) => first.frequency.Valid()
    case _ => true
  }

  function PayloadAt(store: Store, catalog: string, name: string): Payload
    requires CatalogPath(catalog, name) in store
  {
    store[CatalogPath(catalog, name)].payload
  }

  function AttributesAt(store: Store, catalog: string, name: string): Attributes
    requires CatalogPath(catalog, name) in store
  {
    store[CatalogPath(catalog, name)].attributes
  }

  // -- consistency of an accepted series -----------------------------------------------------------

  /** A declared mask starts with the object, has its length and marks a position; none is undeclared. */
  predicate MaskAgrees(store: Store, catalog: string, name: string, found: Attributes, first: Moment, codes: seq<int>) {
    if AnyMarked(codes) then MaskKey in found && StoredMask(store, MaskPath(catalog, name), first, codes)
    else MaskKey !in found && MaskPath(catalog, name) !in store
  }

  /** Every missing position of the stored object holds its placeholder. */
  predicate PlaceholdersHold(payload: Payload, codes: seq<int>) {
    match payload
    case WordSeries(_, dtype, words) =>
      |words| == |codes|
      && if dtype.Float64? then NaNAt(Precision, words, codes)
         else if dtype.Float32? then NaNAt(Numeric, words, codes)
         else HoldsAt(words, codes, 0)
    case TextArray(texts) => |texts| == |codes| && BlankTexts(texts, codes)
    case _ => !AnyMarked(codes)
  }

  predicate CarrierAgrees(c: Carrier, kind: Kind, codes: seq<int>, indexLabel: string, valueLabel: Option<string>) {
    && c.column.Kind() == kind && |codes| == c.column.Length() && Label(c.first.frequency) == indexLabel
    && valueLabel == (if c.column.Dates? then Some(Label(c.column.elements)) else None)
    && GoodSeries(c.first, c.column, codes, true)
  }

  /** The same in bridge terms: NaN or False at every missing position. */
  predicate BlankColumn(c: Column, codes: seq<int>)
    requires |codes| == c.Length()
  {
    match c
    case Numbers(_, bits) => NaNAt(c.Kind(), bits, codes)
    case Truths(flags) => forall i :: 0 <= i < |flags| && codes[i] != NORMAL ==> !flags[i]
    case _ => true
  }

  /** The carrier is what is stored: the same first date, the same bits, flags, moments or texts. */
  predicate CarrierStored(payload: Payload, c: Carrier, codes: seq<int>) {
    match c.column
    case Numbers(double, bits) => payload == WordSeries(c.first, if double then Float64 else Float32, bits)
    case Truths(flags) =>
      payload.WordSeries? && payload == WordSeries(c.first, Bool8, payload.words) && WordFlags(payload.words) == flags
    case Dates(f, moments) =>
      payload == (if AnyMarked(codes) then WordSeries(c.first, Int64, SeriesWords(payload))
                  else DateSeries(c.first,
                                  if payload.DateSeries? && SeriesWords(payload) == [] then payload.elements else f,
                                  SeriesWords(payload)))
      && |codes| == |SeriesWords(payload)| && moments == Present(SeriesWords(payload), codes)
    case Lines(texts) => payload.TextArray? && |codes| == |payload.texts| && texts == Present(payload.texts, codes)
  }

  predicate NoElements(payload: Payload) {
    match payload
    case WordArray(_, words) => words == []
    case TextArray(texts) => texts == []
    case WordSeries(_, _, words) => words == []
    case DateSeries(_, _, words) => words == []
    case _ => false
  }

  /** Nothing is stored but a first date, exactly when the mode declares one: as that of the stored
      series, or for strings as an attribute. */
  predicate EmptyStored(found: Attributes, payload: Payload, kind: Kind, carrier: Option<Carrier>) {
    NoElements(payload) && EmptyKey in found && (carrier.Some? <==> found[EmptyKey] == "explicit_firstdate")
    && (carrier.Some? ==>
          if kind.String? then
            FirstdateKey in found && ParseDecimal(found[FirstdateKey]) == Some(carrier.value.first.value)
          else payload.Class() == SeriesClass && SeriesFirst(payload) == carrier.value.first)
  }

  predicate SeriesConsistent(store: Store, catalog: string, m: Migrated)
    requires m.MigratedSeries?
  {
    CatalogPath(catalog, m.name) in store && LabelFrequency(m.indexLabel).Some?
    && (m.carrier.Some? ==> CarrierAgrees(m.carrier.value, m.kind, m.categories, m.indexLabel, m.valueLabel))
    && if m.representation == "empty" then
         m.categories == []
         && EmptyStored(AttributesAt(store, catalog, m.name), PayloadAt(store, catalog, m.name), m.kind, m.carrier)
       else
         m.carrier.Some? && m.representation == Representation(m.carrier.value.column, m.categories)
         && MaskAgrees(store, catalog, m.name, AttributesAt(store, catalog, m.name), m.carrier.value.first,
                       m.categories)
         && PlaceholdersHold(PayloadAt(store, catalog, m.name), m.categories)
         && |m.categories| == m.carrier.value.column.Length() && BlankColumn(m.carrier.value.column, m.categories)
         && CarrierStored(PayloadAt(store, catalog, m.name), m.carrier.value, m.categories)
  }

  lemma CodesAgree(store: Store, catalog: string, name: string, found: Attributes, first: Moment, length: nat)
    requires ReadCodes(store, catalog, name, found, first, length).Ok?
    ensures var codes := ReadCodes(store, catalog, name, found, first, length).value;
            |codes| == length && MaskCodes(codes) && MaskAgrees(store, catalog, name, found, first, codes)
  {
    hide MaskPath;
    assert !AnyMarked(Zeros(length));
  }

  lemma PlainConsistent(store: Store, catalog: string, name: string, kind: Kind, found: Attributes, payload: Payload,
      f: Frequency)
    requires FrequencyKey in found && f.Valid() && (IsFloat(kind) || kind.Boolean?) && payload.Class() == SeriesClass
    requires SeriesFirst(payload).frequency == f && Label(f) == found[FrequencyKey]
    requires ReadPlain(store, catalog, name, kind, found, payload).Ok?
    ensures var m := ReadPlain(store, catalog, name, kind, found, payload).value;
            m.MigratedSeries? && m.name == name && m.kind == kind && m.indexLabel == found[FrequencyKey]
            && m.carrier.Some?
            && CarrierAgrees(m.carrier.value, kind, m.categories, m.indexLabel, m.valueLabel)
            && m.representation == Representation(m.carrier.value.column, m.categories) && m.representation != "empty"
            && MaskAgrees(store, catalog, name, found, m.carrier.value.first, m.categories)
            && PlaceholdersHold(payload, m.categories)
            && |m.categories| == m.carrier.value.column.Length() && BlankColumn(m.carrier.value.column, m.categories)
            && CarrierStored(payload, m.carrier.value, m.categories)
  {
    hide ReadCodes, Label, Exactly, IsNaN, AnyMarked, MaskAgrees, MaskCodes;
    if payload.WordSeries? {
      if ReadCodes(store, catalog, name, found, payload.first, |payload.words|).Ok? {
        CodesAgree(store, catalog, name, found, payload.first, |payload.words|);
      }
    }
    assert "native"[0] != "empty"[0];
  }

  lemma StringsConsistent(store: Store, catalog: string, name: string, found: Attributes, payload: Payload,
      f: Frequency)
    requires FrequencyKey in found && f.Valid() && Label(f) == found[FrequencyKey]
    requires ReadStrings(store, catalog, name, found, f, payload).Ok?
    ensures var m := ReadStrings(store, catalog, name, found, f, payload).value;
            m.MigratedSeries? && m.name == name && m.kind == String && m.indexLabel == found[FrequencyKey]
            && m.carrier.Some?
            && CarrierAgrees(m.carrier.value, String, m.categories, m.indexLabel, m.valueLabel)
            && m.representation == Representation(m.carrier.value.column, m.categories) && m.representation != "empty"
            && MaskAgrees(store, catalog, name, found, m.carrier.value.first, m.categories)
            && PlaceholdersHold(payload, m.categories)
            && |m.categories| == m.carrier.value.column.Length() && BlankColumn(m.carrier.value.column, m.categories)
            && CarrierStored(payload, m.carrier.value, m.categories)
  {
    hide ReadCodes, Label, AnyMarked, MaskAgrees, MaskCodes, ParseDecimal;
    var first := ReadFirstdate(found, f).value;
    CodesAgree(store, catalog, name, found, first, |payload.texts|);
    assert "text"[0] != "empty"[0];
  }

  lemma DatesConsistent(store: Store, catalog: string, name: string, found: Attributes, payload: Payload, f: Frequency)
    requires FrequencyKey in found && f.Valid() && payload.Class() == SeriesClass && Typed(payload)
    requires SeriesFirst(payload).frequency == f && Label(f) == found[FrequencyKey]
    requires ReadDates(store, catalog, name, found, payload).Ok?
    ensures var m := ReadDates(store, catalog, name, found, payload).value;
            m.MigratedSeries? && m.name == name && m.kind == Date && m.indexLabel == found[FrequencyKey]
            && m.carrier.Some?
            && CarrierAgrees(m.carrier.value, Date, m.categories, m.indexLabel, m.valueLabel)
            && m.representation == Representation(m.carrier.value.column, m.categories) && m.representation != "empty"
            && MaskAgrees(store, catalog, name, found, m.carrier.value.first, m.categories)
            && PlaceholdersHold(payload, m.categories)
            && |m.categories| == m.carrier.value.column.Length() && BlankColumn(m.carrier.value.column, m.categories)
            && CarrierStored(payload, m.carrier.value, m.categories)
  {
    hide ReadCodes, Label, LabelFrequency, AnyMarked, MaskCodes;
    var words, first := SeriesWords(payload), SeriesFirst(payload);
    CodesAgree(store, catalog, name, found, first, |words|);
    assert "native"[0] != "empty"[0] && "codes"[0] != "empty"[0];
  }

  lemma EmptyConsistent(name: string, kind: Kind, found: Attributes, f: Frequency, payload: Payload)
    requires EmptyKey in found && FrequencyKey in found && f.Valid() && Label(f) == found[FrequencyKey]
             && !kind.Namelist?
    requires Typed(payload) && ReadEmpty(name, kind, found, f, payload).Ok?
    ensures var m := ReadEmpty(name, kind, found, f, payload).value;
            m.MigratedSeries? && m.name == name && m.kind == kind && m.indexLabel == found[FrequencyKey]
            && m.representation == "empty" && m.categories == [] && (kind.Date? <==> m.valueLabel.Some?)
            && (m.carrier.Some? ==>
                m.carrier.value.column == EmptyColumn(kind, m.carrier.value.column.ElementsOr(Unit)))
            && (m.carrier.Some? ==> CarrierAgrees(m.carrier.value, kind, [], m.indexLabel, m.valueLabel))
            && EmptyStored(found, payload, kind, m.carrier)
  {
    hide Label, LabelFrequency, ParseDecimal;
  }

  // -- consistency of an accepted object -----------------------------------------------------------

  function LabelOf(text: Option<string>): Option<Frequency> {
    if text.None? then None else LabelFrequency(text.value)
  }

  /** An accepted scalar is the stored value and fits its kind and label, or is a category over its placeholder. */
  predicate ScalarConsistent(store: Store, catalog: string, m: Migrated)
    requires m.MigratedScalar?
  {
    CatalogPath(catalog, m.name) in store && GoodScalar(m.kind, m.value, m.category, LabelOf(m.valueLabel))
    && (m.category != NORMAL ==> m.value.None? && ScalarPlaceholder(m.kind, PayloadAt(store, catalog, m.name)))
    && (m.category == NORMAL ==> ScalarPayload(m.kind, m.value, false) == Ok(PayloadAt(store, catalog, m.name)))
    && m.valueLabel == ValueLabel(LabelOf(m.valueLabel))
  }

  lemma ScalarAccepted(name: string, kind: Kind, found: Attributes, payload: Payload)
    requires !kind.Namelist? && Typed(payload) && ReadScalar(name, kind, found, payload).Ok?
    ensures var m := ReadScalar(name, kind, found, payload).value;
            m.MigratedScalar? && m.name == name && m.kind == kind
            && GoodScalar(kind, m.value, m.category, LabelOf(m.valueLabel))
            && (m.category != NORMAL ==> m.value.None? && ScalarPlaceholder(kind, payload))
            && (m.category == NORMAL ==> ScalarPayload(kind, m.value, false) == Ok(payload))
            && m.valueLabel == ValueLabel(LabelOf(m.valueLabel)) && MaskKey !in found
  {
    if payload.MomentScalar? { LabelNames(payload.moment.frequency); }
    hide Label, LabelFrequency, IsNaN, CategoryNamed, GoodMembers;
  }

  /** Anything the reader accepts is consistent: labels match carriers, a declared mask aligns and marks
      something, series have no undeclared mask, and missing positions hold their placeholders. */
  lemma AcceptedIsConsistent(store: Store, catalog: string, name: string)
    requires ReadMigrated(store, catalog, name).Ok? && Typed(PayloadAt(store, catalog, name))
    ensures var m := ReadMigrated(store, catalog, name).value;
            m.name == name && m.kind == KindNamed(AttributesAt(store, catalog, name)[KindKey]).value
            && if m.MigratedScalar? then ScalarConsistent(store, catalog, m) else SeriesConsistent(store, catalog, m)
  {
    hide CheckLayout, ReadScalar, ReadEmpty, ReadStrings, ReadDates, ReadPlain, KindNamed, Label, LabelFrequency,
         GoodMembers,
         CarrierAgrees, MaskAgrees, PlaceholdersHold, CarrierStored, EmptyStored, Exactly, CatalogPath, GoodScalar,
         Representation;
    var found, payload := AttributesAt(store, catalog, name), PayloadAt(store, catalog, name);
    var kind := KindNamed(found[KindKey]).value;
    if kind.Namelist? {
      NamesAreGood(payload.texts);
    } else if FrequencyKey !in found {
      ScalarAccepted(name, kind, found, payload);
    } else {
      var f := LabelFrequency(found[FrequencyKey]).value;
      if EmptyKey in found { EmptyConsistent(name, kind, found, f, payload); }
      else if kind.String? { StringsConsistent(store, catalog, name, found, payload, f); }
      else if kind.Date? { DatesConsistent(store, catalog, name, found, payload, f); }
      else { PlainConsistent(store, catalog, name, kind, found, payload, f); }
    }
  }

  lemma NamesAreGood(names: seq<string>)
    requires GoodMembers(names)
    ensures GoodScalar(Namelist, Some(Members(names)), NORMAL, None)
  {
    hide GoodMembers;
  }

  // -- the masks of scalars and empty series are never looked at -------------------------------------

  predicate Masked(m: Migrated) {
    m.MigratedSeries? && m.representation != "empty"
  }

  /** The object reader looks at the undeclared mask of nonempty series only. */
  lemma ObjectUndeclared(store: Store, after: Store, catalog: string, name: string, kind: Kind, found: Attributes,
      payload: Payload)
    requires MaskPath(catalog, name) !in store && MaskPath(catalog, name) in after && Typed(payload)
    requires ReadObject(store, catalog, name, kind, found, payload).Ok?
    ensures ReadObject(after, catalog, name, kind, found, payload).Ok?
         <==> !Masked(ReadObject(store, catalog, name, kind, found, payload).value)
  {
    hide ReadScalar, ReadEmpty, Label, LabelFrequency, GoodMembers, CarrierAgrees, PlaceholdersHold, CarrierStored,
         EmptyStored, Exactly, MaskPath, Representation, ParseDecimal, AnyMarked;
    if kind.Namelist? || FrequencyKey !in found {
      ScalarHasNoSeries(name, kind, found, payload);
    } else if EmptyKey in found {
      EmptyConsistent(name, kind, found, LabelFrequency(found[FrequencyKey]).value, payload);
    } else {
      SeriesNeverEmpty(store, catalog, name, kind, found, payload);
    }
  }

  /** A mask that no attribute declares is refused exactly for nonempty series: beside a scalar, a
      name-list or an empty series the reader accepts it. */
  lemma UndeclaredMask(store: Store, catalog: string, name: string, mask: Node)
    requires PlainName(name) && GoodCatalog(catalog) && MaskPath(catalog, name) !in store
    requires ReadMigrated(store, catalog, name).Ok? && Typed(PayloadAt(store, catalog, name))
    ensures ReadMigrated(store[MaskPath(catalog, name) := mask], catalog, name).Ok?
         <==> !Masked(ReadMigrated(store, catalog, name).value)
  {
    hide CheckLayout, ReadObject, KindNamed, CatalogPath, MaskPath, Typed, Masked;
    var after := store[MaskPath(catalog, name) := mask];
    PathsApart(catalog, name, name);
    CatalogApart(catalog, name);
    LayoutKept(store, after, catalog);
    var found, payload := AttributesAt(store, catalog, name), PayloadAt(store, catalog, name);
    ObjectUndeclared(store, after, catalog, name, KindNamed(found[KindKey]).value, found, payload);
  }

  lemma ScalarHasNoSeries(name: string, kind: Kind, found: Attributes, payload: Payload)
    ensures ReadScalar(name, kind, found, payload).Ok? ==> ReadScalar(name, kind, found, payload).value.MigratedScalar?
  {
    hide ScalarItem, CategoryNamed, Exactly, ScalarPlaceholder;
  }

  lemma SeriesNeverEmpty(store: Store, catalog: string, name: string, kind: Kind, found: Attributes, payload: Payload)
    requires FrequencyKey in found && EmptyKey !in found && !kind.Namelist? && Typed(payload)
    requires ReadObject(store, catalog, name, kind, found, payload).Ok?
    ensures Masked(ReadObject(store, catalog, name, kind, found, payload).value)
  {
    hide Label, LabelFrequency, ReadPlain, ReadDates, ReadStrings, CarrierAgrees, MaskAgrees, PlaceholdersHold,
         CarrierStored;
    var f := LabelFrequency(found[FrequencyKey]).value;
    if kind.String? { StringsConsistent(store, catalog, name, found, payload, f); }
    else if kind.Date? { DatesConsistent(store, catalog, name, found, payload, f); }
    else { PlainConsistent(store, catalog, name, kind, found, payload, f); }
  }

  // -- storing an accepted object again ---------------------------------------------------------------

  /** The writer calls for an object as it was read, with its labels turned back into frequencies. */
  function RestoreCalls(catalog: string, m: Migrated): Result<seq<Call>, LayoutError> {
    match m
    case MigratedScalar(name, kind, value, category, valueLabel) =>
      ScalarCalls(CatalogPath(catalog, name), kind, value, category, LabelOf(valueLabel))
    case MigratedSeries(name, kind, carrier, categories, indexLabel, valueLabel, representation) =>
      if LabelFrequency(indexLabel).None? || (valueLabel.Some? && LabelFrequency(valueLabel.value).None?) then
        Err(BadLabel)
      else if representation == "empty" then
        EmptyCalls(CatalogPath(catalog, name), kind, LabelFrequency(indexLabel).value, LabelOf(valueLabel),
                   if carrier.None? then None else Some(carrier.value.first))
      else if carrier.None? then Err(NoRepresentation)
      else SeriesCalls(catalog, name, carrier.value.first, carrier.value.column, categories, true)
  }

  /** The same description, NaN payloads at missing positions aside. */
  predicate SameDescription(a: Migrated, b: Migrated) {
    match a
    case MigratedScalar(_, _, _, _, _) => b == a
    case MigratedSeries(name, kind, carrier, categories, indexLabel, valueLabel, representation) =>
      b.MigratedSeries? && b == a.(carrier := b.carrier) && (carrier.Some? <==> b.carrier.Some?)
      && (carrier.Some? ==> b.carrier.value.first == carrier.value.first
                            && SameColumn(carrier.value.column, b.carrier.value.column, categories))
  }

  predicate SameColumn(a: Column, b: Column, codes: seq<int>) {
    if a.Numbers? then
      b.Numbers? && b.double == a.double && |b.bits| == |a.bits| == |codes|
      && forall i :: 0 <= i < |codes| ==>
           if codes[i] == NORMAL then b.bits[i] == a.bits[i]
           else IsNaN(a.Kind(), a.bits[i]) && IsNaN(a.Kind(), b.bits[i])
    else b == a
  }

  lemma ShownIsSame(c: Column, codes: seq<int>)
    requires |codes| == c.Length() && BlankColumn(c, codes)
    ensures SameColumn(c, Shown(c, codes), codes)
  {
    NaNsAreNaN();
    if c.Truths? {
      assert WordFlags(Placed(FlagWords(c.flags), codes, 0)) == c.flags;
    }
    hide IsNaN;
  }

  lemma SameLabel(f: Frequency, text: string)
    requires f.Valid() && Label(f) == text
    ensures LabelFrequency(text) == Some(f)
  {
    LabelNames(f);
  }

  /** An accepted series that is not empty can always be stored again, and then reads the same. */
  lemma SeriesRestores(store: Store, catalog: string, m: Migrated, target: Store, place: string, limit: nat)
    requires Masked(m) && SeriesConsistent(store, catalog, m) && PlainName(m.name) && GoodCatalog(place)
    requires CheckLayout(target, place).Ok? && MaskPath(place, m.name) !in target
    ensures RestoreCalls(place, m).Ok?
    ensures Written(target, RestoreCalls(place, m), limit).1 ==>
              var back := ReadMigrated(Written(target, RestoreCalls(place, m), limit).0, place, m.name);
              back.Ok? && SameDescription(m, back.value)
  {
    hide CheckLayout, ReadMigrated, Label, LabelFrequency, MaskAgrees, PlaceholdersHold, BlankColumn, CarrierStored,
         Run, CatalogPath, MaskPath,
         GoodSeries, SameColumn, Shown, PlainName, SeriesCalls, Representation;
    var c := m.carrier.value;
    if c.column.Dates? {
      SeriesIsGood(c, m.categories);
      SameLabel(c.column.elements, m.valueLabel.value);
    }
    SeriesHasCalls(place, m.name, c, m.categories);
    if Written(target, RestoreCalls(place, m), limit).1 {
      SeriesReads(target, place, m.name, c.first, c.column, m.categories, true, limit);
      ShownIsSame(c.column, m.categories);
    }
  }

  lemma SeriesIsGood(c: Carrier, codes: seq<int>)
    requires GoodSeries(c.first, c.column, codes, true)
    ensures c.column.Dates? ==> c.column.elements.Valid() && AllFit(c.column.codes)
    ensures c.first.frequency.Valid()
  {
    hide AllFit;
  }

  lemma SeriesHasCalls(catalog: string, name: string, c: Carrier, codes: seq<int>)
    requires GoodSeries(c.first, c.column, codes, true)
    ensures SeriesCalls(catalog, name, c.first, c.column, codes, true).Ok?
  {
    hide AllFit, AllPresent, CatalogPath, MaskPath, SeriesNotes, MaskCodes;
    if c.column.Dates? && !AnyMarked(codes) {
      UnmarkedIsZeros(codes);
      AllArePresent(c.column, codes);
    }
  }

  lemma AllArePresent(c: Column, codes: seq<int>)
    requires |codes| == c.Length() && Aligned(c, codes) && c.Dates? && codes == Zeros(|codes|)
    ensures AllPresent(c.codes)
  {
  }

  /** An accepted empty series can be stored again exactly when its value label names a frequency. */
  lemma EmptyRestores(store: Store, catalog: string, m: Migrated, target: Store, place: string, limit: nat)
    requires m.MigratedSeries? && !Masked(m) && SeriesConsistent(store, catalog, m) && PlainName(m.name)
             && GoodCatalog(place)
    requires !m.kind.Namelist? && (m.kind.Date? <==> m.valueLabel.Some?) && CheckLayout(target, place).Ok?
    ensures RestoreCalls(place, m).Ok? <==> (m.kind.Date? ==> LabelFrequency(m.valueLabel.value).Some?)
    ensures Written(target, RestoreCalls(place, m), limit).1 ==>
              ReadMigrated(Written(target, RestoreCalls(place, m), limit).0, place, m.name) == Ok(m)
  {
    hide CheckLayout, ReadMigrated, Label, LabelFrequency, Run, CatalogPath, EmptyNotes, EmptyPayload, PlainName;
    var f := LabelFrequency(m.indexLabel).value;
    var valueFrequency := LabelOf(m.valueLabel);
    var first := if m.carrier.None? then None else Some(m.carrier.value.first);
    if m.carrier.Some? {
      SeriesIsGood(m.carrier.value, []);
      SameLabel(m.carrier.value.first.frequency, m.indexLabel);
      if m.kind.Date? { SameLabel(m.carrier.value.column.elements, m.valueLabel.value); }
      assert m.carrier.value.column == EmptyColumn(m.kind, valueFrequency.GetOr(Unit));
    }
    if Written(target, RestoreCalls(place, m), limit).1 {
      EmptyReads(target, place, m.name, m.kind, f, valueFrequency, first, limit);
    }
  }

  lemma ScalarRestores(store: Store, catalog: string, m: Migrated, target: Store, place: string, limit: nat)
    requires m.MigratedScalar? && ScalarConsistent(store, catalog, m) && PlainName(m.name) && GoodCatalog(place)
    requires CheckLayout(target, place).Ok?
    ensures RestoreCalls(place, m).Ok?
    ensures Written(target, RestoreCalls(place, m), limit).1 ==>
              ReadMigrated(Written(target, RestoreCalls(place, m), limit).0, place, m.name) == Ok(m)
  {
    hide CheckLayout, ReadMigrated, Label, LabelFrequency, Run, CatalogPath, ScalarNotes, PlainName, GoodMembers,
         ScalarPlaceholder;
    if Written(target, RestoreCalls(place, m), limit).1 {
      ScalarReads(target, place, m.name, m.kind, m.value, m.category, LabelOf(m.valueLabel), limit);
    }
  }

  /** When an accepted object can be stored again: its value label, if any, names a frequency. */
  predicate Restorable(m: Migrated) {
    m.valueLabel.Some? ==> LabelFrequency(m.valueLabel.value).Some?
  }

  /** An accepted object can be stored again exactly when its value label names a frequency, and it then
      reads back as the same description. */
  lemma AcceptedRestores(store: Store, catalog: string, name: string, target: Store, place: string, limit: nat)
    requires ReadMigrated(store, catalog, name).Ok? && Typed(PayloadAt(store, catalog, name)) && PlainName(name)
    requires GoodCatalog(place) && CheckLayout(target, place).Ok? && MaskPath(place, name) !in target
    ensures var m := ReadMigrated(store, catalog, name).value;
            RestoreCalls(place, m).Ok? <==> Restorable(m)
    ensures var m := ReadMigrated(store, catalog, name).value;
            Written(target, RestoreCalls(place, m), limit).1 ==>
              var back := ReadMigrated(Written(target, RestoreCalls(place, m), limit).0, place, name);
              back.Ok? && SameDescription(m, back.value)
  {
    hide CheckLayout, ReadMigrated, Label, LabelFrequency, Run, CatalogPath, MaskPath, RestoreCalls, ScalarConsistent,
         SeriesConsistent,
         PlainName;
    AcceptedIsConsistent(store, catalog, name);
    var m := ReadMigrated(store, catalog, name).value;
    if m.MigratedScalar? {
      ScalarRestores(store, catalog, m, target, place, limit);
      ScalarLabel(store, catalog, m);
    } else if Masked(m) {
      SeriesRestores(store, catalog, m, target, place, limit);
      SeriesLabel(store, catalog, m);
    } else {
      EmptyHasLabel(store, catalog, name);
      EmptyRestores(store, catalog, m, target, place, limit);
      hide SameColumn;
      EmptyIsSame(m);
    }
  }

  lemma ScalarLabel(store: Store, catalog: string, m: Migrated)
    requires m.MigratedScalar? && ScalarConsistent(store, catalog, m)
    ensures Restorable(m)
  {
    hide LabelFrequency, Label, GoodScalar;
  }

  lemma SeriesLabel(store: Store, catalog: string, m: Migrated)
    requires Masked(m) && SeriesConsistent(store, catalog, m)
    ensures Restorable(m)
  {
    hide LabelFrequency, Label, MaskAgrees, PlaceholdersHold, BlankColumn, CarrierStored, GoodSeries;
    var c := m.carrier.value;
    if c.column.Dates? {
      SeriesIsGood(c, m.categories);
      SameLabel(c.column.elements, m.valueLabel.value);
    }
  }

  lemma EmptyIsSame(m: Migrated)
    requires m.MigratedSeries? && m.categories == [] && (m.carrier.Some? ==> m.carrier.value.column.Length() == 0)
    ensures SameDescription(m, m)
  {
  }

  lemma EmptyHasLabel(store: Store, catalog: string, name: string)
    requires ReadMigrated(store, catalog, name).Ok? && Typed(PayloadAt(store, catalog, name))
    requires var m := ReadMigrated(store, catalog, name).value; m.MigratedSeries? && m.representation == "empty"
    ensures var m := ReadMigrated(store, catalog, name).value;
            !m.kind.Namelist? && (m.kind.Date? <==> m.valueLabel.Some?) && m.categories == []
            && (m.carrier.Some? ==> m.carrier.value.column.Length() == 0)
  {
    hide CheckLayout, ReadScalar, ReadEmpty, ReadStrings, ReadDates, ReadPlain, KindNamed, Label, LabelFrequency,
         Exactly, CatalogPath,
         CarrierAgrees;
    var found, payload := AttributesAt(store, catalog, name), PayloadAt(store, catalog, name);
    var kind := KindNamed(found[KindKey]).value;
    if !kind.Namelist? {
      ScalarHasNoSeries(name, kind, found, payload);
      if FrequencyKey in found {
        if EmptyKey in found {
          EmptyConsistent(name, kind, found, LabelFrequency(found[FrequencyKey]).value, payload);
        } else {
          SeriesNeverEmpty(store, catalog, name, kind, found, payload);
        }
      }
    }
  }

  // -- two archives the reader accepts although one would not expect it --------------------------------

  function StartedCatalog(): Node {
    Node(Catalog, map[LayoutKey := VERSION, StatusKey := STARTED])
  }

  lemma RootPath(name: string)
    ensures CatalogPath("/", name) == "/" + name
  {
    TrimmedPlain("/");
  }

  lemma StartedIsChecked(store: Store)
    requires "/" in store && store["/"] == StartedCatalog()
    ensures CheckLayout(store, "/").Ok?
  {
  }

  /** A number with a stray mask beside it is accepted, although nothing declares the mask. */
  lemma StrayMaskExample(mask: Node)
    ensures var store: Store := map["/" := StartedCatalog(),
              "/x" := Node(WordScalar(Float64, 0), map[KindKey := "precision"]),
                                    MaskPath("/", "x") := mask];
            CatalogPath("/", "x") in store && MaskKey !in AttributesAt(store, "/", "x")
            && MaskPath("/", "x") in store && ReadMigrated(store, "/", "x").Ok?
  {
    RootPath("x");
    assert "/" + "x" == "/x";
    PathsApart("/", "x", "x");
    CatalogApart("/", "x");
    KindNames(Precision);
    var found: Attributes := map[KindKey := "precision"];
    assert ReadScalar("x", Precision, found, WordScalar(Float64, 0)).Ok? by {
      assert found.Keys == {KindKey};
    }
    hide MaskPath, CatalogPath, KindNamed, ReadScalar;
    var store: Store := map["/" := StartedCatalog(), "/x" := Node(WordScalar(Float64, 0), found),
        MaskPath("/", "x") := mask];
    StartedIsChecked(store);
  }

  /** An empty date series of unknown first date is accepted under any value label, even one that names
      no frequency; such an object cannot be stored again. */
  lemma UnknownLabelExample()
    ensures var store: Store := map["/" := StartedCatalog(),
                                    "/x" := Node(WordArray(Int64, []), EmptyDateNotes())];
            ReadMigrated(store, "/", "x").Ok? && RestoreCalls("/", ReadMigrated(store, "/", "x").value).Err?
  {
    var store: Store := map["/" := StartedCatalog(), "/x" := Node(WordArray(Int64, []), EmptyDateNotes())];
    RootPath("x");
    assert "/" + "x" == "/x";
    KindNames(Date);
    StartedIsChecked(store);
    NoSuchLabel();
    assert LabelFrequency("monthly").Some? by { LabelNames(Monthly); }
    assert "unknown_firstdate"[0] != "explicit_firstdate"[0];
    assert EmptyDateNotes().Keys == {KindKey, FrequencyKey, ValueFrequencyKey, EmptyKey};
    hide LabelFrequency, KindNamed, CatalogPath, CheckLayout, Label;
    assert ReadEmpty("x", Date, EmptyDateNotes(), Monthly, WordArray(Int64, [])).Ok?;
  }

  function EmptyDateNotes(): Attributes {
    map[KindKey := "date", FrequencyKey := "monthly", ValueFrequencyKey := "?", EmptyKey := "unknown_firstdate"]
  }

  lemma NoSuchLabel()
    ensures LabelFrequency("?").None?
  {
    OtherFamilies("?");
    assert "?"[0] == '?';
    assert MonthlyLabel(ANNUAL, "?").None?;
  }
}
