/** Every object a writer stores reads back as what was written. */
module LayoutTrips {
  import opened Wrappers
  import opened Frequencies
  import opened Carriers
  import opened DataEcon
  import opened Labels
  import opened Layout
  import opened Reader

  // -- paths of different objects never meet -------------------------------------------------------

  lemma TrimmedPlain(catalog: string)
    ensures catalog == "/" ==> Trimmed(catalog) == ""
    ensures catalog != [] && catalog[|catalog| - 1] != '/' ==> Trimmed(catalog) == catalog
  {
    if catalog == "/" {
      assert catalog[..0] == "";
    }
  }

  lemma MaskPathIs(catalog: string, name: string)
    ensures MaskPath(catalog, name) == Trimmed(catalog) + "/" + (MASK_CATALOG + "/" + name)
  {
    var base := CatalogPath(catalog, MASK_CATALOG);
    assert base[|base| - 1] == MASK_CATALOG[21] == 's';
    TrimmedPlain(base);
    assert base + "/" + name == Trimmed(catalog) + "/" + (MASK_CATALOG + "/" + name);
  }

  lemma SameTail(prefix: string, a: string, b: string)
    requires prefix + a == prefix + b
    ensures a == b
  {
    assert (prefix + a)[|prefix|..] == a && (prefix + b)[|prefix|..] == b;
  }

  lemma HasSeparator(name: string)
    ensures '/' in MASK_CATALOG + "/" + name
  {
    assert (MASK_CATALOG + "/" + name)[|MASK_CATALOG|] == '/';
  }

  /** The object of one name, its mask, and the catalog are four different paths from another's. */
  lemma PathsApart(catalog: string, a: string, b: string)
    requires PlainName(a) && PlainName(b)
    ensures CatalogPath(catalog, a) != MaskPath(catalog, b)
    ensures a != b ==>
              CatalogPath(catalog, a) != CatalogPath(catalog, b) && MaskPath(catalog, a) != MaskPath(catalog, b)
  {
    MaskPathIs(catalog, a);
    MaskPathIs(catalog, b);
    HasSeparator(b);
    var base := Trimmed(catalog) + "/";
    if CatalogPath(catalog, a) == MaskPath(catalog, b) {
      SameTail(base, a, MASK_CATALOG + "/" + b);
    }
    if CatalogPath(catalog, a) == CatalogPath(catalog, b) {
      SameTail(base, a, b);
    }
    if MaskPath(catalog, a) == MaskPath(catalog, b) {
      SameTail(base, MASK_CATALOG + "/" + a, MASK_CATALOG + "/" + b);
      SameTail(MASK_CATALOG + "/", a, b);
    }
  }

  lemma CatalogApart(catalog: string, name: string)
    requires PlainName(name) && GoodCatalog(catalog)
    ensures CatalogPath(catalog, name) != catalog && MaskPath(catalog, name) != catalog
    ensures CatalogPath(catalog, name) != CatalogPath(catalog, MASK_CATALOG)
    ensures MaskPath(catalog, name) != CatalogPath(catalog, MASK_CATALOG)
  {
    TrimmedPlain(catalog);
    MaskPathIs(catalog, name);
    var base := Trimmed(catalog) + "/";
    if CatalogPath(catalog, name) == CatalogPath(catalog, MASK_CATALOG) {
      SameTail(base, name, MASK_CATALOG);
    }
    assert |MaskPath(catalog, name)| > |CatalogPath(catalog, MASK_CATALOG)|;
  }

  // -- reading looks only at the catalog's attributes, the object and its mask ---------------------

  /** What one object's description depends on. */
  predicate SameObject(a: Store, b: Store, catalog: string, name: string) {
    SameAt(a, b, CatalogPath(catalog, name)) && SameAt(a, b, MaskPath(catalog, name))
    && (catalog in a <==> catalog in b) && (catalog in a ==> a[catalog].attributes == b[catalog].attributes)
  }

  lemma ReadCodesLocal(a: Store, b: Store, catalog: string, name: string, found: Attributes, first: Moment, length: nat)
    requires SameAt(a, b, MaskPath(catalog, name))
    ensures ReadCodes(a, catalog, name, found, first, length) == ReadCodes(b, catalog, name, found, first, length)
  {
  }

  lemma ReadLocal(a: Store, b: Store, catalog: string, name: string)
    requires SameObject(a, b, catalog, name)
    ensures ReadMigrated(a, catalog, name) == ReadMigrated(b, catalog, name)
  {
    hide ReadNames, ReadScalar, ReadEmpty, ReadCodes, ParseDecimal, LabelFrequency, KindNamed, Exactly, MaskPath,
         CatalogPath, Label;
    forall found: Attributes, first: Moment, length: nat
      ensures ReadCodes(a, catalog, name, found, first, length) == ReadCodes(b, catalog, name, found, first, length)
    {
      ReadCodesLocal(a, b, catalog, name, found, first, length);
    }
  }

  // -- what a writer leaves behind -----------------------------------------------------------------

  lemma {:induction false} AnnotatedAppend(attributes: Attributes, a: seq<Note>, b: seq<Note>)
    ensures Annotated(attributes, a + b) == Annotated(Annotated(attributes, a), b)
    decreases |a|
  {
    if a == [] {
      assert a + b == b;
    } else {
      assert (a + b)[1..] == a[1..] + b;
      AnnotatedAppend(attributes[a[0].key := a[0].text], a[1..], b);
    }
  }

  lemma AnnotatedOne(attributes: Attributes, n: Note)
    ensures Annotated(attributes, [n]) == attributes[n.key := n.text]
    ensures Annotated(attributes, []) == attributes
  {
  }

  function Optional(condition: bool, n: Note): seq<Note> {
    if condition then [n] else []
  }

  lemma AddOptional(attributes: Attributes, notes: seq<Note>, condition: bool, n: Note)
    ensures Annotated(attributes, notes + Optional(condition, n))
         == if condition then Annotated(attributes, notes)[n.key := n.text] else Annotated(attributes, notes)
  {
    AnnotatedAppend(attributes, notes, Optional(condition, n));
    AnnotatedOne(Annotated(attributes, notes), n);
  }

  /** A stored object without a mask. */
  lemma CreatesOne(store: Store, path: string, payload: Payload, notes: seq<Note>, limit: nat)
    ensures var (after, ok) := Run(store, [Create(path, payload)] + Notes(path, notes), limit);
            ok ==> path !in store && after == store[path := Node(payload, Annotated(map[], notes))]
    ensures Run(store, [Create(path, payload)] + Notes(path, notes), limit).1
            <==> path !in store && limit >= |notes| + 1
  {
    RunFirst(store, Create(path, payload), Notes(path, notes), limit);
    if limit > 0 && path !in store {
      NotesAnnotate(Done(store, Create(path, payload)), path, notes, limit - 1);
      hide Annotated, Notes, Run;
      assert store[path := Node(payload, map[])][path := Node(payload, Annotated(map[], notes))]
          == store[path := Node(payload, Annotated(map[], notes))];
    }
  }

  /** A stored object with its mask. */
  lemma CreatesTwo(store: Store, path: string, payload: Payload, side: string, mask: Payload, notes: seq<Note>,
      limit: nat)
    requires path != side
    ensures var (after, ok) := Run(store, [Create(path, payload)] + [Create(side, mask)] + Notes(path, notes), limit);
            (ok <==> path !in store && side !in store && limit >= |notes| + 2)
            && (ok ==> after == store[path := Node(payload, Annotated(map[], notes))][side := Node(mask, map[])])
  {
    var first, second, rest := Create(path, payload), Create(side, mask), Notes(path, notes);
    assert [first] + [second] + rest == [first] + ([second] + rest);
    RunFirst(store, first, [second] + rest, limit);
    if limit > 0 && path !in store {
      var one := Done(store, first);
      RunFirst(one, second, rest, limit - 1);
      if limit > 1 && side !in store {
        NotesAnnotate(Done(one, second), path, notes, limit - 2);
        hide Annotated, Notes, Run;
        assert Done(one, second)[path := Node(payload, Annotated(map[], notes))]
            == store[path := Node(payload, Annotated(map[], notes))][side := Node(mask, map[])];
      }
    }
  }

  // -- scalars -------------------------------------------------------------------------------------

  /** A scalar the writer can represent: the right item for its kind, or a missing category. */
  predicate GoodScalar(kind: Kind, item: Option<Item>, category: int, valueFrequency: Option<Frequency>) {
    && NORMAL <= category <= ND
    && (kind.Date? <==> valueFrequency.Some?)
    && (valueFrequency.Some? ==> valueFrequency.value.Valid())
    && (kind.Namelist? ==> category == NORMAL)
    && (category == NORMAL ==> item.Some? && ItemFits(kind, item.value, valueFrequency))
  }

  predicate ItemFits(kind: Kind, item: Item, valueFrequency: Option<Frequency>) {
    match kind
    case Precision => item.Number?
    case Numeric => item.Number?
    case Boolean => item.Truth?
    case String => item.Line?
    case Date => item.Instant? && valueFrequency == Some(item.moment.frequency)
    case Namelist => item.Members? && GoodMembers(item.names)
  }

  function ValueLabel(valueFrequency: Option<Frequency>): Option<string> {
    if valueFrequency.Some? then Some(Label(valueFrequency.value)) else None
  }

  function ScalarMap(kind: Kind, category: int, valueFrequency: Option<Frequency>): Attributes {
    var one := map[KindKey := KindName(kind)];
    var two := if category == NORMAL then one else one[MissingKey := CategoryName(category)];
    if kind.Namelist? then two[RepresentationKey := "members"]
    else if kind.Date? && valueFrequency.Some? then two[ValueFrequencyKey := Label(valueFrequency.value)]
    else two
  }

  lemma ScalarNotesMap(kind: Kind, category: int, valueFrequency: Option<Frequency>)
    ensures Annotated(map[], ScalarNotes(kind, category, valueFrequency)) == ScalarMap(kind, category, valueFrequency)
  {
    hide KindName, CategoryName, Label, Annotated;
    var one := [Note(KindKey, KindName(kind))];
    AnnotatedOne(map[], one[0]);
    var missing := Note(MissingKey, CategoryName(category));
    AddOptional(map[], one, category != NORMAL, missing);
    var two := one + Optional(category != NORMAL, missing);
    var members := Note(RepresentationKey, "members");
    AddOptional(map[], two, kind.Namelist?, members);
    if kind.Date? && valueFrequency.Some? {
      AddOptional(map[], two, true, Note(ValueFrequencyKey, Label(valueFrequency.value)));
    }
    assert two + [] == two;
  }

  lemma NaNsAreNaN()
    ensures IsNaN(Precision, DOUBLE_NAN) && IsNaN(Numeric, SINGLE_NAN)
  {
  }

  lemma ScalarMapFacts(kind: Kind, category: int, valueFrequency: Option<Frequency>)
    requires NORMAL <= category <= ND && (kind.Date? <==> valueFrequency.Some?)
    ensures var found := ScalarMap(kind, category, valueFrequency);
            var required := if kind.Date? then {KindKey, ValueFrequencyKey} else {KindKey};
            (!kind.Namelist? ==> Exactly(found, required, {MissingKey}))
            && (kind.Namelist? && category == NORMAL ==> Exactly(found, {KindKey, RepresentationKey}, {}))
            && (kind.Namelist? ==> RepresentationKey in found && found[RepresentationKey] == "members")
            && Tag(found) == Ok(category) && Lookup(found, ValueFrequencyKey) == ValueLabel(valueFrequency)
            && KindKey in found && found[KindKey] == KindName(kind) && FrequencyKey !in found
  {
    if category != NORMAL { CategoryNames(category); }
    hide KindName, CategoryName, Label, CategoryNamed;
  }

  lemma ScalarPayloadReads(name: string, kind: Kind, item: Option<Item>, category: int,
      valueFrequency: Option<Frequency>)
    requires GoodScalar(kind, item, category, valueFrequency)
    ensures var payload := ScalarPayload(kind, item, category != NORMAL);
            payload.Ok?
            && payload.value.Class() == (if kind.Namelist? then ArrayClass else ScalarClass)
            && ReadsAs(name, kind, item, category, valueFrequency, payload.value)
  {
    hide KindName, CategoryName, Label, LabelFrequency, CategoryNamed, IsNaN, GoodMembers, KindNamed, ScalarMap,
         Exactly, Tag,
         Lookup;
    NaNsAreNaN();
    ScalarMapFacts(kind, category, valueFrequency);
    if valueFrequency.Some? { LabelNames(valueFrequency.value); }
  }

  predicate ReadsAs(name: string, kind: Kind, item: Option<Item>, category: int, valueFrequency: Option<Frequency>,
      payload: Payload) {
    var found := ScalarMap(kind, category, valueFrequency);
    var value := if category == NORMAL then item else None;
    (if kind.Namelist? then ReadNames(name, found, payload) else ReadScalar(name, kind, found, payload))
    == Ok(MigratedScalar(name, kind, value, category, ValueLabel(valueFrequency)))
  }

  /** A stored scalar reads back as written: its value, or its missing category and no value. */
  lemma ScalarReads(store: Store, catalog: string, name: string, kind: Kind, item: Option<Item>, category: int,
                    valueFrequency: Option<Frequency>, limit: nat)
    requires GoodScalar(kind, item, category, valueFrequency) && PlainName(name) && GoodCatalog(catalog)
    requires CheckLayout(store, catalog).Ok?
    requires Written(store, ScalarCalls(CatalogPath(catalog, name), kind, item, category, valueFrequency), limit).1
    ensures var after := Written(store, ScalarCalls(CatalogPath(catalog, name), kind, item, category, valueFrequency),
              limit).0;
            ReadMigrated(after, catalog, name)
            == Ok(MigratedScalar(name, kind, if category == NORMAL then item else None, category,
                                 ValueLabel(valueFrequency)))
  {
    hide KindName, Label, LabelFrequency, KindNamed, CatalogPath, Run, Annotated, ScalarPayload, ScalarNotes,
         CheckLayout,
         ReadNames, ReadScalar, Notes, GoodScalar, ScalarMap, Exactly, Tag, Lookup;
    var path := CatalogPath(catalog, name);
    ScalarPayloadReads(name, kind, item, category, valueFrequency);
    ScalarNotesMap(kind, category, valueFrequency);
    ScalarMapFacts(kind, category, valueFrequency) by {
      ScalarBounds(kind, item, category, valueFrequency);
    }
    KindNames(kind);
    var payload := ScalarPayload(kind, item, category != NORMAL).value;
    var notes := ScalarNotes(kind, category, valueFrequency);
    CreatesOne(store, path, payload, notes, limit);
    var after := Run(store, [Create(path, payload)] + Notes(path, notes), limit).0;
    CatalogApart(catalog, name);
    LayoutKept(store, after, catalog);
  }

  lemma ScalarBounds(kind: Kind, item: Option<Item>, category: int, valueFrequency: Option<Frequency>)
    requires GoodScalar(kind, item, category, valueFrequency)
    ensures NORMAL <= category <= ND && (kind.Date? <==> valueFrequency.Some?)
  {
    hide ItemFits;
  }

  lemma LayoutKept(a: Store, b: Store, catalog: string)
    requires SameAt(a, b, catalog)
    ensures CheckLayout(a, catalog) == CheckLayout(b, catalog)
  {
    hide CountsAgree, Counts;
  }

  // -- nonempty series -----------------------------------------------------------------------------

  /** Dates and strings are absent exactly where a category is set. */
  predicate Aligned(c: Column, codes: seq<int>)
    requires |codes| == c.Length()
  {
    match c
    case Dates(_, moments) => forall i :: 0 <= i < |codes| ==> (codes[i] != NORMAL <==> moments[i].None?)
    case Lines(texts) => forall i :: 0 <= i < |codes| ==> (codes[i] != NORMAL <==> texts[i].None?)
    case _ => true
  }

  predicate GoodSeries(first: Moment, c: Column, codes: seq<int>, mask: bool) {
    && first.frequency.Valid() && |codes| == c.Length() && MaskCodes(codes) && Aligned(c, codes)
    && (c.Dates? ==> c.elements.Valid() && !c.elements.Unit? && AllFit(c.codes))
    && (AnyMarked(codes) ==> mask || IsFloat(c.Kind()))
  }

  /** A column with its placeholders: NaN or False at every missing position. */
  function Shown(c: Column, codes: seq<int>): Column
    requires |codes| == c.Length()
  {
    match c
    case Numbers(double, bits) => Numbers(double, Placed(bits, codes, CanonicalNaN(c.Kind())))
    case Truths(flags) => Truths(WordFlags(Placed(FlagWords(flags), codes, 0)))
    case _ => c
  }

  function Kept(codes: seq<int>, mask: bool): seq<int> {
    if mask then codes else Zeros(|codes|)
  }

  function SeriesMap(first: Moment, c: Column, codes: seq<int>, mask: bool): Attributes {
    var two := map[KindKey := KindName(c.Kind())][FrequencyKey := Label(first.frequency)];
    var three := if c.Dates? then two[ValueFrequencyKey := Label(c.elements)]
                 else if c.Lines? then two[FirstdateKey := Decimal(first.value)]
                 else two;
    var four := three[RepresentationKey := Representation(c, codes)];
    if AnyMarked(codes) && mask then four[MaskKey := "1"] else four
  }

  lemma SeriesNotesMap(first: Moment, c: Column, codes: seq<int>, mask: bool)
    ensures Annotated(map[], SeriesNotes(first, c, codes, mask)) == SeriesMap(first, c, codes, mask)
  {
    hide KindName, Label, Decimal, Representation, AnyMarked, Annotated;
    var one, two := Note(KindKey, KindName(c.Kind())), Note(FrequencyKey, Label(first.frequency));
    AnnotatedOne(map[], one);
    AddOptional(map[], [one], true, two);
    assert [one] + [two] == [one, two];
    var extra :=
      if c.Dates? then Note(ValueFrequencyKey, Label(c.elements)) else Note(FirstdateKey, Decimal(first.value));
    var three := [one, two] + Optional(c.Dates? || c.Lines?, extra);
    AddOptional(map[], [one, two], c.Dates? || c.Lines?, extra);
    var representation := Note(RepresentationKey, Representation(c, codes));
    AddOptional(map[], three, true, representation);
    AddOptional(map[], three + [representation], AnyMarked(codes) && mask, Note(MaskKey, "1"));
  }

  lemma SeriesMapFacts(first: Moment, c: Column, codes: seq<int>, mask: bool)
    ensures var found := SeriesMap(first, c, codes, mask);
            (c.Dates? ==> Exactly(found, {KindKey, FrequencyKey, RepresentationKey, ValueFrequencyKey}, {MaskKey}))
            && (c.Lines? ==> Exactly(found, {KindKey, FrequencyKey, RepresentationKey, FirstdateKey}, {MaskKey}))
            && (c.Numbers? || c.Truths? ==> Exactly(found, {KindKey, FrequencyKey, RepresentationKey}, {MaskKey}))
    ensures var found := SeriesMap(first, c, codes, mask);
            EmptyKey !in found && KindKey in found && FrequencyKey in found && RepresentationKey in found
            && found[KindKey] == KindName(c.Kind()) && found[FrequencyKey] == Label(first.frequency)
            && found[RepresentationKey] == Representation(c, codes)
            && (c.Dates? ==> ValueFrequencyKey in found && found[ValueFrequencyKey] == Label(c.elements))
            && (c.Lines? ==> FirstdateKey in found && found[FirstdateKey] == Decimal(first.value))
            && (MaskKey in found <==> AnyMarked(codes) && mask) && (MaskKey in found ==> found[MaskKey] == "1")
  {
    hide KindName, Label, Decimal, Representation, AnyMarked;
  }

  lemma UnmarkedIsZeros(codes: seq<int>)
    requires !AnyMarked(codes)
    ensures codes == Zeros(|codes|)
  {
    assert forall i :: 0 <= i < |codes| ==> codes[i] == NORMAL;
  }

  predicate StoredMask(store: Store, path: string, first: Moment, codes: seq<int>) {
    path in store && store[path].payload == WordSeries(first, Int8, codes)
  }

  /** The codes found next to a stored series are its categories, or all normal without a mask. */
  lemma CodesRead(store: Store, catalog: string, name: string, found: Attributes, first: Moment, codes: seq<int>,
      mask: bool)
    requires MaskCodes(codes)
    requires MaskKey in found <==> AnyMarked(codes) && mask
    requires MaskKey in found ==> found[MaskKey] == "1" && StoredMask(store, MaskPath(catalog, name), first, codes)
    requires MaskKey !in found ==> MaskPath(catalog, name) !in store
    ensures ReadCodes(store, catalog, name, found, first, |codes|) == Ok(Kept(codes, mask))
  {
    hide MaskPath;
    if !AnyMarked(codes) {
      UnmarkedIsZeros(codes);
    }
  }

  lemma PlainReads(store: Store, catalog: string, name: string, first: Moment, c: Column, codes: seq<int>, mask: bool)
    requires GoodSeries(first, c, codes, mask) && (c.Numbers? || c.Truths?)
    requires var found := SeriesMap(first, c, codes, mask);
             ReadCodes(store, catalog, name, found, first, |codes|) == Ok(Kept(codes, mask))
    ensures var found, kind := SeriesMap(first, c, codes, mask), c.Kind();
            SeriesPayload(first, c, codes).Ok?
            && ReadPlain(store, catalog, name, kind, found, SeriesPayload(first, c, codes).value)
            == Ok(MigratedSeries(name, kind, Some(Carrier(first, Shown(c, codes))), Kept(codes, mask),
                                 Label(first.frequency), None, "native"))
  {
    SeriesMapFacts(first, c, codes, mask);
    NaNsAreNaN();
    var found, kind, kept := SeriesMap(first, c, codes, mask), c.Kind(), Kept(codes, mask);
    var payload := SeriesPayload(first, c, codes).value;
    assert kept == codes || kept == Zeros(|codes|);
    hide SeriesMap, ReadCodes, Label, Exactly, KindName, AnyMarked, MaskCodes;
    hide IsNaN;
    assert payload.WordSeries? && payload.first == first && payload.dtype == KindDtype(kind)
           && |payload.words| == |codes|;
    if c.Truths? {
      assert HoldsAt(payload.words, kept, 0);
    } else {
      assert IsNaN(kind, CanonicalNaN(kind));
      assert NaNAt(kind, payload.words, kept);
    }
  }

  lemma LinesRead(store: Store, catalog: string, name: string, first: Moment, c: Column, codes: seq<int>)
    requires GoodSeries(first, c, codes, true) && c.Lines?
    requires var found := SeriesMap(first, c, codes, true);
             ReadCodes(store, catalog, name, found, first, |codes|) == Ok(codes)
    ensures var found := SeriesMap(first, c, codes, true);
            SeriesPayload(first, c, codes).Ok?
            && ReadStrings(store, catalog, name, found, first.frequency, SeriesPayload(first, c, codes).value)
            == Ok(MigratedSeries(name, String, Some(Carrier(first, c)), codes, Label(first.frequency), None, "text"))
  {
    SeriesMapFacts(first, c, codes, true);
    DecimalParses(first.value);
    hide SeriesMap, ReadCodes, Label, Exactly, KindName, AnyMarked, Decimal, ParseDecimal, MaskCodes;
    assert Present(TextOf(c.texts), codes) == c.texts;
  }

  lemma DatesRead(store: Store, catalog: string, name: string, first: Moment, c: Column, codes: seq<int>)
    requires GoodSeries(first, c, codes, true) && c.Dates?
    requires var found := SeriesMap(first, c, codes, true);
             ReadCodes(store, catalog, name, found, first, |codes|) == Ok(codes)
    ensures var found := SeriesMap(first, c, codes, true);
            SeriesPayload(first, c, codes).Ok?
            && SeriesPayload(first, c, codes).value.Class() == SeriesClass
            && ReadDates(store, catalog, name, found, SeriesPayload(first, c, codes).value)
            == Ok(MigratedSeries(name, Date, Some(Carrier(first, c)), codes, Label(first.frequency),
               Some(Label(c.elements)),
                                 Representation(c, codes)))
  {
    SeriesMapFacts(first, c, codes, true);
    LabelNames(c.elements);
    if !AnyMarked(codes) {
      UnmarkedIsZeros(codes);
    }
    hide SeriesMap, ReadCodes, Label, LabelFrequency, Exactly, KindName, AnyMarked, MaskCodes;
    assert Present(CodeWords(c.codes), codes) == c.codes;
  }

  /** What a stored series is read back as. */
  function SeriesAs(name: string, first: Moment, c: Column, codes: seq<int>, mask: bool): Migrated
    requires |codes| == c.Length()
  {
    MigratedSeries(name, c.Kind(), Some(Carrier(first, Shown(c, codes))), Kept(codes, mask), Label(first.frequency),
                   if c.Dates? then Some(Label(c.elements)) else None, Representation(c, codes))
  }

  lemma SeriesObjectReads(store: Store, catalog: string, name: string, first: Moment, c: Column, codes: seq<int>,
      mask: bool)
    requires GoodSeries(first, c, codes, mask)
    requires var found := SeriesMap(first, c, codes, mask);
             ReadCodes(store, catalog, name, found, first, |codes|) == Ok(Kept(codes, mask))
    ensures SeriesPayload(first, c, codes).Ok?
    ensures ReadObject(store, catalog, name, c.Kind(), SeriesMap(first, c, codes, mask),
              SeriesPayload(first, c, codes).value)
         == Ok(SeriesAs(name, first, c, codes, mask))
  {
    LabelNames(first.frequency);
    SeriesMapFacts(first, c, codes, mask);
    if c.Dates? || c.Lines? {
      MaskChoice(first, c, codes, mask);
      if c.Dates? {
        DatesRead(store, catalog, name, first, c, codes);
      } else {
        LinesRead(store, catalog, name, first, c, codes);
      }
    } else {
      PlainReads(store, catalog, name, first, c, codes, mask);
    }
    hide SeriesMap, ReadCodes, Label, LabelFrequency, Exactly, KindName, MaskCodes, ReadDates, ReadStrings, ReadPlain,
         Aligned,
         AllFit, ReadEmpty, ReadScalar, ReadNames, Kept, GoodSeries, AnyMarked;
  }

  /** Dates and strings are only written with their mask, or without anything missing. */
  lemma MaskChoice(first: Moment, c: Column, codes: seq<int>, mask: bool)
    requires GoodSeries(first, c, codes, mask) && !IsFloat(c.Kind())
    ensures SeriesMap(first, c, codes, mask) == SeriesMap(first, c, codes, true) && Kept(codes, mask) == codes
    ensures GoodSeries(first, c, codes, true)
  {
    hide Label, KindName, Representation, Decimal, Aligned;
    if !AnyMarked(codes) {
      UnmarkedIsZeros(codes);
    }
  }

  /** A stored series reads back with its first date, labels, values and categories; without a mask
      it keeps its values and loses only the categories. */
  lemma SeriesReads(store: Store, catalog: string, name: string, first: Moment, c: Column, codes: seq<int>, mask: bool,
      limit: nat)
    requires GoodSeries(first, c, codes, mask) && PlainName(name) && GoodCatalog(catalog)
    requires CheckLayout(store, catalog).Ok? && MaskPath(catalog, name) !in store
    requires Written(store, SeriesCalls(catalog, name, first, c, codes, mask), limit).1
    ensures var after := Written(store, SeriesCalls(catalog, name, first, c, codes, mask), limit).0;
            ReadMigrated(after, catalog, name) == Ok(SeriesAs(name, first, c, codes, mask))
  {
    hide KindName, Label, LabelFrequency, KindNamed, CatalogPath, MaskPath, Run, Annotated, SeriesPayload, SeriesNotes,
         CheckLayout,
         ReadObject, Notes, SeriesMap, Exactly, SeriesAs, ReadCodes, AnyMarked, Aligned;
    var path, side := CatalogPath(catalog, name), MaskPath(catalog, name);
    PathsApart(catalog, name, name);
    CatalogApart(catalog, name);
    SeriesNotesMap(first, c, codes, mask);
    SeriesMapFacts(first, c, codes, mask);
    KindNames(c.Kind());
    var payload := SeriesPayload(first, c, codes).value;
    var notes := SeriesNotes(first, c, codes, mask);
    var after := Written(store, SeriesCalls(catalog, name, first, c, codes, mask), limit).0;
    if AnyMarked(codes) && mask {
      CreatesTwo(store, path, payload, side, WordSeries(first, Int8, codes), notes, limit);
    } else {
      CreatesOne(store, path, payload, notes, limit);
      assert [Create(path, payload)] + [] + Notes(path, notes) == [Create(path, payload)] + Notes(path, notes);
    }
    CodesRead(after, catalog, name, SeriesMap(first, c, codes, mask), first, codes, mask);
    SeriesObjectReads(after, catalog, name, first, c, codes, mask);
    LayoutKept(store, after, catalog);
  }

  // -- empty series --------------------------------------------------------------------------------

  predicate GoodEmpty(kind: Kind, frequency: Frequency, valueFrequency: Option<Frequency>, first: Option<Moment>) {
    && !kind.Namelist? && frequency.Valid()
    && (kind.Date? <==> valueFrequency.Some?)
    && (valueFrequency.Some? ==> valueFrequency.value.Valid() && (first.Some? ==> !valueFrequency.value.Unit?))
    && (first.Some? ==> first.value.frequency == frequency)
  }

  function Mode(first: Option<Moment>): string {
    if first.Some? then "explicit_firstdate" else "unknown_firstdate"
  }

  function EmptyMap(kind: Kind, frequency: Frequency, valueFrequency: Option<Frequency>,
      first: Option<Moment>): Attributes {
    var two := map[KindKey := KindName(kind)][FrequencyKey := Label(frequency)];
    var three :=
      if kind.Date? && valueFrequency.Some? then two[ValueFrequencyKey := Label(valueFrequency.value)] else two;
    var four := three[EmptyKey := Mode(first)];
    if first.Some? && kind.String? then four[FirstdateKey := Decimal(first.value.value)] else four
  }

  lemma EmptyNotesMap(kind: Kind, frequency: Frequency, valueFrequency: Option<Frequency>, first: Option<Moment>)
    ensures Annotated(map[], EmptyNotes(kind, frequency, valueFrequency, first))
            == EmptyMap(kind, frequency, valueFrequency, first)
  {
    hide KindName, Label, Decimal, Annotated;
    var one, two := Note(KindKey, KindName(kind)), Note(FrequencyKey, Label(frequency));
    AnnotatedOne(map[], one);
    AddOptional(map[], [one], true, two);
    assert [one] + [two] == [one, two];
    var dated := kind.Date? && valueFrequency.Some?;
    var extra := Note(ValueFrequencyKey, if dated then Label(valueFrequency.value) else "");
    AddOptional(map[], [one, two], dated, extra);
    var three := [one, two] + Optional(dated, extra);
    AddOptional(map[], three, true, Note(EmptyKey, Mode(first)));
    var four := three + [Note(EmptyKey, Mode(first))];
    var explicit := first.Some? && kind.String?;
    AddOptional(map[], four, explicit, Note(FirstdateKey, if explicit then Decimal(first.value.value) else ""));
  }

  lemma EmptyMapFacts(kind: Kind, frequency: Frequency, valueFrequency: Option<Frequency>, first: Option<Moment>)
    requires kind.Date? <==> valueFrequency.Some?
    ensures var found := EmptyMap(kind, frequency, valueFrequency, first);
            var required := {KindKey, FrequencyKey, EmptyKey}
              + (if kind.Date? then {ValueFrequencyKey} else {})
              + (if kind.String? && first.Some? then {FirstdateKey} else {});
            Exactly(found, required, {})
    ensures var found := EmptyMap(kind, frequency, valueFrequency, first);
            EmptyKey in found && KindKey in found && FrequencyKey in found
            && found[KindKey] == KindName(kind) && found[FrequencyKey] == Label(frequency)
            && found[EmptyKey] == Mode(first)
            && Lookup(found, ValueFrequencyKey) == ValueLabel(valueFrequency)
            && (kind.Date? ==> ValueFrequencyKey in found && found[ValueFrequencyKey] == Label(valueFrequency.value))
            && (first.Some? && kind.String? ==>
                FirstdateKey in found && found[FirstdateKey] == Decimal(first.value.value))
  {
    hide KindName, Label, Decimal, Mode;
  }

  function EmptyAs(name: string, kind: Kind, frequency: Frequency, valueFrequency: Option<Frequency>,
      first: Option<Moment>): Migrated {
    var carrier :=
      if first.None? then None else Some(Carrier(first.value, EmptyColumn(kind, valueFrequency.GetOr(Unit))));
    MigratedSeries(name, kind, carrier, [], Label(frequency), ValueLabel(valueFrequency), "empty")
  }

  lemma ModesDiffer(first: Option<Moment>)
    ensures Mode(first) == "explicit_firstdate" <==> first.Some?
    ensures Mode(first) == "unknown_firstdate" <==> first.None?
  {
    assert "explicit_firstdate"[0] != "unknown_firstdate"[0];
  }

  lemma EmptyFirstReads(kind: Kind, frequency: Frequency, valueFrequency: Option<Frequency>, first: Option<Moment>,
      found: Attributes)
    requires GoodEmpty(kind, frequency, valueFrequency, first)
    requires EmptyKey in found && found[EmptyKey] == Mode(first)
    requires kind.Date? ==> ValueFrequencyKey in found && found[ValueFrequencyKey] == Label(valueFrequency.value)
    requires kind.String? && first.Some? ==> FirstdateKey in found && found[FirstdateKey] == Decimal(first.value.value)
    requires kind.String? && found[EmptyKey] == "explicit_firstdate" ==> FirstdateKey in found
    ensures EmptyFirst(kind, found, frequency, EmptyPayload(kind, valueFrequency, first)) == Ok(first)
  {
    ModesDiffer(first);
    hide KindName, Label, Mode, Decimal, ParseDecimal;
    if first.Some? && kind.String? { DecimalParses(first.value.value); }
  }

  lemma EmptySeriesReads(name: string, kind: Kind, frequency: Frequency, valueFrequency: Option<Frequency>,
      first: Option<Moment>)
    requires GoodEmpty(kind, frequency, valueFrequency, first)
    requires var found := EmptyMap(kind, frequency, valueFrequency, first); EmptyKey in found && FrequencyKey in found
    ensures ReadEmpty(name, kind, EmptyMap(kind, frequency, valueFrequency, first), frequency,
              EmptyPayload(kind, valueFrequency, first))
         == Ok(EmptyAs(name, kind, frequency, valueFrequency, first))
  {
    EmptyMapFacts(kind, frequency, valueFrequency, first);
    ModesDiffer(first);
    if valueFrequency.Some? { LabelNames(valueFrequency.value); }
    EmptyFirstReads(kind, frequency, valueFrequency, first, EmptyMap(kind, frequency, valueFrequency, first));
    hide KindName, Label, LabelFrequency, Decimal, EmptyMap, Exactly, Mode, EmptyFirst, EmptyPayload;
  }

  lemma EmptyObjectReads(store: Store, catalog: string, name: string, kind: Kind, frequency: Frequency,
                         valueFrequency: Option<Frequency>, first: Option<Moment>)
    requires GoodEmpty(kind, frequency, valueFrequency, first)
    ensures var found := EmptyMap(kind, frequency, valueFrequency, first);
            ReadObject(store, catalog, name, kind, found, EmptyPayload(kind, valueFrequency, first))
            == Ok(EmptyAs(name, kind, frequency, valueFrequency, first))
  {
    EmptyMapFacts(kind, frequency, valueFrequency, first);
    LabelNames(frequency);
    EmptySeriesReads(name, kind, frequency, valueFrequency, first);
    hide KindName, Label, LabelFrequency, EmptyMap, Exactly, Mode, ReadStrings, ReadDates, ReadPlain, ReadScalar,
         ReadNames,
         ReadEmpty, Lookup, EmptyPayload, EmptyAs;
  }

  /** An empty series reads back empty, with its labels, and with a first date only if one was given. */
  lemma EmptyReads(store: Store, catalog: string, name: string, kind: Kind, frequency: Frequency,
                   valueFrequency: Option<Frequency>, first: Option<Moment>, limit: nat)
    requires GoodEmpty(kind, frequency, valueFrequency, first) && PlainName(name) && GoodCatalog(catalog)
    requires CheckLayout(store, catalog).Ok?
    requires Written(store, EmptyCalls(CatalogPath(catalog, name), kind, frequency, valueFrequency, first), limit).1
    ensures var after := Written(store,
              EmptyCalls(CatalogPath(catalog, name), kind, frequency, valueFrequency, first), limit).0;
            ReadMigrated(after, catalog, name) == Ok(EmptyAs(name, kind, frequency, valueFrequency, first))
  {
    hide KindName, Label, LabelFrequency, KindNamed, CatalogPath, Run, Annotated, EmptyPayload, EmptyNotes, CheckLayout,
         ReadObject, Notes, EmptyMap, Exactly, EmptyAs, Mode, Lookup;
    var path := CatalogPath(catalog, name);
    CatalogApart(catalog, name);
    EmptyNotesMap(kind, frequency, valueFrequency, first);
    EmptyMapFacts(kind, frequency, valueFrequency, first);
    KindNames(kind);
    var payload := EmptyPayload(kind, valueFrequency, first);
    var notes := EmptyNotes(kind, frequency, valueFrequency, first);
    CreatesOne(store, path, payload, notes, limit);
    var after := Run(store, [Create(path, payload)] + Notes(path, notes), limit).0;
    EmptyObjectReads(after, catalog, name, kind, frequency, valueFrequency, first);
    LayoutKept(store, after, catalog);
  }
}
