/** What an object whose storing failed part way reads as (migration/_layout.py). */
module PartialWrites {
  import opened Wrappers
  import opened Frequencies
  import opened Carriers
  import opened DataEcon
  import opened Labels
  import opened Layout
  import opened Reader
  import opened LayoutTrips
  import opened Migrating
  import opened MigrationTrips
  import Values

  // -- what the calls made so far leave ------------------------------------------------------------

  function KeysOf(notes: seq<Note>): set<Key> {
    set n | n in notes :: n.key
  }

  lemma {:induction false} AnnotatedKeys(attributes: Attributes, notes: seq<Note>)
    ensures Annotated(attributes, notes).Keys == attributes.Keys + KeysOf(notes)
    decreases |notes|
  {
    if notes != [] {
      AnnotatedKeys(attributes[notes[0].key := notes[0].text], notes[1..]);
      assert notes == [notes[0]] + notes[1..];
    }
  }

  lemma {:induction false} FirstNoteStays(attributes: Attributes, first: Note, rest: seq<Note>)
    requires first.key !in KeysOf(rest)
    ensures first.key in Annotated(attributes, [first] + rest)
    ensures Annotated(attributes, [first] + rest)[first.key] == first.text
    decreases |rest|
  {
    var noted := attributes[first.key := first.text];
    assert ([first] + rest)[1..] == rest;
    if rest != [] {
      assert rest[0] in rest;
      var swapped := attributes[rest[0].key := rest[0].text];
      FirstNoteStays(swapped, first, rest[1..]);
      assert ([first] + rest[1..])[1..] == rest[1..];
      assert noted[rest[0].key := rest[0].text] == swapped[first.key := first.text];
    }
  }

  lemma {:induction false} NotesPartly(store: Store, path: string, notes: seq<Note>, limit: nat)
    requires path in store && limit <= |notes|
    ensures Run(store, Notes(path, notes), limit).0
         == store[path := store[path].(attributes := Annotated(store[path].attributes, notes[..limit]))]
    decreases |notes|
  {
    if notes == [] || limit == 0 {
      assert store == store[path := store[path]] && notes[..limit] == [];
    } else {
      var call := Describe(path, notes[0].key, notes[0].text);
      assert Notes(path, notes) == [call] + Notes(path, notes[1..]);
      RunFirst(store, call, Notes(path, notes[1..]), limit);
      NotesPartly(Done(store, call), path, notes[1..], limit - 1);
      assert notes[..limit][1..] == notes[1..][..limit - 1];
    }
  }

  lemma OnePartly(store: Store, path: string, payload: Payload, notes: seq<Note>, limit: nat)
    requires path !in store && limit <= |notes|
    ensures Run(store, [Create(path, payload)] + Notes(path, notes), limit).0
         == if limit == 0 then store else store[path := Node(payload, Annotated(map[], notes[..limit - 1]))]
  {
    hide Annotated;
    var create := Create(path, payload);
    RunFirst(store, create, Notes(path, notes), limit);
    if limit > 0 { NotesPartly(Done(store, create), path, notes, limit - 1); }
  }

  lemma TwoPartly(store: Store, path: string, payload: Payload, side: string, mask: Payload, notes: seq<Note>,
      limit: nat)
    requires path !in store && side !in store && path != side && 1 <= limit <= |notes| + 1
    ensures Run(store, [Create(path, payload)] + [Create(side, mask)] + Notes(path, notes), limit).0
         == if limit == 1 then store[path := Node(payload, map[])]
            else store[path := Node(payload, Annotated(map[], notes[..limit - 2]))][side := Node(mask, map[])]
  {
    hide Annotated;
    var create, second := Create(path, payload), Create(side, mask);
    assert [create] + [second] + Notes(path, notes) == [create] + ([second] + Notes(path, notes));
    RunFirst(store, create, [second] + Notes(path, notes), limit);
    var one := Done(store, create);
    RunFirst(one, second, Notes(path, notes), limit - 1);
    if limit > 1 { NotesPartly(Done(one, second), path, notes, limit - 2); }
  }

  // -- what the strict reader refuses --------------------------------------------------------------

  predicate Stored(store: Store, catalog: string, name: string, payload: Payload, a: Attributes) {
    CatalogPath(catalog, name) in store && store[CatalogPath(catalog, name)] == Node(payload, a)
  }

  lemma Unkinded(store: Store, catalog: string, name: string, payload: Payload, a: Attributes)
    requires Stored(store, catalog, name, payload, a) && KindKey !in a
    ensures ReadMigrated(store, catalog, name).Err?
  {
    hide CheckLayout, CatalogPath;
  }

  /** Without a representation and an empty mode only a scalar can be read. */
  lemma Formless(store: Store, catalog: string, name: string, payload: Payload, a: Attributes)
    requires Stored(store, catalog, name, payload, a)
    requires RepresentationKey !in a && EmptyKey !in a && payload.Class() != ScalarClass
    ensures ReadMigrated(store, catalog, name).Err?
  {
    hide CheckLayout, CatalogPath, LabelFrequency, ReadCodes, KindNamed, ReadScalar;
  }

  /** A nonempty series beside a mask it does not declare is refused. */
  lemma Undeclared(store: Store, catalog: string, name: string, payload: Payload, a: Attributes)
    requires Stored(store, catalog, name, payload, a) && MaskPath(catalog, name) in store
    requires FrequencyKey in a && EmptyKey !in a && MaskKey !in a
    ensures ReadMigrated(store, catalog, name).Err?
  {
    hide CheckLayout, CatalogPath, MaskPath, LabelFrequency, KindNamed, GoodMembers;
  }

  /** An empty text series that declares a first date is refused without one. */
  lemma Dateless(store: Store, catalog: string, name: string, payload: Payload, a: Attributes)
    requires Stored(store, catalog, name, payload, a) && FrequencyKey in a && FirstdateKey !in a
    requires KindKey in a && a[KindKey] == KindName(String) && EmptyKey in a && a[EmptyKey] == "explicit_firstdate"
    ensures ReadMigrated(store, catalog, name).Err?
  {
    KindNames(String);
    hide CheckLayout, CatalogPath, LabelFrequency, KindNamed, KindName, EmptyFirst;
  }

  // -- series --------------------------------------------------------------------------------------

  predicate FreshFor(store: Store, catalog: string, name: string) {
    PlainName(name) && CatalogPath(catalog, name) !in store && MaskPath(catalog, name) !in store
  }

  /** Where the attributes of a nonempty series are set: its representation after its frequency, a mask last. */
  lemma SeriesNoteOrder(first: Moment, c: Column, codes: seq<int>, mask: bool)
    ensures var notes := SeriesNotes(first, c, codes, mask);
            var last := if AnyMarked(codes) && mask then |notes| - 2 else |notes| - 1;
            1 < last && notes[1].key == FrequencyKey && notes[last].key == RepresentationKey
            && (AnyMarked(codes) && mask ==> notes[last + 1].key == MaskKey)
            && forall k :: 0 <= k < |notes| ==>
                 notes[k].key != EmptyKey && (notes[k].key == RepresentationKey ==> k == last)
                 && (notes[k].key == MaskKey ==> k == last + 1)
  {
    hide AnyMarked, Label, Decimal, KindName, Representation;
  }

  lemma PrefixLacks(notes: seq<Note>, n: nat, key: Key)
    requires n <= |notes| && forall k :: 0 <= k < n ==> notes[k].key != key
    ensures key !in Annotated(map[], notes[..n])
  {
    AnnotatedKeys(map[], notes[..n]);
  }

  lemma PrefixHas(notes: seq<Note>, n: nat, k: nat)
    requires k < n <= |notes|
    ensures notes[k].key in Annotated(map[], notes[..n])
  {
    AnnotatedKeys(map[], notes[..n]);
    assert notes[..n][k] in notes[..n];
  }

  lemma SeriesIsNoScalar(first: Moment, c: Column, codes: seq<int>)
    requires |codes| == c.Length() && SeriesPayload(first, c, codes).Ok?
    ensures SeriesPayload(first, c, codes).value.Class() != ScalarClass
  {
    hide AnyMarked, AllFit, AllPresent;
  }

  /** A nonempty series whose storing stopped before its last call does not read. */
  lemma SeriesPartly(store: Store, catalog: string, name: string, first: Moment, c: Column, codes: seq<int>,
      mask: bool, limit: nat)
    requires FreshFor(store, catalog, name) && SeriesCalls(catalog, name, first, c, codes, mask).Ok?
    requires limit < |SeriesCalls(catalog, name, first, c, codes, mask).value|
    ensures var calls := SeriesCalls(catalog, name, first, c, codes, mask).value;
            ReadMigrated(Run(store, calls, limit).0, catalog, name).Err?
  {
    hide CatalogPath, MaskPath, ReadMigrated, SeriesPayload, SeriesNotes, Annotated, Run, AnyMarked, Notes, PlainName;
    var path, side, notes := CatalogPath(catalog, name), MaskPath(catalog, name), SeriesNotes(first, c, codes, mask);
    var payload := SeriesPayload(first, c, codes).value;
    var after := Run(store, SeriesCalls(catalog, name, first, c, codes, mask).value, limit).0;
    PathsApart(catalog, name, name);
    SeriesNoteOrder(first, c, codes, mask);
    SeriesIsNoScalar(first, c, codes);
    if limit == 0 {
      NothingRun(store, SeriesCalls(catalog, name, first, c, codes, mask).value);
      Absent(store, catalog, name);
    } else if AnyMarked(codes) && mask {
      TwoPartly(store, path, payload, side, WordSeries(first, Int8, codes), notes, limit);
      if limit == 1 {
        Unkinded(after, catalog, name, payload, map[]);
      } else {
        var n := limit - 2;
        var a := Annotated(map[], notes[..n]);
        PrefixLacks(notes, n, EmptyKey);
        if n == |notes| - 1 {
          PrefixLacks(notes, n, MaskKey);
          PrefixHas(notes, n, 1);
          Undeclared(after, catalog, name, payload, a);
        } else {
          PrefixLacks(notes, n, RepresentationKey);
          Formless(after, catalog, name, payload, a);
        }
      }
    } else {
      assert [Create(path, payload)] + [] + Notes(path, notes) == [Create(path, payload)] + Notes(path, notes);
      OnePartly(store, path, payload, notes, limit);
      PrefixLacks(notes, limit - 1, EmptyKey);
      PrefixLacks(notes, limit - 1, RepresentationKey);
      Formless(after, catalog, name, payload, Annotated(map[], notes[..limit - 1]));
    }
  }

  lemma NothingRun(store: Store, calls: seq<Call>)
    ensures Run(store, calls, 0).0 == store
  {
  }

  lemma Absent(store: Store, catalog: string, name: string)
    requires CatalogPath(catalog, name) !in store
    ensures ReadMigrated(store, catalog, name).Err?
  {
    hide CheckLayout, CatalogPath;
  }

  /** The empty mode is set last, or just before the first date of texts. */
  lemma EmptyNoteOrder(kind: Kind, frequency: Frequency, valueFrequency: Option<Frequency>, first: Option<Moment>)
    ensures var notes := EmptyNotes(kind, frequency, valueFrequency, first);
            |notes| > 2 && (forall k :: 0 <= k < |notes| ==> notes[k].key != RepresentationKey)
            && if kind.String? && first.Some? then
                 |notes| == 4 && notes[0] == Note(KindKey, KindName(String)) && notes[1].key == FrequencyKey
                 && notes[2] == Note(EmptyKey, "explicit_firstdate") && notes[3].key == FirstdateKey
               else forall k :: 0 <= k < |notes| - 1 ==> notes[k].key != EmptyKey
  {
    hide Label, Decimal, KindName;
  }

  /** Everything of an empty text series but its first date. */
  lemma TextsDateless(store: Store, catalog: string, name: string, payload: Payload, notes: seq<Note>)
    requires Stored(store, catalog, name, payload, Annotated(map[], notes))
    requires |notes| == 3 && notes[0] == Note(KindKey, KindName(String)) && notes[1].key == FrequencyKey
    requires notes[2] == Note(EmptyKey, "explicit_firstdate")
    ensures ReadMigrated(store, catalog, name).Err?
  {
    hide CatalogPath, ReadMigrated, Annotated, KindName;
    assert notes == [notes[0]] + [notes[1], notes[2]] == [notes[0], notes[1]] + [notes[2]];
    FirstNoteStays(map[], notes[0], [notes[1], notes[2]]);
    AnnotatedAppend(map[], [notes[0], notes[1]], [notes[2]]);
    AnnotatedOne(Annotated(map[], [notes[0], notes[1]]), notes[2]);
    assert notes[..3] == notes;
    PrefixHas(notes, 3, 1);
    PrefixLacks(notes, 3, FirstdateKey);
    Dateless(store, catalog, name, payload, Annotated(map[], notes));
  }

  /** An empty series whose storing stopped before its last call does not read. */
  lemma EmptyPartly(store: Store, catalog: string, name: string, kind: Kind, frequency: Frequency,
      valueFrequency: Option<Frequency>, first: Option<Moment>, limit: nat)
    requires FreshFor(store, catalog, name)
    requires EmptyCalls(CatalogPath(catalog, name), kind, frequency, valueFrequency, first).Ok?
    requires limit < |EmptyCalls(CatalogPath(catalog, name), kind, frequency, valueFrequency, first).value|
    ensures var calls := EmptyCalls(CatalogPath(catalog, name), kind, frequency, valueFrequency, first).value;
            ReadMigrated(Run(store, calls, limit).0, catalog, name).Err?
  {
    hide CatalogPath, MaskPath, ReadMigrated, Annotated, Run, Notes, EmptyNotes, PlainName;
    var path, notes := CatalogPath(catalog, name), EmptyNotes(kind, frequency, valueFrequency, first);
    var payload := EmptyPayload(kind, valueFrequency, first);
    var calls := [Create(path, payload)] + Notes(path, notes);
    var after := Run(store, calls, limit).0;
    assert payload.Class() != ScalarClass;
    hide EmptyPayload;
    EmptyNoteOrder(kind, frequency, valueFrequency, first);
    if limit == 0 {
      NothingRun(store, calls);
      Absent(store, catalog, name);
    } else {
      OnePartly(store, path, payload, notes, limit);
      var n := limit - 1;
      PrefixLacks(notes, n, RepresentationKey);
      if n == 3 && kind.String? && first.Some? {
        TextsDateless(after, catalog, name, payload, notes[..3]);
      } else {
        PrefixLacks(notes, n, EmptyKey);
        Formless(after, catalog, name, payload, Annotated(map[], notes[..n]));
      }
    }
  }

  // -- scalars -------------------------------------------------------------------------------------

  /** A scalar with nothing but its kind. */
  lemma Untagged(store: Store, catalog: string, name: string, kind: Kind, payload: Payload)
    requires Stored(store, catalog, name, payload, map[KindKey := KindName(kind)]) && CheckLayout(store, catalog).Ok?
    requires !kind.Namelist? && payload.Class() == ScalarClass
    ensures ReadMigrated(store, catalog, name)
         == (var item := ScalarItem(kind, payload, NORMAL, None);
             if kind.Date? then Err(BadAttributes)
             else if item.Err? then Err(item.error)
             else Ok(MigratedScalar(name, kind, Some(item.value), NORMAL, None)))
  {
    KindNames(kind);
    var a: Attributes := map[KindKey := KindName(kind)];
    assert a.Keys == {KindKey};
    hide CheckLayout, CatalogPath, KindNamed, KindName, LabelFrequency, ScalarItem;
  }

  /** A date scalar needs the label of its frequency. */
  lemma Unlabelled(store: Store, catalog: string, name: string, payload: Payload, a: Attributes)
    requires Stored(store, catalog, name, payload, a)
    requires KindKey in a && a[KindKey] == KindName(Date) && ValueFrequencyKey !in a && FrequencyKey !in a
    ensures ReadMigrated(store, catalog, name).Err?
  {
    KindNames(Date);
    hide CheckLayout, CatalogPath, KindNamed, KindName, LabelFrequency, ScalarItem;
  }

  /** A name-list needs its representation. */
  lemma Unrepresented(store: Store, catalog: string, name: string, payload: Payload, a: Attributes)
    requires Stored(store, catalog, name, payload, a) && payload.TextArray?
    requires RepresentationKey !in a && FrequencyKey !in a
    ensures ReadMigrated(store, catalog, name).Err?
  {
    hide CheckLayout, CatalogPath, KindNamed, LabelFrequency, GoodMembers;
  }

  /** What a missing scalar is read as before its category is set. */
  function Mistaken(name: string, kind: Kind): Migrated {
    MigratedScalar(name, kind,
                   Some(match kind
                        case Precision => Number(DOUBLE_NAN)
                        case Numeric => Number(SINGLE_NAN)
                        case Boolean => Truth(false)
                        case _ => Line("")), NORMAL, None)
  }

  /** The call that sets the category is the only one whose failure leaves an object that reads. */
  predicate LosesCategory(kind: Kind, category: int, limit: nat) {
    category != NORMAL && !kind.Date? && !kind.Namelist? && limit == 2
  }

  lemma NamesPartly(store: Store, catalog: string, name: string, item: Option<Item>, category: int,
      valueFrequency: Option<Frequency>, limit: nat)
    requires CatalogPath(catalog, name) !in store
    requires ScalarCalls(CatalogPath(catalog, name), Namelist, item, category, valueFrequency).Ok?
    requires 0 < limit < |ScalarCalls(CatalogPath(catalog, name), Namelist, item, category, valueFrequency).value|
    ensures var calls := ScalarCalls(CatalogPath(catalog, name), Namelist, item, category, valueFrequency).value;
            ReadMigrated(Run(store, calls, limit).0, catalog, name).Err?
  {
    hide CatalogPath, MaskPath, ReadMigrated, Annotated, Run, Notes, Label, KindName, CategoryName;
    var path, notes := CatalogPath(catalog, name), ScalarNotes(Namelist, category, valueFrequency);
    var payload := ScalarPayload(Namelist, item, category != NORMAL).value;
    var after := Run(store, [Create(path, payload)] + Notes(path, notes), limit).0;
    OnePartly(store, path, payload, notes, limit);
    PrefixLacks(notes, limit - 1, RepresentationKey);
    PrefixLacks(notes, limit - 1, FrequencyKey);
    Unrepresented(after, catalog, name, payload, Annotated(map[], notes[..limit - 1]));
  }

  lemma DatePartly(store: Store, catalog: string, name: string, item: Option<Item>, category: int,
      valueFrequency: Option<Frequency>, limit: nat)
    requires CatalogPath(catalog, name) !in store
    requires ScalarCalls(CatalogPath(catalog, name), Date, item, category, valueFrequency).Ok?
    requires 0 < limit < |ScalarCalls(CatalogPath(catalog, name), Date, item, category, valueFrequency).value|
    ensures var calls := ScalarCalls(CatalogPath(catalog, name), Date, item, category, valueFrequency).value;
            ReadMigrated(Run(store, calls, limit).0, catalog, name).Err?
  {
    hide CatalogPath, MaskPath, ReadMigrated, Annotated, Run, Notes, Label, KindName, CategoryName;
    var path, notes := CatalogPath(catalog, name), ScalarNotes(Date, category, valueFrequency);
    var payload := ScalarPayload(Date, item, category != NORMAL).value;
    var after := Run(store, [Create(path, payload)] + Notes(path, notes), limit).0;
    OnePartly(store, path, payload, notes, limit);
    var n := limit - 1;
    var a := Annotated(map[], notes[..n]);
    PrefixLacks(notes, n, ValueFrequencyKey);
    PrefixLacks(notes, n, FrequencyKey);
    if n == 0 {
      PrefixLacks(notes, n, KindKey);
      Unkinded(after, catalog, name, payload, a);
    } else {
      assert notes[..n] == [notes[0]] + notes[1..n];
      FirstNoteStays(map[], notes[0], notes[1..n]);
      Unlabelled(after, catalog, name, payload, a);
    }
  }

  /** A scalar whose storing stopped before its last call does not read, except exactly a missing number, Boolean
      or text whose category is not set: it reads as a normal value. */
  lemma ScalarPartlyIff(store: Store, catalog: string, name: string, kind: Kind, item: Option<Item>, category: int,
      valueFrequency: Option<Frequency>, limit: nat)
    requires FreshFor(store, catalog, name) && GoodCatalog(catalog) && CheckLayout(store, catalog).Ok?
    requires ScalarCalls(CatalogPath(catalog, name), kind, item, category, valueFrequency).Ok?
    requires limit < |ScalarCalls(CatalogPath(catalog, name), kind, item, category, valueFrequency).value|
    ensures var calls := ScalarCalls(CatalogPath(catalog, name), kind, item, category, valueFrequency).value;
            var read := ReadMigrated(Run(store, calls, limit).0, catalog, name);
            (read.Ok? <==> LosesCategory(kind, category, limit)) && (read.Ok? ==> read.value == Mistaken(name, kind))
  {
    hide CatalogPath, MaskPath, ReadMigrated, Annotated, Run, Notes, Label, KindName, CategoryName, PlainName,
         CheckLayout, GoodCatalog;
    var path, notes := CatalogPath(catalog, name), ScalarNotes(kind, category, valueFrequency);
    var calls := ScalarCalls(path, kind, item, category, valueFrequency).value;
    if limit == 0 {
      NothingRun(store, calls);
      Absent(store, catalog, name);
    } else if kind.Namelist? {
      NamesPartly(store, catalog, name, item, category, valueFrequency, limit);
    } else if kind.Date? {
      DatePartly(store, catalog, name, item, category, valueFrequency, limit);
    } else {
      var payload := ScalarPayload(kind, item, category != NORMAL).value;
      var after := Run(store, calls, limit).0;
      OnePartly(store, path, payload, notes, limit);
      CatalogApart(catalog, name);
      LayoutKept(store, after, catalog);
      if limit == 1 {
        PrefixLacks(notes, 0, KindKey);
        Unkinded(after, catalog, name, payload, Annotated(map[], notes[..0]));
      } else {
        assert notes[..1] == [notes[0]];
        AnnotatedOne(map[], notes[0]);
        Untagged(after, catalog, name, kind, payload);
      }
    }
  }

  // -- migrations ------------------------------------------------------------------------------------

  /** A missing number, Boolean or text is migrated with its category, and the file fails at the call that would
      set it. */
  predicate LeavesValue(sess: Values.Session, job: Job, missing: Missing) {
    job.raw.RawScalar? && missing.Mask? && !job.raw.kind.Date? && !job.raw.kind.Namelist? && job.limit == 2
    && sess.sentinels.Of(job.raw.kind).Has(job.raw.value)
  }

  lemma LeavesValueIff(sess: Values.Session, job: Job, missing: Missing)
    requires job.raw.Constructible()
    ensures LeavesValue(sess, job, missing)
       <==> Convert(sess, job.raw, missing).Ok? && Convert(sess, job.raw, missing).value.OneValue?
            && var c := Convert(sess, job.raw, missing).value; LosesCategory(c.kind, c.category, job.limit)
    ensures Convert(sess, job.raw, missing).Ok? && Convert(sess, job.raw, missing).value.OneValue? ==>
            Convert(sess, job.raw, missing).value.kind == job.raw.kind
  {
    hide Bridged, IsNaN, TseconFrequency, CarrierOf, Codes;
  }

  /** A job that failed leaves nothing that reads, or exactly the mistaken value. */
  lemma JobPartlyIff(sess: Values.Session, store: Store, catalog: string, job: Job, missing: Missing)
    requires job.raw.Constructible() && FreshFor(store, catalog, job.name) && GoodCatalog(catalog)
    requires CheckLayout(store, catalog).Ok? && !RunJob(sess, store, catalog, job, missing).1
    ensures var read := ReadMigrated(RunJob(sess, store, catalog, job, missing).0, catalog, job.name);
            (read.Ok? <==> LeavesValue(sess, job, missing))
            && (read.Ok? ==> read.value == Mistaken(job.name, job.raw.kind))
  {
    hide CatalogPath, MaskPath, ReadMigrated, Convert, CheckLayout, PlainName, GoodCatalog, LeavesValue, LosesCategory,
         Run, ScalarCalls, SeriesCalls, EmptyCalls, Mistaken;
    LeavesValueIff(sess, job, missing);
    if JobCalls(sess, catalog, job, missing).Err? {
      Absent(store, catalog, job.name);
      if LeavesValue(sess, job, missing) { ConvertedIsStorable(sess, catalog, job, missing); }
    } else {
      StoredUnlessFailing(sess, store, catalog, job, missing);
      match Convert(sess, job.raw, missing).value
      case OneValue(kind, item, category, valueFrequency) =>
        ScalarPartlyIff(store, catalog, job.name, kind, item, category, valueFrequency, job.limit);
      case NoValues(kind, frequency, valueFrequency) =>
        EmptyPartly(store, catalog, job.name, kind, frequency, valueFrequency, job.supplied, job.limit);
      case ManyValues(first, column, codes) =>
        SeriesPartly(store, catalog, job.name, first, column, codes, missing.Mask?, job.limit);
    }
  }

  predicate ReadsPartly(sess: Values.Session, store: Store, catalog: string, job: Job, missing: Missing) {
    var read := ReadMigrated(store, catalog, job.name);
    (read.Ok? <==> LeavesValue(sess, job, missing))
    && (read.Ok? ==> read.value == Mistaken(job.name, job.raw.kind))
  }

  /** In any migration an object that was not stored does not read, except exactly a missing scalar that lost
      its category to the failing call: it reads as a normal value. */
  lemma {:induction false} FailedObjectsReadIff(sess: Values.Session, store: Store, catalog: string, jobs: seq<Job>,
      missing: Missing)
    requires CheckLayout(store, catalog).Ok? && GoodCatalog(catalog) && GoodJobs(store, catalog, jobs)
    ensures var (after, stored) := RunJobs(sess, store, catalog, jobs, missing);
            forall i :: 0 <= i < |jobs| && !stored[i] ==> ReadsPartly(sess, after, catalog, jobs[i], missing)
    decreases |jobs|
  {
    hide RunJob, CheckLayout, ReadMigrated, PlainName, LeavesValue, Mistaken, CatalogPath, MaskPath;
    if jobs != [] {
      var n := |jobs| - 1;
      FailedObjectsReadIff(sess, store, catalog, jobs[..n], missing);
      var before := RunJobs(sess, store, catalog, jobs[..n], missing);
      JobsLeaveOthers(sess, store, catalog, jobs[..n], missing, jobs[n].name);
      forall i | 0 <= i < n && !before.1[i]
        ensures ReadsPartly(sess, RunJob(sess, before.0, catalog, jobs[n], missing).0, catalog, jobs[i], missing)
      {
        OthersReadTheSame(sess, before.0, catalog, jobs[n], missing, jobs[i].name);
      }
      if !RunJob(sess, before.0, catalog, jobs[n], missing).1 {
        JobPartlyIff(sess, before.0, catalog, jobs[n], missing);
      }
    }
  }
}
