/** Whole migrations: every stored object reads back as an exact migration must leave it. */
module MigrationTrips {
  import opened Wrappers
  import opened Bytes
  import opened Frequencies
  import opened Carriers
  import opened DataEcon
  import opened Labels
  import opened Layout
  import opened Reader
  import opened LayoutTrips
  import opened Migrating
  import Values
  import NameLists

  // -- what conversion yields ------------------------------------------------------------------------

  lemma IndexKeepsFrequency(native: NativeCalendar, f: Frequency, index: int)
    ensures IndexToMit(native, f, index).Ok? ==> IndexToMit(native, f, index).value.frequency == f
  {
  }

  lemma GoodFrequency(code: int)
    requires TseconFrequency(code).Some? && code != CASE_CODE
    ensures TseconFrequency(code).value.Valid() && !TseconFrequency(code).value.Unit?
  {
  }

  lemma MembersStayGood(members: seq<Text>)
    requires forall m :: m in members ==> NameLists.ValidMember(m)
    ensures GoodMembers(MemberTexts(members))
  {
    forall i | 0 <= i < |members| ensures GoodMember(MemberTexts(members)[i]) {
      assert members[i] in members;
      MemberStaysGood(members[i]);
    }
  }

  lemma MemberStaysGood(m: Text)
    requires NameLists.ValidMember(m)
    ensures Values.DecodeAscii(m).Some? && GoodMember(Values.DecodeAscii(m).value)
  {
    var text := Values.DecodeAscii(m).value;
    assert Values.EncodeAscii(text).value == m;
  }

  /** A scalar that converts is one the writer can represent. */
  lemma ScalarIsGood(sess: Values.Session, raw: RawObject, missing: Missing)
    requires raw.RawScalar? && raw.Constructible() && ConvertScalar(sess, raw, missing).Ok?
    ensures var c := ConvertScalar(sess, raw, missing).value;
            c.OneValue? && GoodScalar(c.kind, c.item, c.category, c.valueFrequency)
  {
    hide IndexToMit, IsNaN, NameLists.Members, FameCode, GoodMembers, Values.DecodeAscii;
    if raw.kind.Namelist? {
      if raw.value.Chars? && NameLists.Members(raw.value.text).Some? {
        NameLists.ParserIsGrammar(raw.value.text, NameLists.Members(raw.value.text).value);
        MembersStayGood(NameLists.Members(raw.value.text).value);
      }
    } else if raw.kind.Date? {
      if TseconFrequency(raw.dateFrequency.value).Some? {
        GoodFrequency(raw.dateFrequency.value);
        IndexKeepsFrequency(sess.native, TseconFrequency(raw.dateFrequency.value).value, raw.value.bits);
      }
    }
    hide NameLists.ValidMember, MemberTexts, TseconFrequency;
  }

  lemma ScalarIsExpected(sess: Values.Session, raw: RawObject, name: string, missing: Missing, supplied: Option<Moment>)
    requires raw.RawScalar? && raw.Constructible() && ConvertScalar(sess, raw, missing).Ok?
    ensures var c := ConvertScalar(sess, raw, missing).value;
            c.OneValue? && Expected(sess, raw, name, missing, supplied)
            == Some(MigratedScalar(name, c.kind, if c.category == NORMAL then c.item else None, c.category,
                                   ValueLabel(c.valueFrequency)))
  {
    hide IndexToMit, IsNaN, NameLists.Members, FameCode, Values.DecodeAscii, MemberTexts, Label;
    if raw.kind.Date? && TseconFrequency(raw.dateFrequency.value).Some? {
      IndexKeepsFrequency(sess.native, TseconFrequency(raw.dateFrequency.value).value, raw.value.bits);
    }
    hide TseconFrequency;
  }

  // -- series ------------------------------------------------------------------------------------------

  /** A nonempty series that the bridge reads: its first date, its value frequency and its observations. */
  lemma ReadsObservations(sess: Values.Session, raw: RawObject)
    requires raw.RawSeries? && raw.values != [] && Bridged(sess, raw, Values.ToNan).Ok?
    ensures TseconFrequency(raw.frequency).Some? && Values.ValueFrequency(raw).Ok?
    ensures var f := TseconFrequency(raw.frequency).value;
            var first := IndexToMit(sess.native, f, raw.firstIndex);
            first.Ok? && first.value.frequency == f && f.Valid()
            && Values.Observations(sess, raw, first.value, Values.ValueFrequency(raw).value, Values.Ascii)
            == Ok(Bridged(sess, raw, Values.ToNan).value)
  {
    if TseconFrequency(raw.frequency).Some? {
      IndexKeepsFrequency(sess.native, TseconFrequency(raw.frequency).value, raw.firstIndex);
    }
    hide IndexToMit, TseconFrequency, Codes, Values.Observations, Values.ValueFrequency;
  }

  lemma CodesAreCategories(kind: Kind, values: seq<Datum>, t: Triplet)
    ensures MaskCodes(Codes(kind, values, t))
  {
  }

  lemma BlankedIsShown(kind: Kind, values: seq<Datum>, codes: seq<int>)
    requires |codes| == |values| && IsFloat(kind)
    ensures var c := Numbers(kind.Precision?, Values.Blanked(kind, values, codes)); Shown(c, codes) == c
  {
    var bits := Values.Blanked(kind, values, codes);
    assert Placed(bits, codes, CanonicalNaN(kind)) == bits;
  }

  predicate AsExpected(sess: Values.Session, raw: RawObject, name: string, missing: Missing, supplied: Option<Moment>,
      c: Converted) {
    c.ManyValues? && |c.codes| == c.column.Length()
    && ((c.column.Dates? ==> AllFit(c.column.codes)) ==> GoodSeries(c.first, c.column, c.codes, missing.Mask?))
    && Expected(sess, raw, name, missing, supplied) == Some(SeriesAs(name, c.first, c.column, c.codes, missing.Mask?))
  }

  lemma FloatsAreExpected(sess: Values.Session, raw: RawObject, name: string, missing: Missing,
      supplied: Option<Moment>)
    requires raw.RawSeries? && raw.values != [] && IsFloat(raw.kind) && ConvertSeries(sess, raw, missing).Ok?
    ensures AsExpected(sess, raw, name, missing, supplied, ConvertSeries(sess, raw, missing).value)
  {
    var codes := Codes(raw.kind, raw.values, sess.sentinels.Of(raw.kind));
    ReadsObservations(sess, raw);
    CodesAreCategories(raw.kind, raw.values, sess.sentinels.Of(raw.kind));
    BlankedIsShown(raw.kind, raw.values, codes);
    hide IndexToMit, TseconFrequency, Codes, Values.ValueFrequency, IsNaN, Label, Bridged, AnyMarked, Shown, MaskCodes;
  }

  lemma FlagsAreExpected(sess: Values.Session, raw: RawObject, name: string, missing: Missing, supplied: Option<Moment>)
    requires raw.RawSeries? && raw.values != [] && raw.kind.Boolean? && ConvertSeries(sess, raw, missing).Ok?
    ensures AsExpected(sess, raw, name, missing, supplied, ConvertSeries(sess, raw, missing).value)
  {
    var codes := Codes(Boolean, raw.values, sess.sentinels.boolean);
    var source := Source(sess, raw);
    ReadsObservations(sess, source);
    CodesAreCategories(Boolean, raw.values, sess.sentinels.boolean);
    var flags := Values.Flags(source.values);
    assert WordFlags(Placed(FlagWords(flags), codes, 0)) == FalseAt(Values.Flags(raw.values), codes);
    if !AnyMarked(codes) {
      UnmarkedIsZeros(codes);
    }
    hide IndexToMit, TseconFrequency, Codes, Values.ValueFrequency, Label, Bridged, AnyMarked, MaskCodes, Values.Flags,
         Placed,
         FlagWords, WordFlags, FalseAt;
  }

  lemma DateFrequencyIs(raw: RawObject)
    requires raw.RawSeries? && raw.kind.Date? && raw.Constructible() && Values.ValueFrequency(raw).Ok?
    ensures var f := Values.ValueFrequency(raw).value;
            f.Valid() && !f.Unit? && TseconFrequency(raw.dateFrequency.value) == Some(f)
  {
    GoodFrequency(raw.dateFrequency.value);
    hide TseconFrequency, Encodes;
  }

  lemma MomentsMatch(sess: Values.Session, f: Frequency, values: seq<Datum>, codes: seq<int>)
    requires |codes| == |values|
    ensures var moments := Values.ReadMoments(sess, f, values, codes);
            moments.Ok? ==> forall i :: 0 <= i < |codes| ==> (codes[i] != NORMAL <==> moments.value[i].None?)
  {
    hide IndexToMit;
    var moments := Values.ReadMoments(sess, f, values, codes);
    if moments.Ok? {
      forall i | 0 <= i < |codes| ensures codes[i] != NORMAL <==> moments.value[i].None? {
        assert Values.ReadMoment(sess, f, values[i], codes[i]) == Ok(moments.value[i]);
      }
    }
  }

  lemma DatesAreExpected(sess: Values.Session, raw: RawObject, name: string, missing: Missing, supplied: Option<Moment>)
    requires raw.RawSeries? && raw.values != [] && raw.kind.Date? && raw.Constructible()
             && ConvertSeries(sess, raw, missing).Ok?
    ensures AsExpected(sess, raw, name, missing, supplied, ConvertSeries(sess, raw, missing).value)
  {
    var t := sess.sentinels.index;
    var codes := Codes(Date, raw.values, t);
    ReadsObservations(sess, raw);
    DateFrequencyIs(raw);
    CodesAreCategories(Date, raw.values, t);
    var f := Values.ValueFrequency(raw).value;
    hide IndexToMit, TseconFrequency, Codes, Values.ValueFrequency, Label, Bridged, AnyMarked, MaskCodes,
         Values.ReadMoments, Values.ReadMoment, AllFit;
    MomentsMatch(sess, f, raw.values, codes);
    if !AnyMarked(codes) {
      UnmarkedIsZeros(codes);
    }
  }

  lemma TextsAreExpected(sess: Values.Session, raw: RawObject, name: string, missing: Missing, supplied: Option<Moment>)
    requires raw.RawSeries? && raw.values != [] && raw.kind.String? && ConvertSeries(sess, raw, missing).Ok?
    ensures AsExpected(sess, raw, name, missing, supplied, ConvertSeries(sess, raw, missing).value)
  {
    var t := sess.sentinels.text;
    var codes := Codes(String, raw.values, t);
    ReadsObservations(sess, raw);
    CodesAreCategories(String, raw.values, t);
    var texts := Values.ReadTexts(sess, Values.Ascii, raw.values, codes).value;
    forall i | 0 <= i < |codes| ensures codes[i] != NORMAL <==> PlainTexts(texts)[i].None? {
      assert Values.ReadText(sess, Values.Ascii, raw.values[i], codes[i]) == Ok(texts[i]);
    }
    if !AnyMarked(codes) {
      UnmarkedIsZeros(codes);
    }
    hide IndexToMit, TseconFrequency, Codes, Values.ValueFrequency, Label, Bridged, AnyMarked, MaskCodes,
         Values.ReadTexts,
         Values.ReadText, PlainTexts;
  }

  lemma SeriesIsExpected(sess: Values.Session, raw: RawObject, name: string, missing: Missing, supplied: Option<Moment>)
    requires raw.RawSeries? && raw.values != [] && raw.Constructible() && ConvertSeries(sess, raw, missing).Ok?
    ensures AsExpected(sess, raw, name, missing, supplied, ConvertSeries(sess, raw, missing).value)
  {
    hide ConvertSeries, AsExpected;
    if IsFloat(raw.kind) { FloatsAreExpected(sess, raw, name, missing, supplied); }
    else if raw.kind.Boolean? { FlagsAreExpected(sess, raw, name, missing, supplied); }
    else if raw.kind.Date? { DatesAreExpected(sess, raw, name, missing, supplied); }
    else { TextsAreExpected(sess, raw, name, missing, supplied); }
  }

  lemma EmptyIsExpected(sess: Values.Session, raw: RawObject, name: string, missing: Missing, supplied: Option<Moment>)
    requires raw.RawSeries? && raw.values == [] && raw.Constructible() && ConvertSeries(sess, raw, missing).Ok?
    requires var c := ConvertSeries(sess, raw, missing).value;
             c.NoValues? && (supplied.Some? ==> supplied.value.frequency == c.frequency)
    ensures var c := ConvertSeries(sess, raw, missing).value;
            GoodEmpty(c.kind, c.frequency, c.valueFrequency, supplied)
            && Expected(sess, raw, name, missing, supplied)
               == Some(EmptyAs(name, c.kind, c.frequency, c.valueFrequency, supplied))
  {
    if raw.dateFrequency.Some? && TseconFrequency(raw.dateFrequency.value).Some? {
      GoodFrequency(raw.dateFrequency.value);
    }
    hide TseconFrequency, Label;
    assert Zeros(0) == [];
    assert FalseAt([], []) == [] && MomentCodes([]) == [] && PlainTexts([]) == [];
  }

  // -- one object ----------------------------------------------------------------------------------------

  /** One planned object: its destination, what the source holds, a supplied first date, and after how
      many native calls the file fails. */
  datatype Job = Job(name: string, raw: RawObject, supplied: Option<Moment>, limit: nat)

  function JobCalls(sess: Values.Session, catalog: string, job: Job, missing: Missing): Result<seq<Call>, LayoutError> {
    match Convert(sess, job.raw, missing)
    case Err(_) => Err(NoRepresentation)
    case Ok(c) => StoreCalls(catalog, job.name, c, missing, job.supplied)
  }

  function RunJob(sess: Values.Session, store: Store, catalog: string, job: Job, missing: Missing): (Store, bool) {
    Written(store, JobCalls(sess, catalog, job, missing), job.limit)
  }

  predicate Fresh(store: Store, catalog: string, name: string) {
    CatalogPath(catalog, name) !in store && MaskPath(catalog, name) !in store
  }

  /** A stored object reads back as its exact migration. */
  lemma ObjectReadsBack(sess: Values.Session, store: Store, catalog: string, job: Job, missing: Missing)
    requires job.raw.Constructible() && PlainName(job.name) && GoodCatalog(catalog)
    requires CheckLayout(store, catalog).Ok? && Fresh(store, catalog, job.name)
    requires RunJob(sess, store, catalog, job, missing).1
    ensures var expected := Expected(sess, job.raw, job.name, missing, job.supplied);
            expected.Some?
            && ReadMigrated(RunJob(sess, store, catalog, job, missing).0, catalog, job.name) == Ok(expected.value)
  {
    hide ConvertScalar, ConvertSeries, Expected, ScalarCalls, EmptyCalls, SeriesCalls, Run, CheckLayout, ReadMigrated,
         MaskPath,
         CatalogPath, GoodScalar, GoodSeries, GoodEmpty;
    var name, supplied := job.name, job.supplied;
    var c := Convert(sess, job.raw, missing).value;
    match c
    case OneValue(kind, item, category, valueFrequency) =>
      ConvertShape(sess, job.raw, missing);
      ScalarIsGood(sess, job.raw, missing);
      ScalarIsExpected(sess, job.raw, name, missing, supplied);
      ScalarReads(store, catalog, name, kind, item, category, valueFrequency, job.limit);
    case NoValues(kind, frequency, valueFrequency) =>
      ConvertShape(sess, job.raw, missing);
      FirstFits(CatalogPath(catalog, name), kind, frequency, valueFrequency, supplied);
      EmptyIsExpected(sess, job.raw, name, missing, supplied);
      EmptyReads(store, catalog, name, kind, frequency, valueFrequency, supplied, job.limit);
    case ManyValues(first, column, codes) =>
      ConvertShape(sess, job.raw, missing);
      SeriesIsExpected(sess, job.raw, name, missing, supplied);
      DatesFit(catalog, name, first, column, codes, missing.Mask?);
      SeriesReads(store, catalog, name, first, column, codes, missing.Mask?, job.limit);
  }

  lemma ConvertShape(sess: Values.Session, raw: RawObject, missing: Missing)
    requires Convert(sess, raw, missing).Ok?
    ensures var c := Convert(sess, raw, missing).value;
            (c.OneValue? <==> raw.RawScalar?)
            && (raw.RawScalar? ==> Convert(sess, raw, missing) == ConvertScalar(sess, raw, missing))
            && (raw.RawSeries? ==> Convert(sess, raw, missing) == ConvertSeries(sess, raw, missing)
                                   && (c.NoValues? <==> raw.values == []))
  {
    hide Bridged, Codes, Code, TseconFrequency;
  }

  lemma FirstFits(path: string, kind: Kind, frequency: Frequency, valueFrequency: Option<Frequency>,
      supplied: Option<Moment>)
    requires EmptyCalls(path, kind, frequency, valueFrequency, supplied).Ok?
    ensures supplied.Some? ==> supplied.value.frequency == frequency
  {
  }

  lemma DatesFit(catalog: string, name: string, first: Moment, c: Column, codes: seq<int>, mask: bool)
    requires SeriesCalls(catalog, name, first, c, codes, mask).Ok?
    ensures c.Dates? ==> AllFit(c.codes)
  {
    hide AllFit;
  }

  /** What converts has a representation: only a first date of another frequency, or moments beyond 64
      bits, are refused. */
  lemma ConvertedIsStorable(sess: Values.Session, catalog: string, job: Job, missing: Missing)
    requires job.raw.Constructible() && Convert(sess, job.raw, missing).Ok?
    ensures var c := Convert(sess, job.raw, missing).value;
            JobCalls(sess, catalog, job, missing).Ok?
            <==> (c.NoValues? && job.supplied.Some? ==> job.supplied.value.frequency == c.frequency)
                 && (c.ManyValues? && c.column.Dates? ==> AllFit(c.column.codes))
  {
    hide ConvertScalar, ConvertSeries, Expected, CatalogPath, MaskPath, AllFit, ScalarNotes, SeriesNotes, EmptyNotes,
         AnyMarked,
         Label, IsNaN;
    var c := Convert(sess, job.raw, missing).value;
    ConvertShape(sess, job.raw, missing);
    match c
    case OneValue(kind, item, category, valueFrequency) =>
      ScalarIsGood(sess, job.raw, missing);
      hide GoodMembers;
    case NoValues(kind, frequency, valueFrequency) => EmptyKind(sess, job.raw, missing);
    case ManyValues(first, column, codes) =>
      SeriesIsExpected(sess, job.raw, job.name, missing, job.supplied);
      if column.Dates? && AllFit(column.codes) { PresentWhenUnmarked(column, codes); }
  }

  lemma EmptyKind(sess: Values.Session, raw: RawObject, missing: Missing)
    requires raw.RawSeries? && raw.values == [] && raw.Constructible() && ConvertSeries(sess, raw, missing).Ok?
    ensures var c := ConvertSeries(sess, raw, missing).value;
            c.NoValues? && !c.kind.Namelist? && (c.kind.Date? ==> c.valueFrequency.Some?)
  {
    hide TseconFrequency;
  }

  lemma PresentWhenUnmarked(c: Column, codes: seq<int>)
    requires |codes| == c.Length() && Aligned(c, codes) && c.Dates?
    ensures AnyMarked(codes) || AllPresent(c.codes)
  {
    if !AnyMarked(codes) {
      UnmarkedIsZeros(codes);
    }
  }

  /** An object with a representation is stored unless the file fails before its last call. */
  lemma StoredUnlessFailing(sess: Values.Session, store: Store, catalog: string, job: Job, missing: Missing)
    requires PlainName(job.name) && GoodCatalog(catalog) && Fresh(store, catalog, job.name)
    requires JobCalls(sess, catalog, job, missing).Ok?
    ensures RunJob(sess, store, catalog, job, missing).1 <==> job.limit >= |JobCalls(sess, catalog, job, missing).value|
  {
    hide Convert, CatalogPath, MaskPath, ScalarPayload, SeriesPayload, EmptyPayload, ScalarNotes, SeriesNotes,
         EmptyNotes, AnyMarked,
         Run, Notes;
    var c := Convert(sess, job.raw, missing).value;
    var path, side := CatalogPath(catalog, job.name), MaskPath(catalog, job.name);
    PathsApart(catalog, job.name, job.name);
    match c
    case OneValue(kind, item, category, valueFrequency) =>
      CreatesOne(store, path, ScalarPayload(kind, item, category != NORMAL).value,
          ScalarNotes(kind, category, valueFrequency), job.limit);
    case NoValues(kind, frequency, valueFrequency) =>
      CreatesOne(store, path, EmptyPayload(kind, valueFrequency, job.supplied),
                 EmptyNotes(kind, frequency, valueFrequency, job.supplied), job.limit);
    case ManyValues(first, column, codes) =>
      var payload, notes := SeriesPayload(first, column, codes).value, SeriesNotes(first, column, codes, missing.Mask?);
      if AnyMarked(codes) && missing.Mask? {
        CreatesTwo(store, path, payload, side, WordSeries(first, Int8, codes), notes, job.limit);
      } else {
        CreatesOne(store, path, payload, notes, job.limit);
        assert [Create(path, payload)] + [] + Notes(path, notes) == [Create(path, payload)] + Notes(path, notes);
      }
  }

  // -- the whole run -------------------------------------------------------------------------------------

  function RunJobs(sess: Values.Session, store: Store, catalog: string, jobs: seq<Job>,
      missing: Missing): (r: (Store, seq<bool>))
    ensures |r.1| == |jobs|
  {
    if jobs == [] then (store, [])
    else
      var n := |jobs| - 1;
      var before := RunJobs(sess, store, catalog, jobs[..n], missing);
      var last := RunJob(sess, before.0, catalog, jobs[n], missing);
      (last.0, before.1 + [last.1])
  }

  lemma CallsStayWithin(sess: Values.Session, catalog: string, job: Job, missing: Missing)
    requires JobCalls(sess, catalog, job, missing).Ok?
    ensures Within(JobCalls(sess, catalog, job, missing).value,
              {CatalogPath(catalog, job.name), MaskPath(catalog, job.name)})
  {
    hide Convert, ScalarPayload, SeriesPayload, EmptyPayload, ScalarNotes, SeriesNotes, EmptyNotes, AnyMarked,
         CatalogPath, MaskPath;
  }

  /** Storing one object, or failing halfway through, touches nothing but that object and its mask. */
  lemma JobLeavesOthers(sess: Values.Session, store: Store, catalog: string, job: Job, missing: Missing, path: string)
    requires path != CatalogPath(catalog, job.name) && path != MaskPath(catalog, job.name)
    ensures SameAt(store, RunJob(sess, store, catalog, job, missing).0, path)
  {
    hide JobCalls, CatalogPath, MaskPath;
    if JobCalls(sess, catalog, job, missing).Ok? {
      CallsStayWithin(sess, catalog, job, missing);
      RunLeavesOthers(store, JobCalls(sess, catalog, job, missing).value, job.limit,
                      {CatalogPath(catalog, job.name), MaskPath(catalog, job.name)}, path);
    }
  }

  /** Writing one object or its mask never changes what another reads as, however the writing ended. */
  lemma OthersReadTheSame(sess: Values.Session, store: Store, catalog: string, job: Job, missing: Missing,
      other: string)
    requires PlainName(job.name) && PlainName(other) && other != job.name && GoodCatalog(catalog)
    ensures ReadMigrated(RunJob(sess, store, catalog, job, missing).0, catalog, other)
            == ReadMigrated(store, catalog, other)
    ensures Fresh(store, catalog, other) ==> Fresh(RunJob(sess, store, catalog, job, missing).0, catalog, other)
    ensures CheckLayout(RunJob(sess, store, catalog, job, missing).0, catalog) == CheckLayout(store, catalog)
  {
    hide RunJob, ReadMigrated, CheckLayout, CatalogPath, MaskPath;
    PathsApart(catalog, job.name, other);
    PathsApart(catalog, other, job.name);
    CatalogApart(catalog, job.name);
    var after := RunJob(sess, store, catalog, job, missing).0;
    JobLeavesOthers(sess, store, catalog, job, missing, CatalogPath(catalog, other));
    JobLeavesOthers(sess, store, catalog, job, missing, MaskPath(catalog, other));
    JobLeavesOthers(sess, store, catalog, job, missing, catalog);
    ReadLocal(store, after, catalog, other);
    LayoutKept(store, after, catalog);
  }

  predicate GoodJobs(store: Store, catalog: string, jobs: seq<Job>) {
    && (forall i :: 0 <= i < |jobs| ==>
        jobs[i].raw.Constructible() && PlainName(jobs[i].name) && Fresh(store, catalog, jobs[i].name))
    && (forall i, j :: 0 <= i < j < |jobs| ==> jobs[i].name != jobs[j].name)
  }

  predicate ReadsBack(sess: Values.Session, store: Store, catalog: string, job: Job, missing: Missing) {
    var expected := Expected(sess, job.raw, job.name, missing, job.supplied);
    expected.Some? && ReadMigrated(store, catalog, job.name) == Ok(expected.value)
  }

  /** Names no job has stay unused, and the catalog keeps its attributes. */
  lemma {:induction false} JobsLeaveOthers(sess: Values.Session, store: Store, catalog: string, jobs: seq<Job>,
      missing: Missing, other: string)
    requires GoodCatalog(catalog) && PlainName(other)
    requires forall i :: 0 <= i < |jobs| ==> PlainName(jobs[i].name) && jobs[i].name != other
    ensures var after := RunJobs(sess, store, catalog, jobs, missing).0;
            (Fresh(store, catalog, other) ==> Fresh(after, catalog, other))
            && CheckLayout(after, catalog) == CheckLayout(store, catalog)
            && ReadMigrated(after, catalog, other) == ReadMigrated(store, catalog, other)
    decreases |jobs|
  {
    hide RunJob, Fresh, CheckLayout, ReadMigrated, PlainName;
    if jobs != [] {
      var n := |jobs| - 1;
      JobsLeaveOthers(sess, store, catalog, jobs[..n], missing, other);
      OthersReadTheSame(sess, RunJobs(sess, store, catalog, jobs[..n], missing).0, catalog, jobs[n], missing, other);
    }
  }

  /** For any objects with distinct destinations, every one that was stored reads back as the object an
      exact migration makes, whatever failed before, between or after. */
  lemma {:induction false} EveryObjectReadsBack(sess: Values.Session, store: Store, catalog: string, jobs: seq<Job>,
      missing: Missing)
    requires CheckLayout(store, catalog).Ok? && GoodCatalog(catalog) && GoodJobs(store, catalog, jobs)
    ensures var (after, stored) := RunJobs(sess, store, catalog, jobs, missing);
            forall i :: 0 <= i < |jobs| && stored[i] ==> ReadsBack(sess, after, catalog, jobs[i], missing)
    decreases |jobs|
  {
    hide RunJob, Fresh, CheckLayout, ReadMigrated, PlainName, Expected;
    if jobs != [] {
      var n := |jobs| - 1;
      EveryObjectReadsBack(sess, store, catalog, jobs[..n], missing);
      var before := RunJobs(sess, store, catalog, jobs[..n], missing);
      JobsLeaveOthers(sess, store, catalog, jobs[..n], missing, jobs[n].name);
      forall i | 0 <= i < n && before.1[i]
        ensures ReadsBack(sess, RunJob(sess, before.0, catalog, jobs[n], missing).0, catalog, jobs[i], missing)
      {
        OthersReadTheSame(sess, before.0, catalog, jobs[n], missing, jobs[i].name);
      }
      if RunJob(sess, before.0, catalog, jobs[n], missing).1 {
        ObjectReadsBack(sess, before.0, catalog, jobs[n], missing);
      }
    }
  }

  // -- what an exact migration keeps of the source -------------------------------------------------------

  /** At a normal observation the exact migration holds the source's value, at a missing one none. */
  predicate KeepsObservation(sess: Values.Session, raw: RawObject, code: int, c: Column, i: nat)
    requires raw.RawSeries? && i < |raw.values| && i < c.Length()
  {
    match c
    case Numbers(_, bits) =>
      if code != NORMAL then IsNaN(raw.kind, bits[i]) else raw.values[i] == Word(bits[i])
    case Truths(flags) => if code != NORMAL then !flags[i] else flags[i] == (raw.values[i] != Word(0))
    case Dates(f, moments) =>
      if code != NORMAL then moments[i].None?
      else moments[i].Some? && raw.values[i].Word?
           && IndexToMit(sess.native, f, raw.values[i].bits) == Ok(Moment(f, moments[i].value))
    case Lines(texts) =>
      if code != NORMAL then texts[i].None?
      else texts[i].Some? && raw.values[i].Chars? && Values.DecodeAscii(raw.values[i].text) == texts[i]
  }

  predicate KeepsAll(sess: Values.Session, raw: RawObject, codes: seq<int>, c: Column)
    requires raw.RawSeries? && |codes| == |raw.values|
  {
    c.Length() == |raw.values| && c.Kind() == raw.kind
    && forall i: nat :: i < |raw.values| ==> KeepsObservation(sess, raw, codes[i], c, i)
  }

  predicate KeepsSeries(sess: Values.Session, raw: RawObject, codes: seq<int>, m: Migrated, missing: Missing)
    requires raw.RawSeries? && |codes| == |raw.values|
  {
    m.MigratedSeries? && m.carrier.Some? && m.kind == raw.kind && KeepsAll(sess, raw, codes, m.carrier.value.column)
    && m.categories == (if missing.Nan? && IsFloat(raw.kind) then Zeros(|codes|) else codes)
  }

  /** The first date is the raw first index read at the series' frequency, and the labels name the frequencies. */
  predicate KeepsDates(sess: Values.Session, raw: RawObject, m: Migrated)
    requires raw.RawSeries? && m.MigratedSeries? && m.carrier.Some?
  {
    TseconFrequency(raw.frequency).Some?
    && m.indexLabel == Label(TseconFrequency(raw.frequency).value)
    && IndexToMit(sess.native, TseconFrequency(raw.frequency).value, raw.firstIndex) == Ok(m.carrier.value.first)
    && if raw.kind.Date? then
         m.carrier.value.column.Dates? && raw.dateFrequency.Some?
         && TseconFrequency(raw.dateFrequency.value) == Some(m.carrier.value.column.elements)
         && m.valueLabel == Some(Label(m.carrier.value.column.elements))
       else m.valueLabel.None?
  }

  lemma DatesKeep(sess: Values.Session, raw: RawObject, name: string, missing: Missing, supplied: Option<Moment>)
    requires raw.RawSeries? && raw.values != [] && raw.Constructible() && Convert(sess, raw, missing).Ok?
    requires Expected(sess, raw, name, missing, supplied).Some?
    requires Expected(sess, raw, name, missing, supplied).value.MigratedSeries?
    requires Expected(sess, raw, name, missing, supplied).value.carrier.Some?
    ensures KeepsDates(sess, raw, Expected(sess, raw, name, missing, supplied).value)
  {
    if TseconFrequency(raw.frequency).Some? {
      IndexKeepsFrequency(sess.native, TseconFrequency(raw.frequency).value, raw.firstIndex);
    }
    hide IndexToMit, TseconFrequency, Codes, Label, AnyMarked, Values.ReadMoments, Values.ReadTexts, Convert;
  }

  /** The raw scalar's value in its kind, or its category where it is missing, under the label of its dates. */
  predicate KeepsScalar(sess: Values.Session, raw: RawObject, m: Migrated, missing: Missing)
    requires raw.RawScalar?
  {
    var code := Code(raw.kind, raw.value, sess.sentinels.Of(raw.kind));
    m.MigratedScalar? && m.kind == raw.kind
    && (match raw.dateFrequency
        case None => m.valueLabel.None?
        case Some(f) => TseconFrequency(f).Some? && m.valueLabel == Some(Label(TseconFrequency(f).value)))
    && if code == NORMAL || raw.kind.Namelist? then
         m.category == NORMAL && m.value.Some? && HoldsScalar(sess, raw, m.value.value)
       else if missing.Mask? then m.category == code && m.value.None?
       else m.category == NORMAL && IsFloat(raw.kind) && m.value.Some? && m.value.value.Number?
            && IsNaN(raw.kind, m.value.value.bits)
  }

  predicate HoldsScalar(sess: Values.Session, raw: RawObject, item: Item)
    requires raw.RawScalar?
  {
    match item
    case Number(bits) => IsFloat(raw.kind) && raw.value == Word(bits)
    case Truth(b) => raw.kind.Boolean? && raw.value.Word? && b == (raw.value != Word(0))
    case Instant(moment) =>
      raw.kind.Date? && raw.value.Word? && raw.dateFrequency.Some? && TseconFrequency(raw.dateFrequency.value).Some?
      && IndexToMit(sess.native, TseconFrequency(raw.dateFrequency.value).value, raw.value.bits) == Ok(moment)
    case Line(text) => raw.kind.String? && raw.value.Chars? && Values.DecodeAscii(raw.value.text) == Some(text)
    case Members(names) =>
      raw.kind.Namelist? && raw.value.Chars? && NameLists.Members(raw.value.text).Some?
      && names == MemberTexts(NameLists.Members(raw.value.text).value)
  }

  /** The exact migration of a scalar keeps its value bit for bit, or its category. */
  lemma ScalarKeeps(sess: Values.Session, raw: RawObject, name: string, missing: Missing, supplied: Option<Moment>)
    requires raw.RawScalar? && raw.Constructible() && Convert(sess, raw, missing).Ok?
    ensures var expected := Expected(sess, raw, name, missing, supplied);
            expected.Some? && KeepsScalar(sess, raw, expected.value, missing)
  {
    NaNsAreNaN();
    hide IndexToMit, IsNaN, NameLists.Members, FameCode, Values.DecodeAscii, MemberTexts, Label;
    ScalarIsExpected(sess, raw, name, missing, supplied);
    if raw.kind.Date? && TseconFrequency(raw.dateFrequency.value).Some? {
      IndexKeepsFrequency(sess.native, TseconFrequency(raw.dateFrequency.value).value, raw.value.bits);
    }
    hide TseconFrequency;
  }

  lemma FloatsKeep(sess: Values.Session, raw: RawObject, codes: seq<int>)
    requires raw.RawSeries? && raw.Constructible() && IsFloat(raw.kind) && |codes| == |raw.values|
    ensures KeepsAll(sess, raw, codes, Numbers(raw.kind.Precision?, Values.Blanked(raw.kind, raw.values, codes)))
  {
    NaNsAreNaN();
    assert forall i :: 0 <= i < |raw.values| ==> Encodes(raw.kind, raw.values[i]) && raw.values[i].Word?;
    hide IsNaN, Encodes;
  }

  lemma MomentsKeep(sess: Values.Session, raw: RawObject, codes: seq<int>, f: Frequency, moments: seq<Option<Moment>>)
    requires raw.RawSeries? && raw.kind.Date? && |codes| == |raw.values|
    requires Values.ReadMoments(sess, f, raw.values, codes) == Ok(moments)
    ensures KeepsAll(sess, raw, codes, Column.Dates(f, MomentCodes(moments)))
  {
    forall i: nat | i < |raw.values|
      ensures KeepsObservation(sess, raw, codes[i], Column.Dates(f, MomentCodes(moments)), i)
    {
      assert Values.ReadMoment(sess, f, raw.values[i], codes[i]) == Ok(moments[i]);
      if raw.values[i].Word? {
        IndexKeepsFrequency(sess.native, f, raw.values[i].bits);
      }
      hide IndexToMit;
    }
  }

  lemma TextsKeep(sess: Values.Session, raw: RawObject, codes: seq<int>, texts: seq<Option<Values.Words>>)
    requires raw.RawSeries? && raw.kind.String? && |codes| == |raw.values|
    requires Values.ReadTexts(sess, Values.Ascii, raw.values, codes) == Ok(texts)
    ensures KeepsAll(sess, raw, codes, Lines(PlainTexts(texts)))
  {
    forall i: nat | i < |raw.values| ensures KeepsObservation(sess, raw, codes[i], Lines(PlainTexts(texts)), i) {
      assert Values.ReadText(sess, Values.Ascii, raw.values[i], codes[i]) == Ok(texts[i]);
    }
  }

  lemma FlagsKeep(sess: Values.Session, raw: RawObject, codes: seq<int>)
    requires raw.RawSeries? && raw.kind.Boolean? && |codes| == |raw.values|
    ensures KeepsAll(sess, raw, codes, Truths(FalseAt(Values.Flags(raw.values), codes)))
  {
  }

  /** Under the lossy policy only floating series can have missing observations at all. */
  lemma OnlyFloatsCollapse(sess: Values.Session, raw: RawObject, missing: Missing)
    requires raw.RawSeries? && raw.values != [] && Convert(sess, raw, missing).Ok? && !IsFloat(raw.kind)
    ensures var codes := Codes(raw.kind, raw.values, sess.sentinels.Of(raw.kind));
            Kept(codes, missing.Mask?) == codes
  {
    var codes := Codes(raw.kind, raw.values, sess.sentinels.Of(raw.kind));
    hide Bridged, Codes;
    if !AnyMarked(codes) {
      UnmarkedIsZeros(codes);
    }
  }

  /** The exact migration keeps every normal value bit for bit, the category of every position, the first
      date and the frequencies; the lossy policy keeps the values of floating series and loses only their categories. */
  lemma ExpectedKeeps(sess: Values.Session, raw: RawObject, name: string, missing: Missing, supplied: Option<Moment>)
    requires raw.RawSeries? && raw.values != [] && raw.Constructible() && Convert(sess, raw, missing).Ok?
    ensures var expected := Expected(sess, raw, name, missing, supplied);
            expected.Some?
            && KeepsSeries(sess, raw, Codes(raw.kind, raw.values, sess.sentinels.Of(raw.kind)), expected.value, missing)
            && KeepsDates(sess, raw, expected.value)
  {
    ObservationsKeep(sess, raw, name, missing, supplied);
    DatesKeep(sess, raw, name, missing, supplied);
    hide KeepsDates, KeepsAll, Expected, Codes;
  }

  lemma ObservationsKeep(sess: Values.Session, raw: RawObject, name: string, missing: Missing, supplied: Option<Moment>)
    requires raw.RawSeries? && raw.values != [] && raw.Constructible() && Convert(sess, raw, missing).Ok?
    ensures var expected := Expected(sess, raw, name, missing, supplied);
            expected.Some?
            && KeepsSeries(sess, raw, Codes(raw.kind, raw.values, sess.sentinels.Of(raw.kind)), expected.value, missing)
  {
    hide IndexToMit, TseconFrequency, Codes, Label, AnyMarked, IsNaN, Values.ReadMoments, Values.ReadTexts, KeepsAll;
    var codes := Codes(raw.kind, raw.values, sess.sentinels.Of(raw.kind));
    SeriesIsExpected(sess, raw, name, missing, supplied);
    if raw.kind.Boolean? {
      FlagsKeep(sess, raw, codes);
      OnlyFloatsCollapse(sess, raw, missing);
    } else {
      ReadsObservations(sess, raw);
      var v := Bridged(sess, raw, Values.ToNan).value;
      hide Values.ValueFrequency, Bridged;
      if IsFloat(raw.kind) {
        FloatsKeep(sess, raw, codes);
      } else if raw.kind.Date? {
        MomentsKeep(sess, raw, codes, Values.ValueFrequency(raw).value, v.items);
        OnlyFloatsCollapse(sess, raw, missing);
      } else {
        TextsKeep(sess, raw, codes, v.texts);
        OnlyFloatsCollapse(sess, raw, missing);
      }
    }
  }
}
