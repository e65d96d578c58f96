/** From a plan to its archive: what a planned migration stores reads back as planned. */
module PlannedRuns {
  import opened Wrappers
  import opened DataEcon
  import opened Layout
  import opened Reader
  import opened LayoutTrips
  import opened Names
  import opened Planning
  import opened Migrating
  import opened MigrationTrips
  import Values

  /** The decisions for all listed objects, before collisions are marked. */
  function Decided(infos: seq<Info>, options: Options): (r: seq<Entry>)
    ensures |r| == |infos| && forall i :: 0 <= i < |r| ==> r[i] == Decide(infos[i], options)
  {
    seq(|infos|, i requires 0 <= i < |infos| => Decide(infos[i], options))
  }

  /** A plan for listed objects. */
  function Plan(infos: seq<Info>, options: Options): seq<Entry> {
    Resolved(Decided(infos, options))
  }

  /** The listings at given positions. */
  function Chosen(listings: seq<Info>, order: seq<nat>): (r: seq<Info>)
    requires forall i :: 0 <= i < |order| ==> order[i] < |listings|
    ensures |r| == |order| && forall i :: 0 <= i < |r| ==> r[i] == listings[order[i]]
  {
    seq(|order|, i requires 0 <= i < |order| => listings[order[i]])
  }

  predicate Covered(listings: seq<Info>, order: seq<nat>, name: string)
    requires forall i :: 0 <= i < |order| ==> order[i] < |listings|
  {
    exists i :: 0 <= i < |order| && Upper(listings[order[i]].name) == name
  }

  /** The positions of the first listings of all names, by ascending name. */
  predicate FirstsInOrder(listings: seq<Info>, order: seq<nat>) {
    (forall i :: 0 <= i < |order| ==>
     order[i] < |listings| && FirstAt(listings, order[i], Upper(listings[order[i]].name)))
    && (forall i, j :: 0 <= i < j < |order| ==> Before(Upper(listings[order[i]].name), Upper(listings[order[j]].name)))
    && (forall k :: 0 <= k < |listings| ==> Covered(listings, order, Upper(listings[k].name)))
  }

  method DecideAll(infos: map<string, Info>, names: seq<string>, options: Options) returns (entries: seq<Entry>)
    requires forall s :: s in names ==> s in infos
    ensures |entries| == |names|
    ensures forall i :: 0 <= i < |names| ==> entries[i] == Decide(infos[names[i]], options)
  {
    hide Decide;
    entries := [];
    for n := 0 to |names|
      invariant |entries| == n
      invariant forall i :: 0 <= i < n ==> entries[i] == Decide(infos[names[i]], options)
    {
      entries := entries + [Decide(infos[names[n]], options)];
    }
  }

  /** The first listing of each name, the decisions in the order of the names, then the collisions. */
  method PlanMigration(listings: seq<Info>, options: Options) returns (plan: seq<Entry>, ghost order: seq<nat>)
    ensures forall i, j :: 0 <= i < j < |plan| ==> Before(plan[i].name, plan[j].name)
    ensures forall k :: 0 <= k < |listings| ==> Planned(plan, Upper(listings[k].name))
    ensures FirstsInOrder(listings, order)
    ensures plan == Plan(Chosen(listings, order), options)
  {
    hide Decide, Resolved, Before, FirstAt, FirstsInOrder, FirstListed, Listed, DistinctNames, Collides;
    var infos := CollectInfos(listings);
    var names := SortedNames(infos.Keys);
    order := Positions(listings, infos, names);
    var entries := DecideAll(infos, names, options);
    assert entries == Decided(Chosen(listings, order), options);
    EntriesDistinct(entries, names, Chosen(listings, order), options);
    plan := FindCollisions(entries);
    PlanNames(listings, order, plan, options);
  }

  predicate Planned(plan: seq<Entry>, name: string) {
    exists i :: 0 <= i < |plan| && plan[i].name == name
  }

  lemma PlanNames(listings: seq<Info>, order: seq<nat>, plan: seq<Entry>, options: Options)
    requires FirstsInOrder(listings, order) && plan == Plan(Chosen(listings, order), options)
    ensures forall i, j :: 0 <= i < j < |plan| ==> Before(plan[i].name, plan[j].name)
    ensures forall k :: 0 <= k < |listings| ==> Planned(plan, Upper(listings[k].name))
  {
    hide Decide, Before, FirstAt, Collides;
    forall i | 0 <= i < |plan| ensures plan[i].name == Upper(listings[order[i]].name) {
      DecideName(listings[order[i]], options);
    }
    forall k | 0 <= k < |listings| ensures Planned(plan, Upper(listings[k].name)) {
      assert Covered(listings, order, Upper(listings[k].name));
      var i :| 0 <= i < |order| && Upper(listings[order[i]].name) == Upper(listings[k].name);
      assert plan[i].name == Upper(listings[k].name);
    }
  }

  lemma EntriesDistinct(entries: seq<Entry>, names: seq<string>, infos: seq<Info>, options: Options)
    requires entries == Decided(infos, options) && |names| == |infos|
    requires forall i :: 0 <= i < |infos| ==> Upper(infos[i].name) == names[i]
    requires forall i, j :: 0 <= i < j < |names| ==> Before(names[i], names[j])
    ensures DistinctNames(entries)
  {
    forall i | 0 <= i < |infos| ensures entries[i].name == names[i] {
      DecideName(infos[i], options);
    }
    forall i, j | 0 <= i < j < |names| ensures names[i] != names[j] {
      BeforeIsTotal(names[i], names[j]);
    }
  }

  lemma DecideName(info: Info, options: Options)
    ensures Decide(info, options).name == Upper(info.name)
  {
  }

  /** Where each sorted name was first listed. */
  lemma Positions(listings: seq<Info>, infos: map<string, Info>, names: seq<string>) returns (order: seq<nat>)
    requires forall name :: name in infos <==> Listed(listings, |listings|, name)
    requires forall name :: name in infos ==> FirstListed(listings, |listings|, name, infos[name])
    requires forall s :: s in names <==> s in infos
    requires forall i, j :: 0 <= i < j < |names| ==> Before(names[i], names[j])
    ensures |order| == |names| && FirstsInOrder(listings, order)
    ensures forall i :: 0 <= i < |order| ==>
              order[i] < |listings| && listings[order[i]] == infos[names[i]]
              && Upper(listings[order[i]].name) == names[i]
  {
    order := [];
    for n := 0 to |names|
      invariant |order| == n
      invariant forall i :: 0 <= i < n ==>
                  order[i] < |listings| && listings[order[i]] == infos[names[i]]
                  && FirstAt(listings, order[i], names[i])
    {
      assert names[n] in names;
      assert FirstListed(listings, |listings|, names[n], infos[names[n]]);
      var k :| 0 <= k < |listings| && listings[k] == infos[names[n]] && FirstAt(listings, k, names[n]);
      order := order + [k];
    }
    hide Before;
    assert forall i :: 0 <= i < |order| ==> Upper(listings[order[i]].name) == names[i];
    forall i, j | 0 <= i < j < |order|
      ensures Before(Upper(listings[order[i]].name), Upper(listings[order[j]].name))
    {
      assert Before(names[i], names[j]);
    }
    forall k | 0 <= k < |listings|
      ensures Covered(listings, order, Upper(listings[k].name))
    {
      assert Listed(listings, |listings|, Upper(listings[k].name));
      var i :| 0 <= i < |names| && names[i] == Upper(listings[k].name);
      assert Upper(listings[order[i]].name) == Upper(listings[k].name);
    }
  }

  /** The jobs run the kept entries of a plan, each once and in order. */
  predicate Runs(plan: seq<Entry>, kept: seq<nat>, jobs: seq<Job>) {
    |kept| == |jobs|
    && (forall i, j :: 0 <= i < j < |kept| ==> kept[i] < kept[j])
    && forall i :: 0 <= i < |jobs| ==>
         kept[i] < |plan| && plan[kept[i]].action == Keep && plan[kept[i]].destination == Some(jobs[i].name)
         && jobs[i].raw.Constructible()
  }

  predicate ListedInfos(infos: seq<Info>, options: Options) {
    (forall i :: 0 <= i < |infos| ==> (infos[i].empty ==> infos[i].isSeries))
    && forall s :: s in options.firstdates ==> s.first.frequency.Valid()
  }

  predicate FreshArchive(store: Store, catalog: string) {
    CheckLayout(store, catalog).Ok? && GoodCatalog(catalog)
    && forall path :: path in store ==>
       path == catalog || path == CatalogPath(catalog, MASK_CATALOG) || !(catalog <= path)
  }

  lemma PathsStartWithCatalog(catalog: string, name: string)
    requires GoodCatalog(catalog)
    ensures catalog <= CatalogPath(catalog, name) && catalog <= MaskPath(catalog, name)
  {
    TrimmedPlain(catalog);
    MaskPathIs(catalog, name);
  }

  lemma PlannedJobsAreGood(infos: seq<Info>, options: Options, kept: seq<nat>, jobs: seq<Job>, store: Store,
      catalog: string)
    requires ListedInfos(infos, options) && Runs(Plan(infos, options), kept, jobs) && FreshArchive(store, catalog)
    ensures GoodJobs(store, catalog, jobs)
  {
    hide Decide, Storable, FirstdateFits, CheckLayout, PlainName, CatalogPath, MaskPath;
    var entries := Decided(infos, options);
    forall i | 0 <= i < |jobs| ensures PlainName(jobs[i].name) && Fresh(store, catalog, jobs[i].name) {
      KeptIffStorable(infos[kept[i]], options);
      CatalogApart(catalog, jobs[i].name);
      PathsStartWithCatalog(catalog, jobs[i].name);
    }
    forall i, j | 0 <= i < j < |jobs| ensures jobs[i].name != jobs[j].name {
      StoredAreApart(entries, kept[i], kept[j]);
    }
  }

  /** For any listing, options and failures: every object a planned migration stored reads back as its exact
      migration, and no other object got in its way. */
  lemma PlannedMigrationReadsBack(infos: seq<Info>, options: Options, kept: seq<nat>, jobs: seq<Job>,
      sess: Values.Session,
                                  store: Store, catalog: string, missing: Missing)
    requires ListedInfos(infos, options) && Runs(Plan(infos, options), kept, jobs) && FreshArchive(store, catalog)
    ensures var (after, stored) := RunJobs(sess, store, catalog, jobs, missing);
            forall i :: 0 <= i < |jobs| && stored[i] ==> ReadsBack(sess, after, catalog, jobs[i], missing)
  {
    PlannedJobsAreGood(infos, options, kept, jobs, store, catalog);
    EveryObjectReadsBack(sess, store, catalog, jobs, missing);
  }
}
