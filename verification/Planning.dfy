/** Planning a migration: per-object decisions and destination collisions (migration/_migrate.py). */
module Planning {
  import opened Wrappers
  import opened Frequencies
  import opened Carriers
  import opened Layout
  import opened Names

  /** Source metadata of one listed object. */
  datatype Info = Info(name: string, isSeries: bool, isScalar: bool, kind: Option<Kind>, frequency: int,
                       dateFrequency: Option<int>, empty: bool)

  /** What a user's naming function did: it can raise, or return something that is no text. */
  datatype Naming = Raised | NotText | Named(destination: string)

  datatype Supplied = Supplied(name: string, first: Moment)

  datatype Options = Options(namecase: string -> Naming, lossy: bool, skipUnsupported: bool, refuseEmpty: bool,
                             firstdates: seq<Supplied>)

  datatype Action = Keep | Skip | Refuse

  datatype Reason =
    | NoReason | UnsupportedClass | UnsupportedType | NamingRaised | InvalidName | UnsupportedIndex | UnsupportedValues
    | FirstdateUnneeded | FirstdateMismatch | EmptyRefused | Collision

  datatype Entry = Entry(name: string, destination: Option<string>, kind: Option<Kind>, frequency: Option<int>,
                         valueFrequency: Option<int>, empty: bool, action: Action, reason: Reason)

  // -- one object ----------------------------------------------------------------------------------

  /** The first date the options supply for a name, whatever its case. */
  function FirstdateFor(firstdates: seq<Supplied>, name: string): Option<Moment> {
    if firstdates == [] then None
    else if Upper(firstdates[0].name) == Upper(name) then Some(firstdates[0].first)
    else FirstdateFor(firstdates[1..], name)
  }

  /** What `str.strip` removes: the white space of Unicode and the four ASCII separators. */
  predicate IsBlank(c: char) {
    '\t' <= c <= '\r' || '\U{1C}' <= c <= ' ' || c == '\U{85}' || c == '\U{A0}' || c == '\U{1680}'
    || '\U{2000}' <= c <= '\U{200A}' || c == '\U{2028}' || c == '\U{2029}' || c == '\U{202F}' || c == '\U{205F}'
    || c == '\U{3000}'
  }

  /** A destination the layout can use: text that is not blank, without a separator or NUL, not reserved. */
  predicate ValidDestination(s: string) {
    (exists i :: 0 <= i < |s| && !IsBlank(s[i])) && '/' !in s && '\0' !in s && s != MASK_CATALOG
  }

  function Decide(info: Info, options: Options): Entry {
    var name := Upper(info.name);
    var unsupported := if options.skipUnsupported then Skip else Refuse;
    var frequency := if info.isSeries then Some(info.frequency) else None;
    if !info.isSeries && !info.isScalar then Entry(name, None, None, None, None, false, unsupported, UnsupportedClass)
    else if info.kind.None? then Entry(name, None, None, None, None, false, unsupported, UnsupportedType)
    else
      var base := Entry(name, None, info.kind, frequency, info.dateFrequency, info.empty, Keep, NoReason);
      match options.namecase(name)
      case Raised => base.(action := Refuse, reason := NamingRaised)
      case NotText => base.(action := Refuse, reason := InvalidName)
      case Named(destination) =>
        if !ValidDestination(destination) then base.(action := Refuse, reason := InvalidName)
        else Settle(base.(destination := Some(destination)), info, options, unsupported)
  }

  function Settle(base: Entry, info: Info, options: Options, unsupported: Action): Entry {
    var supplied := FirstdateFor(options.firstdates, Upper(info.name));
    if info.isSeries && TseconFrequency(info.frequency).None? then
      base.(action := unsupported, reason := UnsupportedIndex)
    else if info.dateFrequency.Some? && TseconFrequency(info.dateFrequency.value).None? then
      base.(action := unsupported, reason := UnsupportedValues)
    else if supplied.Some? && !info.empty then base.(action := Refuse, reason := FirstdateUnneeded)
    else if info.empty && supplied.Some? && FameCode(supplied.value.frequency) != info.frequency then
      base.(action := Refuse, reason := FirstdateMismatch)
    else if info.empty && options.refuseEmpty && supplied.None? then base.(action := Refuse, reason := EmptyRefused)
    else base
  }

  /** A scalar or series of a known type, under a usable destination, with supported frequencies. */
  predicate Storable(info: Info, options: Options) {
    (info.isSeries || info.isScalar) && info.kind.Some?
    && options.namecase(Upper(info.name)).Named? && ValidDestination(options.namecase(Upper(info.name)).destination)
    && (info.isSeries ==> TseconFrequency(info.frequency).Some?)
    && (info.dateFrequency.Some? ==> TseconFrequency(info.dateFrequency.value).Some?)
  }

  /** A first date is supplied only for an empty series of its frequency, and always if empties are refused. */
  predicate FirstdateFits(info: Info, options: Options) {
    match FirstdateFor(options.firstdates, Upper(info.name))
    case Some(first) => info.empty && info.isSeries && TseconFrequency(info.frequency) == Some(first.frequency)
    case None => !(info.empty && options.refuseEmpty)
  }

  /** An object is kept exactly when it is storable and its first date fits, and then its destination is a
      plain name; skipping happens only for unsupported objects, and only when the options ask for it. */
  lemma KeptIffStorable(info: Info, options: Options)
    requires info.empty ==> info.isSeries
    requires forall s :: s in options.firstdates ==> s.first.frequency.Valid()
    ensures var e := Decide(info, options);
            (e.action == Keep <==> Storable(info, options) && FirstdateFits(info, options))
            && (e.action == Keep ==>
                e.destination == Some(options.namecase(e.name).destination) && PlainName(e.destination.value))
            && (e.action == Skip ==> options.skipUnsupported && !Storable(info, options))
            && e.reason != Collision && e.name == Upper(info.name)
  {
    var supplied := FirstdateFor(options.firstdates, Upper(info.name));
    if supplied.Some? {
      SuppliedIsValid(options.firstdates, Upper(info.name));
      CodeNames(supplied.value.frequency);
    }
    hide FirstdateFor, TseconFrequency, FameCode;
  }

  /** The first date of a name is that of the first option under the name, whatever its case. */
  lemma {:induction false} FirstdateIsFirst(firstdates: seq<Supplied>, name: string)
    ensures FirstdateFor(firstdates, name).None?
       <==> forall i :: 0 <= i < |firstdates| ==> Upper(firstdates[i].name) != Upper(name)
    ensures FirstdateFor(firstdates, name).Some? ==>
            exists i :: 0 <= i < |firstdates| && Upper(firstdates[i].name) == Upper(name)
                        && FirstdateFor(firstdates, name).value == firstdates[i].first
                        && forall j :: 0 <= j < i ==> Upper(firstdates[j].name) != Upper(name)
    decreases |firstdates|
  {
    if firstdates != [] && Upper(firstdates[0].name) != Upper(name) {
      FirstdateIsFirst(firstdates[1..], name);
      assert forall i :: 0 < i < |firstdates| ==> firstdates[i] == firstdates[1..][i - 1];
      if FirstdateFor(firstdates, name).Some? {
        var i :| 0 <= i < |firstdates| - 1 && Upper(firstdates[1..][i].name) == Upper(name)
                 && FirstdateFor(firstdates, name).value == firstdates[1..][i].first
                 && forall j :: 0 <= j < i ==> Upper(firstdates[1..][j].name) != Upper(name);
        assert firstdates[i + 1] == firstdates[1..][i];
      }
    }
  }

  /** A class and type that migrate. */
  predicate Known(info: Info) {
    (info.isSeries || info.isScalar) && info.kind.Some?
  }

  predicate Supported(info: Info) {
    (info.isSeries ==> TseconFrequency(info.frequency).Some?)
    && (info.dateFrequency.Some? ==> TseconFrequency(info.dateFrequency.value).Some?)
  }

  /** Text that is not blank, has no separator and no NUL, and is not the catalog of the masks. */
  predicate Usable(naming: Naming) {
    naming.Named? && (exists i :: 0 <= i < |naming.destination| && !IsBlank(naming.destination[i]))
    && (forall i :: 0 <= i < |naming.destination| ==> naming.destination[i] != '/' && naming.destination[i] != '\0')
    && naming.destination != "famepy_migration_masks"
  }

  /** Every decision and its reason: what is skipped is unsupported and asked to be skipped, and each refusal is
      given for the first rule the object breaks. */
  lemma DecisionIff(info: Info, options: Options)
    ensures var e, naming := Decide(info, options), options.namecase(Upper(info.name));
            var first := FirstdateFor(options.firstdates, Upper(info.name));
            var stored := Known(info) && Usable(naming) && Supported(info);
            (e.action == Skip
             <==> options.skipUnsupported && (!Known(info) || (Usable(naming) && !Supported(info))))
            && (e.reason == NoReason <==> e.action == Keep)
            && (e.destination.Some? <==> Known(info) && Usable(naming))
            && (e.destination.Some? ==> e.destination.value == naming.destination)
            && (e.reason == NamingRaised <==> Known(info) && naming.Raised?)
            && (e.reason == InvalidName <==> Known(info) && !naming.Raised? && !Usable(naming))
            && (e.reason == FirstdateUnneeded <==> stored && first.Some? && !info.empty)
            && (e.reason == FirstdateMismatch
                <==> stored && first.Some? && info.empty && FameCode(first.value.frequency) != info.frequency)
            && (e.reason == EmptyRefused <==> stored && first.None? && info.empty && options.refuseEmpty)
            && (Known(info) ==>
                e.kind == info.kind && e.empty == info.empty && e.valueFrequency == info.dateFrequency
                && e.frequency == (if info.isSeries then Some(info.frequency) else None))
  {
    hide FirstdateFor, TseconFrequency, FameCode, IsBlank;
  }

  lemma CodeNames(f: Frequency)
    requires f.Valid()
    ensures TseconFrequency(FameCode(f)) == Some(f)
  {
  }

  lemma {:induction false} SuppliedIsValid(firstdates: seq<Supplied>, name: string)
    requires forall s :: s in firstdates ==> s.first.frequency.Valid()
    requires FirstdateFor(firstdates, name).Some?
    ensures FirstdateFor(firstdates, name).value.frequency.Valid()
    decreases |firstdates|
  {
    if Upper(firstdates[0].name) == Upper(name) {
      assert firstdates[0] in firstdates;
    } else {
      SuppliedIsValid(firstdates[1..], name);
    }
  }

  // -- listing ---------------------------------------------------------------------------------------

  /** Whether a name is among the first n listings, and first by which object. */
  predicate FirstListed(listings: seq<Info>, n: nat, name: string, info: Info) {
    exists i :: 0 <= i < n && i < |listings| && listings[i] == info && FirstAt(listings, i, name)
  }

  predicate FirstAt(listings: seq<Info>, i: nat, name: string)
    requires i < |listings|
  {
    Upper(listings[i].name) == name && forall j :: 0 <= j < i ==> Upper(listings[j].name) != name
  }

  predicate Listed(listings: seq<Info>, n: nat, name: string) {
    exists i :: 0 <= i < n && i < |listings| && Upper(listings[i].name) == name
  }

  lemma NewlyFirst(listings: seq<Info>, n: nat)
    requires n < |listings| && !Listed(listings, n, Upper(listings[n].name))
    ensures FirstListed(listings, n + 1, Upper(listings[n].name), listings[n])
  {
    assert FirstAt(listings, n, Upper(listings[n].name));
  }

  lemma ListedNext(listings: seq<Info>, n: nat)
    requires n < |listings|
    ensures forall name ::
              Listed(listings, n + 1, name) <==> Listed(listings, n, name) || name == Upper(listings[n].name)
    ensures forall name, info :: FirstListed(listings, n, name, info) ==> FirstListed(listings, n + 1, name, info)
  {
    hide FirstAt;
    forall name
      ensures Listed(listings, n + 1, name) <==> Listed(listings, n, name) || name == Upper(listings[n].name)
    {
      OneMore(listings, n, name);
    }
  }

  lemma OneMore(listings: seq<Info>, n: nat, name: string)
    requires n < |listings|
    ensures Listed(listings, n + 1, name) <==> Listed(listings, n, name) || name == Upper(listings[n].name)
  {
    if i :| 0 <= i < n + 1 && i < |listings| && Upper(listings[i].name) == name {
      assert i == n || Listed(listings, n, name);
    }
  }

  /** Overlapping patterns list an object more than once; the first listing stays. */
  method CollectInfos(listings: seq<Info>) returns (infos: map<string, Info>)
    ensures forall name :: name in infos <==> Listed(listings, |listings|, name)
    ensures forall name :: name in infos ==> FirstListed(listings, |listings|, name, infos[name])
  {
    hide FirstListed;
    infos := map[];
    for n := 0 to |listings|
      invariant forall name :: name in infos <==> Listed(listings, n, name)
      invariant forall name :: name in infos ==> FirstListed(listings, n, name, infos[name])
    {
      var name := Upper(listings[n].name);
      ListedNext(listings, n);
      if name !in infos {
        NewlyFirst(listings, n);
        infos := infos[name := listings[n]];
      }
    }
  }

  // -- sorted names ------------------------------------------------------------------------------------

  /** The code-point order of texts. */
  predicate Before(a: string, b: string) {
    b != [] && (a == [] || a[0] < b[0] || (a[0] == b[0] && Before(a[1..], b[1..])))
  }

  lemma {:induction false} BeforeIsTotal(a: string, b: string)
    ensures Before(a, b) || a == b || Before(b, a)
    ensures !Before(a, a) && !(Before(a, b) && Before(b, a))
    decreases |a|
  {
    if a != [] {
      BeforeIsTotal(a[1..], if b == [] then b else b[1..]);
      if b != [] && a[0] == b[0] {
        assert a == [a[0]] + a[1..] && b == [b[0]] + b[1..];
      }
    }
  }

  lemma {:induction false} BeforeChains(a: string, b: string, c: string)
    requires Before(a, b) && Before(b, c)
    ensures Before(a, c)
    decreases |a|
  {
    if a != [] && a[0] == b[0] && b[0] == c[0] {
      BeforeChains(a[1..], b[1..], c[1..]);
    }
  }

  method Least(names: set<string>) returns (least: string)
    requires names != {}
    ensures least in names && forall s :: s in names ==> s == least || Before(least, s)
  {
    least :| least in names;
    var rest := names - {least};
    while rest != {}
      invariant rest <= names && least in names
      invariant forall s :: s in names && s !in rest ==> s == least || Before(least, s)
      decreases |rest|
    {
      var next :| next in rest;
      rest := rest - {next};
      BeforeIsTotal(next, least);
      if Before(next, least) {
        forall s | s in names && Before(least, s) ensures Before(next, s) {
          BeforeChains(next, least, s);
        }
        least := next;
      }
    }
  }

  method SortedNames(names: set<string>) returns (r: seq<string>)
    ensures forall i, j :: 0 <= i < j < |r| ==> Before(r[i], r[j])
    ensures forall s :: s in r <==> s in names
  {
    r := [];
    var rest := names;
    while rest != {}
      invariant rest <= names
      invariant forall s :: s in names <==> s in r || s in rest
      invariant forall i, j :: 0 <= i < j < |r| ==> Before(r[i], r[j])
      invariant forall i, s :: 0 <= i < |r| && s in rest ==> Before(r[i], s)
      decreases |rest|
    {
      var least := Least(rest);
      r := r + [least];
      rest := rest - {least};
    }
  }

  // -- collisions --------------------------------------------------------------------------------------

  predicate Lands(e: Entry) {
    e.destination.Some? && e.action != Refuse
  }

  predicate Together(a: Entry, b: Entry) {
    Lands(a) && Lands(b) && a.destination == b.destination
  }

  /** Another object that is not refused lands on the same destination. */
  predicate Collides(entries: seq<Entry>, i: nat)
    requires i < |entries|
  {
    exists j :: 0 <= j < |entries| && j != i && Together(entries[i], entries[j])
  }

  function Resolved(entries: seq<Entry>): (r: seq<Entry>)
    ensures |r| == |entries|
    ensures forall i :: 0 <= i < |r| ==>
              r[i] == if Collides(entries, i) then entries[i].(action := Refuse, reason := Collision) else entries[i]
  {
    seq(|entries|, i requires 0 <= i < |entries| =>
      if Collides(entries, i) then entries[i].(action := Refuse, reason := Collision) else entries[i])
  }

  predicate DistinctNames(entries: seq<Entry>) {
    forall i, j :: 0 <= i < j < |entries| ==> entries[i].name != entries[j].name
  }

  predicate CollidesBefore(entries: seq<Entry>, i: int, n: int)
    requires 0 <= i < |entries|
  {
    exists j :: 0 <= j < n && j < |entries| && j != i && Together(entries[i], entries[j])
  }

  lemma CollisionIff(entries: seq<Entry>)
    ensures forall i :: 0 <= i < |entries| ==>
              (Collides(entries, i) <==> exists j :: 0 <= j < |entries| && j != i && Together(entries[i], entries[j]))
  {
  }

  /** One pass over the entries remembers the last object of each destination; an entry is refused as a
      collision exactly when another entry that is not refused lands on the same destination. */
  method FindCollisions(entries: seq<Entry>) returns (r: seq<Entry>)
    requires DistinctNames(entries)
    ensures r == Resolved(entries)
    ensures forall i :: 0 <= i < |r| && entries[i].reason != Collision ==>
              (r[i].reason == Collision
               <==> exists j :: 0 <= j < |entries| && j != i && Together(entries[i], entries[j]))
    ensures forall i :: 0 <= i < |r| ==>
              r[i] == entries[i] || r[i] == entries[i].(action := Refuse, reason := Collision)
  {
    hide CollidesBefore, Collides, DistinctNames, Together;
    NoneBefore(entries);
    var seen: map<string, string> := map[];
    var collided: set<string> := {};
    ghost var last: map<string, int> := map[];
    for n := 0 to |entries|
      invariant seen.Keys == last.Keys
      invariant forall d :: d in last ==> SeenAs(entries, n, seen[d], d, last[d])
      invariant forall i :: 0 <= i < n && Lands(entries[i]) ==> entries[i].destination.value in last
      invariant forall i :: 0 <= i < |entries| ==>
                  (entries[i].name in collided <==> i < n && CollidesBefore(entries, i, n))
    {
      var e := entries[n];
      ghost var was := collided;
      if Lands(e) {
        var d := e.destination.value;
        if d in seen {
          collided := collided + {seen[d], e.name};
        }
        PassKeeps(entries, n, last, was);
        last := last[d := n];
        seen := seen[d := e.name];
      } else {
        NothingLands(entries, n);
      }
    }
    BeforeAll(entries);
    CollisionIff(entries);
    r := seq(|entries|, i requires 0 <= i < |entries| =>
      if entries[i].name in collided then entries[i].(action := Refuse, reason := Collision) else entries[i]);
  }

  predicate SeenAs(entries: seq<Entry>, n: int, name: string, d: string, i: int) {
    0 <= i < n <= |entries| && entries[i].name == name && Lands(entries[i]) && entries[i].destination == Some(d)
  }

  lemma NewPartner(entries: seq<Entry>, i: nat, n: nat)
    requires i < n < |entries|
    ensures CollidesBefore(entries, i, n + 1) <==> CollidesBefore(entries, i, n) || Together(entries[i], entries[n])
  {
    if Together(entries[i], entries[n]) {
      assert n < n + 1 && n != i;
    }
  }

  lemma JoinsLast(entries: seq<Entry>, i: nat, n: nat, k: nat)
    requires i < n < |entries| && k < n && Together(entries[k], entries[n])
    ensures Together(entries[i], entries[n]) && i != k ==> CollidesBefore(entries, i, n)
  {
    if Together(entries[i], entries[n]) {
      assert Together(entries[i], entries[k]);
    }
  }

  lemma NoneBefore(entries: seq<Entry>)
    ensures forall i :: 0 <= i < |entries| ==> !CollidesBefore(entries, i, 0)
  {
  }

  lemma BeforeAll(entries: seq<Entry>)
    ensures forall i :: 0 <= i < |entries| ==> (CollidesBefore(entries, i, |entries|) <==> Collides(entries, i))
  {
  }

  lemma NothingLands(entries: seq<Entry>, n: nat)
    requires n < |entries| && !Lands(entries[n])
    ensures forall i :: 0 <= i < |entries| ==> (CollidesBefore(entries, i, n + 1) <==> CollidesBefore(entries, i, n))
    ensures !CollidesBefore(entries, n, n + 1)
  {
  }

  /** The last object of a destination stands for all of them: whoever joins it collides with it. */
  lemma PassKeeps(entries: seq<Entry>, n: nat, last: map<string, int>, collided: set<string>)
    requires n < |entries| && Lands(entries[n]) && DistinctNames(entries)
    requires forall d :: d in last ==>
             0 <= last[d] < n && Lands(entries[last[d]]) && entries[last[d]].destination == Some(d)
    requires forall i :: 0 <= i < n && Lands(entries[i]) ==> entries[i].destination.value in last
    requires forall i :: 0 <= i < |entries| ==>
             (entries[i].name in collided <==> i < n && CollidesBefore(entries, i, n))
    ensures var d := entries[n].destination.value;
            var after := if d in last then collided + {entries[last[d]].name, entries[n].name} else collided;
            forall i :: 0 <= i < |entries| ==>
                (entries[i].name in after <==> i < n + 1 && CollidesBefore(entries, i, n + 1))
  {
    var d := entries[n].destination.value;
    var after := if d in last then collided + {entries[last[d]].name, entries[n].name} else collided;
    forall i | 0 <= i < |entries| ensures entries[i].name in after <==> i < n + 1 && CollidesBefore(entries, i, n + 1) {
      if i == n {
        assert entries[n].name !in collided;
        if d in last { assert Together(entries[n], entries[last[d]]); }
        if CollidesBefore(entries, n, n + 1) {
          var j :| 0 <= j < n + 1 && j != n && Together(entries[n], entries[j]);
        }
      } else if i < n {
        if d in last && i == last[d] { assert Together(entries[i], entries[n]); }
        NewPartner(entries, i, n);
        if d in last { JoinsLast(entries, i, n, last[d]); }
      }
    }
  }

  // -- what a plan guarantees --------------------------------------------------------------------------

  lemma TogetherCollide(entries: seq<Entry>, i: nat, j: nat)
    requires i < |entries| && j < |entries| && i != j
    ensures Together(entries[i], entries[j]) ==> Collides(entries, i)
  {
  }

  /** No two objects a plan stores share a destination. */
  lemma StoredAreApart(entries: seq<Entry>, i: nat, j: nat)
    requires i < j < |entries| && Resolved(entries)[i].action == Keep == Resolved(entries)[j].action
    requires Resolved(entries)[i].destination.Some?
    ensures Resolved(entries)[i].destination != Resolved(entries)[j].destination
  {
    TogetherCollide(entries, i, j);
  }

  /** The default naming keeps names apart: lower-casing distinct upper-case names never collides. */
  lemma DefaultNeverCollides(entries: seq<Entry>, i: nat)
    requires i < |entries| && DistinctNames(entries)
    requires forall k :: 0 <= k < |entries| ==> Upper(entries[k].name) == entries[k].name
    requires forall k :: 0 <= k < |entries| && entries[k].destination.Some? ==>
             entries[k].destination.value == Lower(entries[k].name)
    ensures !Collides(entries, i)
  {
    forall j | 0 <= j < |entries| && j != i ensures !Together(entries[i], entries[j]) {
      if Together(entries[i], entries[j]) {
        LowerApart(entries[i].name, entries[j].name);
      }
    }
  }

  lemma LowerApart(a: string, b: string)
    requires Upper(a) == a && Upper(b) == b && Lower(a) == Lower(b)
    ensures a == b
  {
    assert |a| == |b|;
    forall i | 0 <= i < |a| ensures a[i] == b[i] {
      assert Lower(a)[i] == Lower(b)[i] && Upper(a)[i] == a[i] && Upper(b)[i] == b[i];
    }
  }
}
