/** A listing call by call: option setting, the cursor loop and the cleanup on every exit (_wildcard.py). */
module ListingRun {
  import opened Wrappers
  import opened Selection

  /** How a native call ends: done, a status, a name too long for the buffer, an error that is no library
      status, or an interrupt (an exception that is not even an error). */
  datatype Response = Done | Status | Truncated | Error | Interrupt {
    /** No reset contains it. */
    predicate Escapes() {
      Error? || Interrupt?
    }
  }

  datatype Request = SetItem(name: OptionName, on: bool) | Init | Next | Requery | Free

  datatype Attempt = Attempt(request: Request, response: Response)

  const ITEMS: seq<Item> := [ItemClass, ItemType, ItemFrequency, ItemIndex, ItemAlias]

  function Reset(k: nat): Request
    requires k < 5
  {
    SetItem(Whole(ITEMS[k]), true)
  }

  /** The five resets to ON, in order. */
  function Resets(): (r: seq<Request>)
    ensures |r| == 5 && forall k :: 0 <= k < 5 ==> r[k] == Reset(k)
  {
    seq(5, k requires 0 <= k < 5 => Reset(k))
  }

  // -- what a trace of attempts says ---------------------------------------------------------------

  function FirstFailure(t: seq<Attempt>): (r: Option<nat>)
    ensures r.None? <==> forall i :: 0 <= i < |t| ==> t[i].response.Done?
    ensures r.Some? ==>
              r.value < |t| && !t[r.value].response.Done? && forall i :: 0 <= i < r.value ==> t[i].response.Done?
  {
    if t == [] then None
    else
      var before := FirstFailure(t[..|t| - 1]);
      if before.Some? then before
      else if t[|t| - 1].response.Done? then (assert t == t[..|t| - 1] + [t[|t| - 1]]; None)
      else Some(|t| - 1)
  }

  /** The cleanup calls: the cursor if one was held, then the five resets. */
  function Cleanup(held: bool): seq<Request> {
    (if held then [Free] else []) + Resets()
  }

  predicate Requests(t: seq<Attempt>, requests: seq<Request>) {
    |t| == |requests| && forall i :: 0 <= i < |t| ==> t[i].request == requests[i]
  }

  predicate NoneEscapes(t: seq<Attempt>) {
    forall i :: 0 <= i < |t| ==> !t[i].response.Escapes()
  }

  /** Where the resets begin. */
  function ResetsFrom(body: nat, held: bool): nat {
    body + if held then 1 else 0
  }

  /** The cleanup follows the body in order; only a reset that fails without a status ends it early. */
  predicate CleanedUp(t: seq<Attempt>, body: nat, held: bool) {
    var requests, resets := Cleanup(held), ResetsFrom(body, held);
    body <= |t| <= body + |requests| && Requests(t[body..], requests[..|t| - body])
    && (|t| < body + |requests| ==> |t| > resets && t[|t| - 1].response.Escapes())
    && forall i :: resets <= i < |t| - 1 ==> !t[i].response.Escapes()
  }

  /** The call whose failure propagates: a reset that fails without a status wins over anything before it,
      and so does an interrupt while the cursor is freed; an error there counts only if nothing failed before. */
  function Propagates(t: seq<Attempt>, body: nat, held: bool): Option<nat> {
    if |t| > ResetsFrom(body, held) && t[|t| - 1].response.Escapes() then Some(|t| - 1)
    else if held && body < |t| && t[body].response.Interrupt? then Some(body)
    else FirstFailure(t)
  }

  /** A cleanup call whose failure no handler contains. */
  predicate Overrides(t: seq<Attempt>, body: nat, held: bool, i: nat) {
    body <= i < |t| && (t[i].response.Interrupt? || (t[i].response.Error? && i >= ResetsFrom(body, held)))
  }

  /** Every reset is attempted exactly when none but the last fails in a way the loop does not contain;
      whatever happens to the release of the cursor, the resets follow. */
  lemma EveryResetIff(t: seq<Attempt>, body: nat, held: bool)
    requires CleanedUp(t, body, held)
    ensures Requests(t[body..], Cleanup(held))
       <==> forall i :: ResetsFrom(body, held) <= i < |t| && i < ResetsFrom(body, held) + 4 ==> !t[i].response.Escapes()
  {
    var requests := Cleanup(held);
    assert requests[..|requests|] == requests;
    if |t| < body + |requests| {
      assert t[|t| - 1].response.Escapes();
    }
  }

  predicate OverridesLater(t: seq<Attempt>, body: nat, held: bool, i: nat) {
    Overrides(t, body, held, i) && exists j :: 0 <= j < i && !t[j].response.Done?
  }

  lemma LostBehindOverride(t: seq<Attempt>, body: nat, held: bool)
    requires CleanedUp(t, body, held) && Propagates(t, body, held) != FirstFailure(t)
    ensures Propagates(t, body, held).Some? && OverridesLater(t, body, held, Propagates(t, body, held).value)
  {
    hide FirstFailure, CleanedUp;
  }

  lemma OverrideLoses(t: seq<Attempt>, body: nat, held: bool, i: nat)
    requires CleanedUp(t, body, held) && OverridesLater(t, body, held, i)
    ensures Propagates(t, body, held) != FirstFailure(t)
  {
    hide FirstFailure, Requests;
    var first := FirstFailure(t);
    assert first.Some? && first.value < i;
    if i != body || !held {
      assert i == |t| - 1;
    }
  }

  /** The first failure is lost exactly when a later cleanup call fails in a way no handler contains. */
  lemma FirstLostIff(t: seq<Attempt>, body: nat, held: bool)
    requires CleanedUp(t, body, held)
    ensures Propagates(t, body, held) != FirstFailure(t) <==> exists i: nat :: OverridesLater(t, body, held, i)
  {
    hide Propagates, FirstFailure, CleanedUp, OverridesLater;
    if Propagates(t, body, held) != FirstFailure(t) {
      LostBehindOverride(t, body, held);
    }
    if i: nat :| OverridesLater(t, body, held, i) {
      OverrideLoses(t, body, held, i);
    }
  }

  /** The whole cleanup is attempted and the first failure propagates exactly when no reset before the
      last fails without a status and no cleanup call overrides an earlier failure. */
  lemma CleanupPromiseIff(t: seq<Attempt>, body: nat, held: bool)
    requires CleanedUp(t, body, held)
    ensures Requests(t[body..], Cleanup(held)) && Propagates(t, body, held) == FirstFailure(t)
       <==> (forall i :: ResetsFrom(body, held) <= i < |t| && i < ResetsFrom(body, held) + 4 ==>
               !t[i].response.Escapes())
            && !exists i: nat :: OverridesLater(t, body, held, i)
  {
    EveryResetIff(t, body, held);
    FirstLostIff(t, body, held);
    hide *;
  }

  /** Status at the alias option, then an interrupt in the second reset: three resets are never tried, and
      the interrupt replaces the first failure. */
  lemma InterruptedReset()
    ensures var t := [Attempt(SetItem(Whole(ItemAlias), true), Status), Attempt(Reset(0), Done),
              Attempt(Reset(1), Interrupt)];
            CleanedUp(t, 1, false) && |t| < 1 + |Cleanup(false)| && FirstFailure(t) == Some(0)
            && Propagates(t, 1, false) == Some(2)
  {
    var t := [Attempt(SetItem(Whole(ItemAlias), true), Status), Attempt(Reset(0), Done), Attempt(Reset(1), Interrupt)];
    assert !t[0].response.Done?;
    assert Cleanup(false) == Resets() && t[1..] == [t[1], t[2]];
  }

  // -- the cursor --------------------------------------------------------------------------------------

  function Picked(objects: seq<Object>, f: Filters): seq<Object>
    decreases |objects|
  {
    if objects == [] then []
    else (if Admits(f, objects[0]) then [objects[0]] else []) + Picked(objects[1..], f)
  }

  function Walk(pending: seq<Object>, wanted: Option<set<int>>, capacity: nat): Result<seq<Object>, nat>
    decreases |pending|
  {
    if pending == [] then Ok([])
    else if |pending[0].name| > capacity then Err(|pending[0].name|)
    else
      var rest :- Walk(pending[1..], wanted, capacity);
      Ok((if Requested(wanted, pending[0]) then [pending[0]] else []) + rest)
  }

  lemma {:induction false} WalkIsListing(objects: seq<Object>, f: Filters, wanted: Option<set<int>>, capacity: nat)
    ensures Walk(Picked(objects, f), wanted, capacity) == Listing(objects, f, wanted, capacity)
    decreases |objects|
  {
    hide Admits;
    if objects != [] {
      WalkIsListing(objects[1..], f, wanted, capacity);
      var rest := Picked(objects[1..], f);
      assert ([objects[0]] + rest)[1..] == rest && [] + rest == rest;
    }
  }

  /** The results so far, followed by what the pending objects give. */
  function Followed(results: seq<Object>, rest: Result<seq<Object>, nat>): Result<seq<Object>, nat> {
    if rest.Ok? then Ok(results + rest.value) else rest
  }

  lemma Associates(a: seq<Object>, b: seq<Object>, c: seq<Object>)
    ensures a + (b + c) == a + b + c
  {
  }

  lemma FollowStep(results: seq<Object>, pending: seq<Object>, wanted: Option<set<int>>, capacity: nat)
    requires pending != [] && |pending[0].name| <= capacity
    ensures var next := if Requested(wanted, pending[0]) then results + [pending[0]] else results;
            Followed(results, Walk(pending, wanted, capacity)) == Followed(next, Walk(pending[1..], wanted, capacity))
  {
    var rest := Walk(pending[1..], wanted, capacity);
    hide Requested;
    if rest.Ok? {
      var item := if Requested(wanted, pending[0]) then [pending[0]] else [];
      Associates(results, item, rest.value);
      assert results + [] == results;
    }
  }

  // -- traces one after the other ----------------------------------------------------------------------

  predicate AllDone(t: seq<Attempt>) {
    forall i :: 0 <= i < |t| ==> t[i].response.Done?
  }

  predicate NoInit(t: seq<Attempt>) {
    forall i :: 0 <= i < |t| ==> t[i].request != Init
  }

  /** All attempts done, or only the last one failed. */
  predicate Went(t: seq<Attempt>, ok: bool) {
    if ok then AllDone(t) else t != [] && !t[|t| - 1].response.Done? && AllDone(t[..|t| - 1])
  }

  lemma WentOn(a: seq<Attempt>, b: seq<Attempt>, ok: bool)
    requires AllDone(a) && Went(b, ok)
    ensures Went(a + b, ok) && (NoInit(a) && NoInit(b) ==> NoInit(a + b))
  {
    if !ok {
      assert (a + b)[..|a + b| - 1] == a + b[..|b| - 1];
    }
  }

  lemma FirstIs(t: seq<Attempt>, i: nat)
    requires i < |t| && !t[i].response.Done? && AllDone(t[..i])
    ensures FirstFailure(t) == Some(i)
  {
    hide FirstFailure;
    assert forall j :: 0 <= j < i ==> t[j] == t[..i][j];
  }

  lemma WentFails(t: seq<Attempt>, ok: bool)
    requires Went(t, ok)
    ensures FirstFailure(t) == if ok then None else Some(|t| - 1)
  {
    if !ok { FirstIs(t, |t| - 1); }
    hide FirstFailure;
  }

  lemma FirstOfBoth(a: seq<Attempt>, b: seq<Attempt>)
    ensures FirstFailure(a + b) == if FirstFailure(a).Some? then FirstFailure(a)
                                   else if FirstFailure(b).Some? then Some(|a| + FirstFailure(b).value) else None
  {
    hide FirstFailure;
    var t := a + b;
    if FirstFailure(a).Some? {
      assert forall j :: 0 <= j < FirstFailure(a).value ==> t[..FirstFailure(a).value][j] == a[j];
      FirstIs(t, FirstFailure(a).value);
    } else if FirstFailure(b).Some? {
      var i := |a| + FirstFailure(b).value;
      assert forall j :: 0 <= j < i ==> t[..i][j] == if j < |a| then a[j] else b[j - |a|];
      FirstIs(t, i);
    } else {
      assert AllDone(t);
    }
  }

  // -- the library and the listing ---------------------------------------------------------------------

  predicate PlainOn(o: Options, item: Item) {
    Whole(item) in o && o[Whole(item)] && forall n :: n in o && n.Part? ==> n.item != item
  }

  /** Every option the package uses is back at ON, without per-value selections. */
  predicate AllOn(o: Options) {
    forall i :: 0 <= i < 5 ==> PlainOn(o, ITEMS[i])
  }

  lemma SetKeepsPlain(o: Options, item: Item, other: Item)
    ensures PlainOn(SetOption(o, Whole(item), true), item)
    ensures PlainOn(o, other) ==> PlainOn(SetOption(o, Whole(item), true), other)
  {
  }

  /** A beginning of the five resets. */
  predicate Resetting(t: seq<Attempt>) {
    |t| <= 5 && forall k :: 0 <= k < |t| ==> t[k].request == Reset(k)
  }

  /** What the library selects for its cursor. */
  function Matching(objects: seq<Object>, o: Options): seq<Object>
    decreases |objects|
  {
    if objects == [] then [] else (if Selects(o, objects[0]) then [objects[0]] else []) + Matching(objects[1..], o)
  }

  lemma {:induction false} MatchingIsPicked(objects: seq<Object>, o: Options, alias: bool, f: Filters)
    ensures Matching(objects, Chosen(o, alias, f)) == Picked(objects, f)
    decreases |objects|
  {
    hide Selects, Chosen, Admits;
    if objects != [] {
      PriorStateIrrelevant(o, alias, f, objects[0]);
      MatchingIsPicked(objects[1..], o, alias, f);
    }
  }

  /** A scalar's range in a cursor entry is unreliable. */
  function EntryOf(obj: Object): Object {
    if obj.classCode == SCALAR then obj.(first := -7, last := -7) else obj
  }

  class Library {
    /** How the calls end, by their number; the calls made so far; the process-global options. */
    const respond: nat -> Response
    var trace: seq<Attempt>
    var options: Options

    constructor (respond: nat -> Response)
      ensures this.respond == respond && trace == [] && options == map[]
    {
      this.respond := respond;
      trace, options := [], map[];
    }

    method Call(request: Request) returns (r: Response)
      modifies this`trace
      ensures r == respond(|old(trace)|) && trace == old(trace) + [Attempt(request, r)]
    {
      r := respond(|trace|);
      trace := trace + [Attempt(request, r)];
    }

    /** The library answers every call. */
    ghost predicate AnswersAll() {
      forall n: nat :: respond(n).Done?
    }

    method Set(name: OptionName, on: bool) returns (r: Response)
      modifies this
      ensures r == respond(|old(trace)|)
      ensures trace == old(trace) + [Attempt(SetItem(name, on), r)]
      ensures options == if r.Done? then SetOption(old(options), name, on) else old(options)
    {
      r := Call(SetItem(name, on));
      if r.Done? {
        options := SetOption(options, name, on);
      }
    }

    method ChooseItem(item: Item, words: seq<Word>) returns (ok: bool, ghost tail: seq<Attempt>)
      modifies this
      ensures trace == old(trace) + tail && Went(tail, ok) && NoInit(tail)
      ensures ok ==> options == Choose(old(options), item, words)
      ensures AnswersAll() ==> ok
    {
      hide SetOption;
      var r := Set(Whole(item), words == []);
      tail := [Attempt(SetItem(Whole(item), words == []), r)];
      ok := r.Done?;
      if !ok || words == [] {
        return;
      }
      ghost var off := options;
      for i := 0 to |words|
        invariant ok && trace == old(trace) + tail && Went(tail, true) && NoInit(tail)
        invariant TurnOn(options, item, words[i..]) == TurnOn(off, item, words)
      {
        assert words[i..][0] == words[i] && words[i..][1..] == words[i + 1..];
        r := Set(Part(item, words[i]), true);
        ok := r.Done?;
        WentOn(tail, [Attempt(SetItem(Part(item, words[i]), true), r)], ok);
        tail := tail + [Attempt(SetItem(Part(item, words[i]), true), r)];
        if !ok {
          return;
        }
      }
      assert words[|words|..] == [];
    }

    /** Every option a listing uses is set, from whatever state it was in. */
    method SetFilters(alias: bool, f: Filters) returns (ok: bool, ghost tail: seq<Attempt>)
      modifies this
      ensures trace == old(trace) + tail && Went(tail, ok) && NoInit(tail)
      ensures ok ==> options == Chosen(old(options), alias, f)
      ensures AnswersAll() ==> ok
    {
      hide Choose, SetOption, Went, NoInit;
      var r := Set(Whole(ItemAlias), alias);
      tail := [Attempt(SetItem(Whole(ItemAlias), alias), r)];
      ok := r.Done?;
      OneWent(tail, ok);
      ghost var more;
      if ok {
        ok, more := ChooseItem(ItemClass, f.classes);
        tail := Joined(tail, more, ok);
      }
      if ok {
        ok, more := ChooseItem(ItemType, f.types);
        tail := Joined(tail, more, ok);
      }
      if ok {
        ok, more := ChooseItem(ItemFrequency, f.families);
        tail := Joined(tail, more, ok);
      }
      if ok {
        ok, more := ChooseItem(ItemIndex, f.indexes);
        tail := Joined(tail, more, ok);
      }
    }

    /** The next entry; a name too long fails the call. */
    method NextEntry(pending: seq<Object>, capacity: nat) returns (r: Response, entry: Option<Object>)
      modifies this`trace
      ensures trace == old(trace) + [Attempt(Next, r)]
      ensures r.Done? ==> entry == (if pending == [] then None else Some(EntryOf(pending[0])))
      ensures r.Done? && pending != [] ==> |pending[0].name| <= capacity
      ensures r == (if respond(|old(trace)|).Done? && pending != [] && |pending[0].name| > capacity then Truncated
                    else respond(|old(trace)|))
    {
      r, entry := respond(|trace|), None;
      if r.Done? && pending != [] {
        if |pending[0].name| > capacity {
          r := Truncated;
        } else {
          entry := Some(EntryOf(pending[0]));
        }
      }
      trace := trace + [Attempt(Next, r)];
    }

    method ReadCursor(cursor: seq<Object>, wanted: Option<set<int>>, capacity: nat)
      returns (ok: bool, results: seq<Object>, ghost tail: seq<Attempt>)
      modifies this`trace
      ensures trace == old(trace) + tail && Went(tail, ok) && NoInit(tail)
      ensures ok ==> Walk(cursor, wanted, capacity) == Ok(results)
      ensures AnswersAll() && Walk(cursor, wanted, capacity).Ok? ==> ok
    {
      hide Walk;
      results, tail := [], [];
      var pending := cursor;
      NothingYet(Walk(cursor, wanted, capacity));
      while true
        invariant trace == old(trace) + tail && Went(tail, true) && NoInit(tail)
        invariant Walk(cursor, wanted, capacity) == Followed(results, Walk(pending, wanted, capacity))
        decreases |pending|
      {
        var r, entry := NextEntry(pending, capacity);
        ok := r.Done?;
        WentOn(tail, [Attempt(Next, r)], ok);
        tail := tail + [Attempt(Next, r)];
        if !ok {
          WalkStops(pending, wanted, capacity);
          return;
        }
        if entry.None? {
          WalkedOut(results, wanted, capacity);
          return;
        }
        FollowStep(results, pending, wanted, capacity);
        var info := entry.value;
        if info.classCode == SCALAR {
          r := Call(Requery);
          ok := r.Done?;
          WentOn(tail, [Attempt(Requery, r)], ok);
          tail := tail + [Attempt(Requery, r)];
          if !ok {
            return;
          }
          info := pending[0];
        }
        if Requested(wanted, info) {
          results := results + [info];
        }
        pending := pending[1..];
      }
    }

    /** Attempt every reset; a failure that is no status ends the loop at once. */
    method NormalizeOptions() returns (first: Option<nat>, escaped: bool, ghost tail: seq<Attempt>)
      modifies this
      ensures first == FirstFailure(tail)
      ensures trace == old(trace) + tail && Resetting(tail)
      ensures if escaped then tail != [] && tail[|tail| - 1].response.Escapes() else |tail| == 5
      ensures forall i :: 0 <= i < |tail| - (if escaped then 1 else 0) ==> !tail[i].response.Escapes()
      ensures AllDone(tail) ==> AllOn(options)
      ensures AnswersAll() ==> AllDone(tail) && !escaped
    {
      hide SetOption, PlainOn, FirstFailure;
      first, escaped, tail := None, false, [];
      for k := 0 to 5
        invariant trace == old(trace) + tail && |tail| == k && Resetting(tail) && NoneEscapes(tail) && !escaped
        invariant AllDone(tail) ==> forall i :: 0 <= i < k ==> PlainOn(options, ITEMS[i])
        invariant AnswersAll() ==> AllDone(tail)
        invariant first == FirstFailure(tail)
      {
        ghost var before := options;
        var r := Set(Whole(ITEMS[k]), true);
        forall i | 0 <= i < k ensures PlainOn(before, ITEMS[i]) && r.Done? ==> PlainOn(options, ITEMS[i]) {
          SetKeepsPlain(before, ITEMS[k], ITEMS[i]);
        }
        SetKeepsPlain(before, ITEMS[k], ITEMS[k]);
        ghost var done := tail;
        tail := tail + [Attempt(SetItem(Whole(ITEMS[k]), true), r)];
        assert tail[k].response == r && forall i :: 0 <= i < k ==> tail[i] == done[i];
        FirstOfBoth(done, [tail[k]]);
        if first.None? && !r.Done? {
          FirstIs([tail[k]], 0);
          first := Some(k);
        }
        if r.Escapes() {
          escaped := true;
          return;
        }
      }
    }

    /** The filters, the cursor and its entries; the cursor is held once it was opened. */
    method ListBody(objects: seq<Object>, alias: bool, f: Filters, wanted: Option<set<int>>, capacity: nat)
      returns (ok: bool, held: bool, results: seq<Object>, ghost tail: seq<Attempt>)
      modifies this
      ensures trace == old(trace) + tail && Went(tail, ok)
      ensures held <==> Opens(tail)
      ensures ok ==> held && Listing(objects, f, wanted, capacity) == Ok(results)
      ensures AnswersAll() && Listing(objects, f, wanted, capacity).Ok? ==> ok
    {
      hide Chosen, Walk, Matching, Listing, Picked;
      results, held := [], false;
      ok, tail := SetFilters(alias, f);
      NeverOpens(tail);
      if !ok {
        return;
      }
      var r := Call(Init);
      ghost var chosen := tail;
      WentOn(tail, [Attempt(Init, r)], r.Done?);
      tail := tail + [Attempt(Init, r)];
      OpensAtEnd(chosen, r);
      if !r.Done? {
        ok := false;
        return;
      }
      held := true;
      var cursor := Matching(objects, options);
      MatchingIsPicked(objects, old(options), alias, f);
      WalkIsListing(objects, f, wanted, capacity);
      ghost var more;
      ok, results, more := ReadCursor(cursor, wanted, capacity);
      StillOpens(tail, more);
      WentOn(tail, more, ok);
      tail := tail + more;
    }

    /** A listing: whatever fails, the cursor is freed and every reset is attempted, and the first failure
        propagates; only a cleanup call that fails without a status can change that. */
    method ListObjects(objects: seq<Object>, alias: bool, f: Filters, wanted: Option<set<int>>, capacity: nat)
      returns (r: Result<seq<Object>, nat>, ghost body: nat, ghost held: bool, ghost tail: seq<Attempt>)
      modifies this
      ensures trace == old(trace) + tail && CleanedUp(tail, body, held) && (held <==> Opens(tail[..body]))
      ensures Propagates(tail, body, held) == if r.Ok? then None else Some(r.error)
      ensures r.Ok? ==> Listing(objects, f, wanted, capacity) == r && AllOn(options)
      ensures AnswersAll() && Listing(objects, f, wanted, capacity).Ok? ==> r.Ok?
    {
      hide CleanedUp, Propagates, FirstFailure, Went, Opens, Listing, AllOn, Resetting;
      var start := |trace|;
      var ok, opening, results;
      ok, opening, results, tail := ListBody(objects, alias, f, wanted, capacity);
      body, held := |tail|, opening;
      ghost var first := tail;
      var failure := if ok then None else Some(|trace| - start - 1);
      var freed := Done;
      if opening {
        freed := Call(Free);
        if freed.Interrupt? || (ok && !freed.Done?) {
          failure := Some(|trace| - start - 1);
        }
      }
      var before := |trace| - start;
      var reset, escaped;
      ghost var more;
      reset, escaped, more := NormalizeOptions();
      if escaped {
        failure := Some(|trace| - start - 1);
      } else if failure.None? && reset.Some? {
        failure := Some(before + reset.value);
      }
      tail := Together(first, held, freed, more);
      CleanupOrder(first, held, freed, more, escaped);
      CleanupOutcome(first, ok, held, freed, more, escaped);
      assert tail[..body] == first;
      if failure.None? {
        NothingFailed(more);
      }
      r := if failure.None? then Ok(results) else Err(failure.value);
    }

    /** listdb: the filters of one call, then the listing; a success holds exactly the matching objects. */
    method ListDb(objects: seq<Object>, alias: bool, classes: seq<Word>, types: seq<Word>, wanted: Option<set<int>>,
        capacity: nat)
      returns (r: Result<seq<Object>, nat>, ghost picks: seq<nat>)
      modifies this
      ensures r.Ok? ==> HoldsMatches(objects, 0, classes, types, wanted, r.value, picks) && AllOn(options)
      ensures r.Ok? ==>
                forall obj :: obj in r.value <==> obj in objects && Matches(obj, classes, types, wanted)
      ensures AnswersAll() && NamesFit(objects, FiltersFor(classes, types, wanted), capacity) ==> r.Ok?
    {
      SucceedsWhenNamesFit(objects, FiltersFor(classes, types, wanted), wanted, capacity);
      ghost var body, held, tail;
      r, body, held, tail := ListObjects(objects, alias, FiltersFor(classes, types, wanted), wanted, capacity);
      picks := [];
      hide Matches, Listing, AllOn;
      if r.Ok? {
        picks := ListingHoldsMatches(objects, 0, classes, types, wanted, capacity);
        HeldAreMatches(objects, classes, types, wanted, r.value, picks);
      }
    }
  }

  lemma HeldAreMatches(objects: seq<Object>, classes: seq<Word>, types: seq<Word>, wanted: Option<set<int>>,
      result: seq<Object>, picks: seq<nat>)
    requires HoldsMatches(objects, 0, classes, types, wanted, result, picks)
    ensures forall obj :: obj in result <==> obj in objects && Matches(obj, classes, types, wanted)
  {
    hide Matches;
    forall obj ensures obj in result <==> obj in objects && Matches(obj, classes, types, wanted) {
      if obj in result {
        var i :| 0 <= i < |result| && result[i] == obj;
        assert picks[i] in picks;
      }
      if obj in objects && Matches(obj, classes, types, wanted) {
        var k: nat :| k < |objects| && objects[k] == obj;
        var i :| 0 <= i < |picks| && picks[i] == k;
        assert result[i] == obj;
      }
    }
  }

  predicate Opens(t: seq<Attempt>) {
    exists i :: 0 <= i < |t| && t[i] == Attempt(Init, Done)
  }

  lemma NeverOpens(t: seq<Attempt>)
    requires NoInit(t)
    ensures !Opens(t)
  {
  }

  lemma OpensAtEnd(t: seq<Attempt>, r: Response)
    requires NoInit(t)
    ensures Opens(t + [Attempt(Init, r)]) <==> r.Done?
  {
    var all := t + [Attempt(Init, r)];
    assert all[|t|] == Attempt(Init, r);
  }

  lemma StillOpens(a: seq<Attempt>, b: seq<Attempt>)
    requires Opens(a)
    ensures Opens(a + b)
  {
    var i :| 0 <= i < |a| && a[i] == Attempt(Init, Done);
    assert (a + b)[i] == Attempt(Init, Done);
  }

  ghost function Together(first: seq<Attempt>, held: bool, freed: Response, more: seq<Attempt>): seq<Attempt> {
    first + (if held then [Attempt(Free, freed)] else []) + more
  }

  lemma NothingFailed(more: seq<Attempt>)
    requires FirstFailure(more).None?
    ensures AllDone(more)
  {
  }

  lemma CleanupOrder(first: seq<Attempt>, held: bool, freed: Response, more: seq<Attempt>, escaped: bool)
    requires Resetting(more) && if escaped then more != [] && more[|more| - 1].response.Escapes() else |more| == 5
    requires forall i :: 0 <= i < |more| - (if escaped then 1 else 0) ==> !more[i].response.Escapes()
    ensures CleanedUp(Together(first, held, freed, more), |first|, held)
  {
    var t, n := Together(first, held, freed, more), |first| + (if held then 1 else 0);
    assert forall i :: n <= i < |t| ==> t[i] == more[i - n];
    assert held ==> t[|first|] == Attempt(Free, freed);
    hide Together;
  }

  /** Which failure propagates, from the parts of a listing. */
  lemma CleanupOutcome(first: seq<Attempt>, ok: bool, held: bool, freed: Response, more: seq<Attempt>,
      escaped: bool)
    requires Went(first, ok) && (if escaped then more != [] && more[|more| - 1].response.Escapes() else |more| == 5)
    requires forall i :: 0 <= i < |more| - (if escaped then 1 else 0) ==> !more[i].response.Escapes()
    ensures var t, n := Together(first, held, freed, more), |first| + (if held then 1 else 0);
            Propagates(t, |first|, held)
            == (if escaped then Some(|t| - 1)
                else if held && (freed.Interrupt? || (ok && !freed.Done?)) then Some(|first|)
                else if !ok then Some(|first| - 1)
                else if FirstFailure(more).Some? then Some(n + FirstFailure(more).value) else None)
  {
    var t, n := Together(first, held, freed, more), |first| + (if held then 1 else 0);
    var free := if held then [Attempt(Free, freed)] else [];
    WentFails(first, ok);
    if held { OneFails(freed); }
    FirstOfBoth(first, free);
    FirstOfBoth(first + free, more);
    assert more != [] ==> t[|t| - 1] == more[|more| - 1];
    assert held ==> t[|first|] == Attempt(Free, freed);
    hide FirstFailure, Together;
  }

  lemma OneFails(r: Response)
    ensures FirstFailure([Attempt(Free, r)]) == if r.Done? then None else Some(0)
  {
    assert [Attempt(Free, r)][..0] == [];
  }

  lemma OneWent(t: seq<Attempt>, ok: bool)
    requires |t| == 1 && ok == t[0].response.Done?
    ensures Went(t, ok) && (t[0].request != Init ==> NoInit(t))
  {
  }

  ghost function Joined(a: seq<Attempt>, b: seq<Attempt>, ok: bool): (r: seq<Attempt>)
    requires Went(a, true) && NoInit(a) && Went(b, ok) && NoInit(b)
    ensures r == a + b && Went(r, ok) && NoInit(r)
  {
    WentOn(a, b, ok);
    a + b
  }

  lemma NothingYet(w: Result<seq<Object>, nat>)
    ensures Followed([], w) == w
  {
    if w.Ok? { assert [] + w.value == w.value; }
  }

  lemma WalkStops(pending: seq<Object>, wanted: Option<set<int>>, capacity: nat)
    ensures pending != [] && |pending[0].name| > capacity ==> Walk(pending, wanted, capacity).Err?
  {
  }

  lemma WalkedOut(results: seq<Object>, wanted: Option<set<int>>, capacity: nat)
    ensures Followed(results, Walk([], wanted, capacity)) == Ok(results)
  {
    assert results + [] == results;
  }
}
