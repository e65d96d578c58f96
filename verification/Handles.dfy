/** Database handles shared by threads: open, work, use, close and finalize (_database.py, _runtime.py). */
module Handles {
  import opened Wrappers

  type Key = nat
  type HandleId = nat
  type Thread = nat

  datatype Handle = Handle(key: Key, open: bool, work: bool)

  /** Where a thread is inside a locked operation. */
  datatype Pc =
    | Idle
    | Opening(work: bool)
    | Opened(work: bool, key: Key)
    | Registered(h: HandleId)
    | Using(h: HandleId)
    | Closing(h: HandleId)
    | Closed(h: HandleId)
    | Unregistering(h: HandleId)
    | Ending(rest: seq<HandleId>)
    | Invalidating(rest: seq<HandleId>)
    | Finishing

  /** The library's open keys, and the session: its handles, tracking table, work handle, lock. */
  datatype State = State(
    nativeOpen: set<Key>,
    running: bool,
    handles: seq<Handle>,
    tracked: map<Key, HandleId>,
    work: Option<HandleId>,
    lock: Option<Thread>,
    pcs: map<Thread, Pc>)
  {
    function Pc(t: Thread): Pc {
      if t in pcs then pcs[t] else Idle
    }

    function At(t: Thread, pc: Pc): State {
      this.(lock := Some(t), pcs := pcs[t := pc])
    }

    function Release(t: Thread): State {
      this.(lock := None, pcs := pcs[t := Idle])
    }

    function Marked(h: HandleId): State
      requires h < |handles|
    {
      this.(handles := handles[h := handles[h].(open := false)])
    }

    function Untracked(h: HandleId): State
      requires h < |handles|
    {
      this.(tracked := tracked - {handles[h].key}, work := if work == Some(h) then None else work)
    }
  }

  datatype Operation = OpenDb | WorkDb | Use(h: HandleId) | CloseDb(h: HandleId) | Finalize(order: seq<HandleId>)

  /** One scheduling choice: a thread starts an operation, a native call returns, a thread goes on,
      or an exception that is no library status ends its operation. */
  datatype Action =
    | Begin(op: Operation)
    | NativeOpens(key: Option<Key>)
    | NativeReturns(ok: bool)
    | Continue
    | Interrupt

  predicate Tracks(tracked: map<Key, HandleId>, h: HandleId) {
    exists k :: k in tracked && tracked[k] == h
  }

  /** The tracked handles, each once, in some order. */
  predicate Lists(order: seq<HandleId>, tracked: map<Key, HandleId>) {
    (forall i, j :: 0 <= i < j < |order| ==> order[i] != order[j])
    && (forall k :: k in tracked ==> tracked[k] in order)
    && (forall i :: 0 <= i < |order| ==> Tracks(tracked, order[i]))
  }

  /** Take the lock and make the Python-level checks; a refusal gives the lock back at once. */
  function Start(st: State, t: Thread, op: Operation): State {
    match op
    case OpenDb => if st.running then st.At(t, Opening(false)) else st
    case WorkDb =>
      if !st.running then st
      else if st.work.Some? && st.work.value < |st.handles| && st.handles[st.work.value].open then st
      else st.At(t, Opening(true))
    case Use(h) => if st.running && h < |st.handles| && st.handles[h].open then st.At(t, Using(h)) else st
    case CloseDb(h) =>
      if h >= |st.handles| || !st.handles[h].open then st
      else if !st.running then st.Marked(h).Untracked(h)
      else st.At(t, Closing(h))
    case Finalize(order) => if st.running && Lists(order, st.tracked) then st.At(t, Ending(order)) else st
  }

  function Register(st: State, key: Key, work: bool): State {
    st.(handles := st.handles + [Handle(key, true, work)], tracked := st.tracked[key := |st.handles|])
  }

  /** One step of one thread; an action that does not fit the thread's place changes nothing. */
  function Step(st: State, t: Thread, a: Action): State {
    if a.Interrupt? then (if st.Pc(t) == Idle then st else st.Release(t))
    else
      match st.Pc(t)
      case Idle => if a.Begin? && st.lock.None? then Start(st, t, a.op) else st
      case Opening(work) =>
        if !a.NativeOpens? then st
        else if a.key.None? || a.key.value in st.nativeOpen then st.Release(t)
        else st.(nativeOpen := st.nativeOpen + {a.key.value}).At(t, Opened(work, a.key.value))
      case Opened(work, key) =>
        if !a.Continue? then st
        else if work then Register(st, key, work).At(t, Registered(|st.handles|))
        else Register(st, key, work).Release(t)
      case Registered(h) => if a.Continue? then st.(work := Some(h)).Release(t) else st
      case Using(h) => if a.Continue? then st.Release(t) else st
      case Closing(h) =>
        if !a.NativeReturns? || h >= |st.handles| then st
        else if !a.ok then st.Release(t)
        else st.(nativeOpen := st.nativeOpen - {st.handles[h].key}).At(t, Closed(h))
      case Closed(h) => if a.Continue? && h < |st.handles| then st.Marked(h).At(t, Unregistering(h)) else st
      case Unregistering(h) => if a.Continue? && h < |st.handles| then st.Untracked(h).Release(t) else st
      case Ending(rest) =>
        if rest == [] then
          if a.Continue? then st.(tracked := map[], work := None, running := false).At(t, Finishing) else st
        else if !a.NativeReturns? || rest[0] >= |st.handles| then st
        else
          var after := if a.ok then st.(nativeOpen := st.nativeOpen - {st.handles[rest[0]].key}) else st;
          after.At(t, Invalidating(rest))
      case Invalidating(rest) =>
        if a.Continue? && rest != [] && rest[0] < |st.handles| then st.Marked(rest[0]).At(t, Ending(rest[1..])) else st
      case Finishing =>
        if !a.NativeReturns? then st
        else (if a.ok then st.(nativeOpen := {}) else st).Release(t)
  }

  /** The key a thread's next native call names. */
  function NextKey(st: State, t: Thread): Option<Key> {
    match st.Pc(t)
    case Using(h) => if h < |st.handles| then Some(st.handles[h].key) else None
    case Closing(h) => if h < |st.handles| then Some(st.handles[h].key) else None
    case Ending(rest) => if rest != [] && rest[0] < |st.handles| then Some(st.handles[rest[0]].key) else None
    case _ => None
  }

  const START := State({}, true, [], map[], None, None, map[])

  type Steps = seq<(Thread, Action)>

  function After(st: State, steps: Steps): State
    decreases |steps|
  {
    if steps == [] then st else After(Step(st, steps[0].0, steps[0].1), steps[1..])
  }

  function RunOf(steps: Steps): State {
    After(START, steps)
  }

  /** Failures of native calls are statuses. */
  predicate Calm(steps: Steps) {
    forall i :: 0 <= i < |steps| ==> !steps[i].1.Interrupt?
  }

  // -- the invariant --------------------------------------------------------------------------

  /** Only the holder of the lock is inside an operation. */
  predicate LockHeld(st: State) {
    (forall t :: t in st.pcs && st.pcs[t] != Idle ==> st.lock == Some(t))
    && (st.lock.Some? ==> st.Pc(st.lock.value) != Idle)
  }

  /** The holder's place, or Idle when the lock is free. */
  function Holder(st: State): Pc {
    if st.lock.Some? then st.Pc(st.lock.value) else Idle
  }

  predicate Tables(st: State) {
    forall k :: k in st.tracked ==> st.tracked[k] < |st.handles| && st.handles[st.tracked[k]].key == k
  }

  /** The session finds the handle under its key. */
  predicate Found(st: State, h: HandleId)
    requires h < |st.handles|
  {
    st.handles[h].key in st.tracked && st.tracked[st.handles[h].key] == h
  }

  predicate OpenAreTracked(st: State) {
    forall h :: 0 <= h < |st.handles| ==> (st.handles[h].open <==> Found(st, h))
  }

  predicate OpenWork(st: State, h: int) {
    0 <= h < |st.handles| && st.handles[h].open && st.handles[h].work
  }

  /** The work handle is the one open work database. */
  ghost predicate WorkKnown(st: State) {
    (forall h :: OpenWork(st, h) ==> st.work == Some(h)) && (st.work.Some? ==> OpenWork(st, st.work.value))
  }

  predicate EndingLists(st: State, rest: seq<HandleId>) {
    (forall i, j :: 0 <= i < j < |rest| ==> rest[i] != rest[j])
    && (forall i :: 0 <= i < |rest| ==> rest[i] < |st.handles| && Found(st, rest[i]))
    && (forall h :: 0 <= h < |st.handles| && st.handles[h].open ==> h in rest)
  }

  predicate KeysOpen(st: State, rest: seq<HandleId>, from: nat) {
    forall i :: from <= i < |rest| && rest[i] < |st.handles| ==> st.handles[rest[i]].key in st.nativeOpen
  }

  /** Handles, table, work handle and library agree as far as the operation under way has got. */
  ghost predicate Agreement(st: State) {
    match Holder(st)
    case Idle =>
      if st.running then OpenAreTracked(st) && WorkKnown(st) && st.nativeOpen == st.tracked.Keys else NothingOpen(st)
    case Opening(work) =>
      st.running && OpenAreTracked(st) && WorkKnown(st) && st.nativeOpen == st.tracked.Keys && (work ==> st.work.None?)
    case Opened(work, key) =>
      st.running && OpenAreTracked(st) && WorkKnown(st) && key !in st.tracked
      && st.nativeOpen == st.tracked.Keys + {key} && (work ==> st.work.None?)
    case Registered(h) =>
      st.running && OpenAreTracked(st) && st.nativeOpen == st.tracked.Keys && st.work.None?
      && OpenWork(st, h) && forall g :: OpenWork(st, g) ==> g == h
    case Using(h) =>
      st.running && OpenAreTracked(st) && WorkKnown(st) && st.nativeOpen == st.tracked.Keys
      && h < |st.handles| && st.handles[h].open
    case Closing(h) =>
      st.running && OpenAreTracked(st) && WorkKnown(st) && st.nativeOpen == st.tracked.Keys
      && h < |st.handles| && st.handles[h].open
    case Closed(h) =>
      st.running && OpenAreTracked(st) && WorkKnown(st) && h < |st.handles| && st.handles[h].open
      && st.nativeOpen == st.tracked.Keys - {st.handles[h].key}
    case Unregistering(h) =>
      st.running && h < |st.handles| && !st.handles[h].open && Found(st, h)
      && (forall g :: 0 <= g < |st.handles| && g != h ==> (st.handles[g].open <==> Found(st, g)))
      && (forall g :: OpenWork(st, g) ==> st.work == Some(g))
      && (st.work.Some? && st.work.value != h ==> OpenWork(st, st.work.value))
      && st.nativeOpen == st.tracked.Keys - {st.handles[h].key}
    case Ending(rest) => st.running && EndingLists(st, rest) && KeysOpen(st, rest, 0)
    case Invalidating(rest) => st.running && rest != [] && EndingLists(st, rest) && KeysOpen(st, rest, 1)
    case Finishing => !st.running && NothingOpen(st)
  }

  predicate NothingOpen(st: State) {
    st.tracked == map[] && st.work.None? && forall h :: 0 <= h < |st.handles| ==> !st.handles[h].open
  }

  ghost predicate Inv(st: State) {
    LockHeld(st) && Tables(st) && Agreement(st)
  }

  lemma ListedAreFound(st: State, order: seq<HandleId>)
    requires Tables(st) && Lists(order, st.tracked)
    ensures forall i :: 0 <= i < |order| ==> order[i] < |st.handles| && Found(st, order[i])
  {
    forall i | 0 <= i < |order| ensures order[i] < |st.handles| && Found(st, order[i]) {
      assert Tracks(st.tracked, order[i]);
      var k :| k in st.tracked && st.tracked[k] == order[i];
    }
  }

  lemma StartKeeps(st: State, t: Thread, op: Operation)
    requires Inv(st) && st.lock.None?
    ensures Inv(Start(st, t, op))
  {
    if op.Finalize? && st.running && Lists(op.order, st.tracked) {
      ListedAreFound(st, op.order);
      assert EndingLists(Start(st, t, op), op.order);
    }
  }

  lemma OpenedKeeps(st: State, t: Thread, work: bool, key: Key)
    requires Inv(st) && st.lock == Some(t) && st.Pc(t) == Opened(work, key)
    ensures Inv(Step(st, t, Continue))
  {
    var next := Step(st, t, Continue);
    assert forall h :: 0 <= h < |st.handles| ==> next.handles[h] == st.handles[h];
    assert next.tracked.Keys == st.tracked.Keys + {key};
    forall h | 0 <= h < |next.handles| ensures next.handles[h].open <==> Found(next, h) {
      if h < |st.handles| && st.handles[h].key == key {
        assert !st.handles[h].open;
      }
    }
    assert forall h :: OpenWork(next, h) <==> OpenWork(st, h) || (work && h == |st.handles|);
  }

  lemma UnregisteringKeeps(st: State, t: Thread, h: HandleId)
    requires Inv(st) && st.lock == Some(t) && st.Pc(t) == Unregistering(h)
    ensures Inv(Step(st, t, Continue))
  {
    var next := Step(st, t, Continue);
    assert next.tracked.Keys == st.tracked.Keys - {st.handles[h].key};
    assert forall g :: OpenWork(next, g) <==> OpenWork(st, g);
  }

  lemma ClosedKeeps(st: State, t: Thread, h: HandleId)
    requires Inv(st) && st.lock == Some(t) && st.Pc(t) == Closed(h)
    ensures Inv(Step(st, t, Continue))
  {
    var next := Step(st, t, Continue);
    assert forall g :: OpenWork(next, g) <==> OpenWork(st, g) && g != h;
    assert forall g :: 0 <= g < |st.handles| ==> Found(next, g) == Found(st, g);
  }

  lemma EndingKeeps(st: State, t: Thread, rest: seq<HandleId>, ok: bool)
    requires Inv(st) && st.lock == Some(t) && st.Pc(t) == Ending(rest) && rest != []
    ensures Inv(Step(st, t, NativeReturns(ok)))
  {
    var next := Step(st, t, NativeReturns(ok));
    assert forall g :: 0 <= g < |st.handles| ==> Found(next, g) == Found(st, g);
    assert EndingLists(next, rest) && KeysOpen(next, rest, 1);
  }

  lemma EndedKeeps(st: State, t: Thread)
    requires Inv(st) && st.lock == Some(t) && st.Pc(t) == Ending([])
    ensures Inv(Step(st, t, Continue))
  {
  }

  lemma InvalidatingKeeps(st: State, t: Thread, rest: seq<HandleId>)
    requires Inv(st) && st.lock == Some(t) && st.Pc(t) == Invalidating(rest)
    ensures Inv(Step(st, t, Continue))
  {
    var next := Step(st, t, Continue);
    assert forall g :: 0 <= g < |st.handles| ==> Found(next, g) == Found(st, g);
    assert EndingLists(next, rest[1..]) && KeysOpen(next, rest[1..], 0);
  }

  lemma RegisteredKeeps(st: State, t: Thread, h: HandleId)
    requires Inv(st) && st.lock == Some(t) && st.Pc(t) == Registered(h)
    ensures Inv(Step(st, t, Continue))
  {
    var next := Step(st, t, Continue);
    assert forall g :: OpenWork(next, g) <==> OpenWork(st, g);
  }

  lemma OpeningKeeps(st: State, t: Thread, a: Action)
    requires Inv(st) && st.lock == Some(t) && st.Pc(t).Opening? && !a.Interrupt?
    ensures Inv(Step(st, t, a))
  {
    var next := Step(st, t, a);
    assert forall g :: OpenWork(next, g) <==> OpenWork(st, g);
    assert forall g :: 0 <= g < |st.handles| ==> Found(next, g) == Found(st, g);
  }

  lemma CallingKeeps(st: State, t: Thread, a: Action)
    requires Inv(st) && st.lock == Some(t) && (st.Pc(t).Using? || st.Pc(t).Closing?) && !a.Interrupt?
    ensures Inv(Step(st, t, a))
  {
    var next := Step(st, t, a);
    assert forall g :: OpenWork(next, g) <==> OpenWork(st, g);
    assert forall g :: 0 <= g < |st.handles| ==> Found(next, g) == Found(st, g);
  }

  /** Every step of every thread keeps the invariant as long as failures are statuses. */
  lemma StepKeeps(st: State, t: Thread, a: Action)
    requires Inv(st) && !a.Interrupt?
    ensures Inv(Step(st, t, a))
  {
    match st.Pc(t)
    case Idle => if a.Begin? && st.lock.None? { StartKeeps(st, t, a.op); }
    case Opening(_) => OpeningKeeps(st, t, a);
    case Opened(work, key) => if a.Continue? { OpenedKeeps(st, t, work, key); }
    case Registered(h) => if a.Continue? { RegisteredKeeps(st, t, h); }
    case Using(_) => CallingKeeps(st, t, a);
    case Closing(_) => CallingKeeps(st, t, a);
    case Closed(h) => if a.Continue? { ClosedKeeps(st, t, h); }
    case Unregistering(h) => if a.Continue? { UnregisteringKeeps(st, t, h); }
    case Ending(rest) =>
      if rest == [] {
        if a.Continue? { EndedKeeps(st, t); }
      } else if a.NativeReturns? {
        EndingKeeps(st, t, rest, a.ok);
      }
    case Invalidating(rest) => if a.Continue? { InvalidatingKeeps(st, t, rest); }
    case Finishing =>
  }

  lemma {:induction false} RunKeeps(st: State, steps: Steps)
    requires Inv(st) && Calm(steps)
    ensures Inv(After(st, steps))
    decreases |steps|
  {
    if steps != [] {
      StepKeeps(st, steps[0].0, steps[0].1);
      RunKeeps(Step(st, steps[0].0, steps[0].1), steps[1..]);
    }
  }

  // -- what every interleaving guarantees ---------------------------------------------------------

  /** Between operations the tracked handles are exactly the library's open keys, the open handles
      are exactly the tracked ones, and at most one is a work database. */
  lemma TrackedAreOpen(steps: Steps)
    requires Calm(steps) && RunOf(steps).lock.None? && RunOf(steps).running
    ensures var st := RunOf(steps);
            st.tracked.Keys == st.nativeOpen
            && (forall h :: 0 <= h < |st.handles| ==> (st.handles[h].open <==> Found(st, h)))
            && (forall g, h :: OpenWork(st, g) && OpenWork(st, h) ==> g == h)
  {
    RunKeeps(START, steps);
  }

  /** After finalization no handle is usable and nothing stays tracked. */
  lemma NothingAfterwards(steps: Steps)
    requires Calm(steps) && RunOf(steps).lock.None? && !RunOf(steps).running
    ensures NothingOpen(RunOf(steps))
  {
    RunKeeps(START, steps);
  }

  /** A close the library refuses leaves the handle open and tracked, and the key open. */
  lemma FailedCloseStaysTracked(steps: Steps, t: Thread, h: HandleId)
    requires Calm(steps) && RunOf(steps).Pc(t) == Closing(h)
    ensures var st, after := RunOf(steps), Step(RunOf(steps), t, NativeReturns(false));
            after == st.Release(t) && h < |after.handles| && after.handles[h].open
            && after.handles[h].key in after.tracked && after.handles[h].key in after.nativeOpen
  {
    RunKeeps(START, steps);
  }

  // -- a finalization that is not interrupted ------------------------------------------------------------

  /** The native answers of a finalization: one per close, then one for the library itself. */
  function FinalizeSteps(t: Thread, oks: seq<bool>, fin: bool): Steps
    decreases |oks|
  {
    if oks == [] then [(t, Continue), (t, NativeReturns(fin))]
    else [(t, NativeReturns(oks[0]))] + ([(t, Continue)] + FinalizeSteps(t, oks[1..], fin))
  }

  lemma AfterStep(st: State, t: Thread, a: Action, more: Steps)
    ensures After(st, [(t, a)] + more) == After(Step(st, t, a), more)
  {
    assert ([(t, a)] + more)[1..] == more;
  }

  function ClosedKeys(st: State, rest: seq<HandleId>, oks: seq<bool>): set<Key> {
    set i | 0 <= i < |rest| && i < |oks| && oks[i] && rest[i] < |st.handles| :: st.handles[rest[i]].key
  }

  lemma {:induction false} EndingRuns(st: State, t: Thread, rest: seq<HandleId>, oks: seq<bool>, fin: bool)
    requires st.lock == Some(t) && st.Pc(t) == Ending(rest) && st.running && |oks| == |rest|
    requires forall i :: 0 <= i < |rest| ==> rest[i] < |st.handles|
    requires forall h :: 0 <= h < |st.handles| && st.handles[h].open ==> h in rest
    ensures var end := After(st, FinalizeSteps(t, oks, fin));
            !end.running && end.lock.None? && NothingOpen(end)
            && end.nativeOpen == if fin then {} else st.nativeOpen - ClosedKeys(st, rest, oks)
    decreases |rest|
  {
    if rest == [] {
      AfterStep(st, t, Continue, [(t, NativeReturns(fin))]);
      AfterStep(Step(st, t, Continue), t, NativeReturns(fin), []);
      assert [(t, NativeReturns(fin))] + [] == [(t, NativeReturns(fin))];
    } else {
      var returned := Step(st, t, NativeReturns(oks[0]));
      var next := Step(returned, t, Continue);
      AfterStep(st, t, NativeReturns(oks[0]), [(t, Continue)] + FinalizeSteps(t, oks[1..], fin));
      AfterStep(returned, t, Continue, FinalizeSteps(t, oks[1..], fin));
      EndingRuns(next, t, rest[1..], oks[1..], fin);
      ClosedFirst(st, next, rest, oks);
    }
  }

  lemma ClosedFirst(st: State, next: State, rest: seq<HandleId>, oks: seq<bool>)
    requires rest != [] && |oks| == |rest| && |next.handles| == |st.handles|
    requires forall h :: 0 <= h < |st.handles| ==> next.handles[h].key == st.handles[h].key
    requires forall i :: 0 <= i < |rest| ==> rest[i] < |st.handles|
    ensures ClosedKeys(st, rest, oks)
         == (if oks[0] then {st.handles[rest[0]].key} else {}) + ClosedKeys(next, rest[1..], oks[1..])
  {
    var all, later := ClosedKeys(st, rest, oks), ClosedKeys(next, rest[1..], oks[1..]);
    forall key ensures key in all <==> (oks[0] && key == st.handles[rest[0]].key) || key in later {
      if key in all {
        var i :| 0 <= i < |rest| && i < |oks| && oks[i] && rest[i] < |st.handles| && st.handles[rest[i]].key == key;
        assert i > 0 ==> rest[1..][i - 1] == rest[i] && oks[1..][i - 1];
      }
      if key in later {
        var i :| 0 <= i < |rest[1..]| && i < |oks[1..]| && oks[1..][i] && rest[1..][i] < |next.handles|
                 && next.handles[rest[1..][i]].key == key;
        assert rest[i + 1] == rest[1..][i] && oks[i + 1];
      }
    }
  }

  /** A finalization that no interrupt stops closes every tracked database whatever the library answers,
      and leaves nothing usable; only a key whose close was refused can survive a failing end. */
  lemma FinalizeEnds(steps: Steps, t: Thread, order: seq<HandleId>, oks: seq<bool>, fin: bool)
    requires Calm(steps) && RunOf(steps).lock.None? && RunOf(steps).running
    requires Lists(order, RunOf(steps).tracked) && |oks| == |order|
    ensures var st := RunOf(steps);
            var end := After(st, [(t, Begin(Finalize(order)))] + FinalizeSteps(t, oks, fin));
            !end.running && end.lock.None? && NothingOpen(end)
            && end.nativeOpen == if fin then {} else st.nativeOpen - ClosedKeys(st, order, oks)
  {
    var st := RunOf(steps);
    RunKeeps(START, steps);
    ListedAreFound(st, order);
    AfterStep(st, t, Begin(Finalize(order)), FinalizeSteps(t, oks, fin));
    EndingRuns(Step(st, t, Begin(Finalize(order))), t, order, oks, fin);
  }

  /** The whole of an opening that succeeds. */
  lemma OpenSteps(st: State, work: bool, key: Key)
    requires st.running && st.lock.None? && st.Pc(0) == Idle && key !in st.nativeOpen
    requires work ==> st.work.None? || st.work.value >= |st.handles| || !st.handles[st.work.value].open
    ensures var a := Begin(if work then Operation.WorkDb else Operation.OpenDb);
            var next := Step(Step(Step(st, 0, a), 0, NativeOpens(Some(key))), 0, Continue);
            var done := Register(st, key, work).(nativeOpen := st.nativeOpen + {key});
            if work then SameTables(Step(next, 0, Continue), done.(work := Some(|st.handles|)))
            else SameTables(next, done)
  {
  }

  /** The whole of a closing that succeeds, or that the library refuses. */
  lemma CloseSteps(st: State, h: HandleId, ok: bool)
    requires st.lock.None? && st.Pc(0) == Idle && h < |st.handles|
    ensures var begun := Step(st, 0, Begin(Operation.CloseDb(h)));
            var done := Step(Step(Step(begun, 0, NativeReturns(ok)), 0, Continue), 0, Continue);
            var closed := st.(nativeOpen := st.nativeOpen - {st.handles[h].key});
            SameTables(done,
                       if !st.handles[h].open then st
                       else if !st.running then st.Marked(h).Untracked(h)
                       else if ok then closed.Marked(h).Untracked(h)
                       else st)
  {
  }

  // -- the operations as one thread runs them ---------------------------------------------------------

  /** The actions of one locked operation, one after the other. */
  function Locked(st: State, t: Thread, actions: seq<Action>): State
    decreases |actions|
  {
    if actions == [] then st else Locked(Step(st, t, actions[0]), t, actions[1..])
  }

  lemma LockedThree(st: State, t: Thread, a: Action, b: Action, c: Action)
    ensures Locked(st, t, [a, b, c]) == Step(Step(Step(st, t, a), t, b), t, c)
  {
    assert [a, b, c][1..] == [b, c] && [b, c][1..] == [c] && [c][1..] == [];
    assert Locked(Step(st, t, a), t, [b, c]) == Locked(Step(Step(st, t, a), t, b), t, [c]);
  }

  lemma LockedFour(st: State, t: Thread, a: Action, b: Action, c: Action, d: Action)
    ensures Locked(st, t, [a, b, c, d]) == Step(Step(Step(Step(st, t, a), t, b), t, c), t, d)
  {
    assert [a, b, c, d][1..] == [b, c, d];
    LockedThree(Step(st, t, a), t, b, c, d);
  }

  predicate SameTables(a: State, b: State) {
    a.nativeOpen == b.nativeOpen && a.running == b.running && a.handles == b.handles
    && a.tracked == b.tracked && a.work == b.work
  }

  /** A new open handle of the key, listed under it; the library has the key open. */
  predicate Added(before: State, after: State, key: Key, work: bool) {
    after.handles == before.handles + [Handle(key, true, work)]
    && after.tracked == before.tracked[key := |before.handles|]
    && after.nativeOpen == before.nativeOpen + {key} && after.running == before.running
  }

  /** The session remembers a work database that is still open. */
  predicate OpenWorkKnown(st: State) {
    st.work.Some? && st.work.value < |st.handles| && st.handles[st.work.value].open
  }

  class Session {
    var nativeOpen: set<Key>
    var running: bool
    var handles: seq<Handle>
    var tracked: map<Key, HandleId>
    var work: Option<HandleId>

    function View(): State
      reads this
    {
      State(nativeOpen, running, handles, tracked, work, None, map[])
    }

    constructor ()
      ensures View() == START
    {
      nativeOpen, running, handles, tracked, work := {}, true, [], map[], None;
    }

    method Register(key: Key, isWork: bool) returns (h: HandleId)
      modifies this`handles, this`tracked
      ensures h == |old(handles)| && handles == old(handles) + [Handle(key, true, isWork)]
      ensures tracked == old(tracked)[key := h]
    {
      h := |handles|;
      handles := handles + [Handle(key, true, isWork)];
      tracked := tracked[key := h];
    }

    method Unregister(h: HandleId)
      requires h < |handles|
      modifies this`tracked, this`work
      ensures tracked == old(tracked) - {handles[h].key}
      ensures work == if old(work) == Some(h) then None else old(work)
    {
      tracked := tracked - {handles[h].key};
      if work == Some(h) {
        work := None;
      }
    }

    /** Open a database; the library answers with a new key or a status. */
    method OpenDb(key: Option<Key>) returns (h: Option<HandleId>)
      requires key.Some? ==> key.value !in nativeOpen
      modifies this
      ensures SameTables(View(), Locked(old(View()), 0, [Begin(Operation.OpenDb), NativeOpens(key), Continue]))
      ensures h.Some? <==> old(running) && key.Some?
      ensures h.Some? ==> Added(old(View()), View(), key.value, false) && h.value == |old(handles)| && work == old(work)
      ensures h.None? ==> View() == old(View())
    {
      LockedThree(View(), 0, Begin(Operation.OpenDb), NativeOpens(key), Continue);
      if !running || key.None? {
        return None;
      }
      OpenSteps(View(), false, key.value);
      nativeOpen := nativeOpen + {key.value};
      var id := Register(key.value, false);
      h := Some(id);
    }

    /** The open work database, or a new one. */
    method WorkDb(key: Option<Key>) returns (h: Option<HandleId>)
      requires key.Some? ==> key.value !in nativeOpen
      modifies this
      ensures SameTables(View(),
                Locked(old(View()), 0, [Begin(Operation.WorkDb), NativeOpens(key), Continue, Continue]))
      ensures h.Some? <==> old(running) && (OpenWorkKnown(old(View())) || key.Some?)
      ensures h.Some? ==> h.value < |handles| && handles[h.value].open && work == h
      ensures old(running) && OpenWorkKnown(old(View())) ==> h == old(work) && View() == old(View())
      ensures h.Some? && !OpenWorkKnown(old(View())) ==>
                Added(old(View()), View(), key.value, true) && h.value == |old(handles)|
      ensures h.None? ==> View() == old(View())
    {
      LockedFour(View(), 0, Begin(Operation.WorkDb), NativeOpens(key), Continue, Continue);
      if !running {
        return None;
      }
      if work.Some? && work.value < |handles| && handles[work.value].open {
        return work;
      }
      if key.None? {
        return None;
      }
      OpenSteps(View(), true, key.value);
      nativeOpen := nativeOpen + {key.value};
      var id := Register(key.value, true);
      work := Some(id);
      h := work;
    }

    /** Close a handle; closing twice is harmless, and a refused close changes nothing. */
    method CloseDb(h: HandleId, ok: bool)
      requires h < |handles|
      modifies this
      ensures SameTables(View(),
                Locked(old(View()), 0, [Begin(Operation.CloseDb(h)), NativeReturns(ok), Continue, Continue]))
      ensures !old(handles)[h].open || (old(running) && !ok) ==> View() == old(View())
      ensures old(handles)[h].open && (!old(running) || ok) ==>
                var was := old(handles)[h];
                handles == old(handles)[h := was.(open := false)] && tracked == old(tracked) - {was.key}
                && work == (if old(work) == Some(h) then None else old(work))
                && nativeOpen == (if old(running) then old(nativeOpen) - {was.key} else old(nativeOpen))
                && running == old(running)
    {
      LockedFour(View(), 0, Begin(Operation.CloseDb(h)), NativeReturns(ok), Continue, Continue);
      CloseSteps(View(), h, ok);
      hide Step, Locked;
      if !handles[h].open {
        return;
      }
      if !running {
        handles := handles[h := handles[h].(open := false)];
        Unregister(h);
        return;
      }
      if !ok {
        return;
      }
      nativeOpen := nativeOpen - {handles[h].key};
      handles := handles[h := handles[h].(open := false)];
      Unregister(h);
    }

    /** Every other call of a database: refused without a native call unless the handle is open and
        the session runs. */
    method UseDb(h: HandleId) returns (ok: bool)
      requires h < |handles|
      ensures ok <==> running && handles[h].open
      ensures ok == Step(View(), 0, Begin(Use(h))).Pc(0).Using?
    {
      ok := running && handles[h].open;
    }
  }
}
