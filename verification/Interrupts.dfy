/** Exceptions that are no library status: which of them lead to a native call on a closed key. */
module Interrupts {
  import opened Wrappers
  import opened Handles

  // -- what every run keeps, whatever interrupts it --------------------------------------------------

  predicate ListsFound(st: State, rest: seq<HandleId>) {
    (forall i, j :: 0 <= i < j < |rest| ==> rest[i] != rest[j])
    && (forall i :: 0 <= i < |rest| ==> rest[i] < |st.handles| && Found(st, rest[i]))
  }

  predicate Phase(st: State) {
    match Holder(st)
    case Idle => true
    case Opening(_) => st.running
    case Opened(_, key) => st.running && key in st.nativeOpen
    case Registered(h) => st.running && h < |st.handles| && st.handles[h].work && st.work != Some(h)
    case Using(h) => st.running && h < |st.handles| && st.handles[h].open
    case Closing(h) => st.running && h < |st.handles| && st.handles[h].open
    case Closed(h) => st.running && h < |st.handles| && st.handles[h].key !in st.nativeOpen
    case Unregistering(h) =>
      st.running && h < |st.handles| && st.handles[h].key !in st.nativeOpen && !st.handles[h].open
    case Ending(rest) => st.running && ListsFound(st, rest)
    case Invalidating(rest) => st.running && rest != [] && ListsFound(st, rest)
    case Finishing => !st.running
  }

  /** The remembered work database is one, open or not. */
  predicate WorkIsWork(st: State) {
    st.work.Some? ==> st.work.value < |st.handles| && st.handles[st.work.value].work
  }

  predicate Base(st: State) {
    LockHeld(st) && Tables(st) && WorkIsWork(st) && Phase(st)
  }

  lemma StartKeepsBase(st: State, t: Thread, op: Operation)
    requires Base(st) && st.lock.None?
    ensures Base(Start(st, t, op))
  {
    if op.Finalize? && Lists(op.order, st.tracked) {
      ListedAreFound(st, op.order);
    }
  }

  lemma EndingKeepsBase(st: State, t: Thread, a: Action)
    requires Base(st) && st.lock == Some(t) && st.Pc(t).Ending? && !a.Interrupt?
    ensures Base(Step(st, t, a))
  {
    var next := Step(st, t, a);
    assert next.tracked == st.tracked ==> forall h :: 0 <= h < |st.handles| ==> Found(next, h) == Found(st, h);
  }

  lemma InvalidatingKeepsBase(st: State, t: Thread, a: Action)
    requires Base(st) && st.lock == Some(t) && st.Pc(t).Invalidating? && !a.Interrupt?
    ensures Base(Step(st, t, a))
  {
    var next := Step(st, t, a);
    assert forall h :: 0 <= h < |st.handles| ==> Found(next, h) == Found(st, h);
  }

  lemma OpeningKeepsBase(st: State, t: Thread, a: Action)
    requires Base(st) && st.lock == Some(t) && !a.Interrupt?
    requires st.Pc(t).Opening? || st.Pc(t).Opened? || st.Pc(t).Registered?
    ensures Base(Step(st, t, a))
  {
  }

  lemma ClosingKeepsBase(st: State, t: Thread, a: Action)
    requires Base(st) && st.lock == Some(t) && !a.Interrupt?
    requires st.Pc(t).Closing? || st.Pc(t).Closed? || st.Pc(t).Unregistering?
    ensures Base(Step(st, t, a))
  {
  }

  lemma BaseStep(st: State, t: Thread, a: Action)
    requires Base(st)
    ensures Base(Step(st, t, a))
  {
    if !a.Interrupt? {
      match st.Pc(t)
      case Idle => if a.Begin? && st.lock.None? { StartKeepsBase(st, t, a.op); }
      case Opening(_) => OpeningKeepsBase(st, t, a);
      case Opened(_, _) => OpeningKeepsBase(st, t, a);
      case Registered(_) => OpeningKeepsBase(st, t, a);
      case Closing(_) => ClosingKeepsBase(st, t, a);
      case Closed(_) => ClosingKeepsBase(st, t, a);
      case Unregistering(_) => ClosingKeepsBase(st, t, a);
      case Ending(_) => EndingKeepsBase(st, t, a);
      case Invalidating(_) => InvalidatingKeepsBase(st, t, a);
      case _ =>
    }
  }

  lemma {:induction false} RunIsBase(st: State, steps: Steps)
    requires Base(st)
    ensures Base(After(st, steps))
    decreases |steps|
  {
    if steps != [] {
      BaseStep(st, steps[0].0, steps[0].1);
      RunIsBase(Step(st, steps[0].0, steps[0].1), steps[1..]);
    }
  }

  // -- misuse ---------------------------------------------------------------------------------------

  /** The thread's next native call names a key the library does not have open. */
  predicate Misuses(st: State, t: Thread) {
    NextKey(st, t).Some? && NextKey(st, t).value !in st.nativeOpen
  }

  /** Without any further interrupt some schedule makes a native call on a closed key. */
  ghost predicate MisusedLater(st: State) {
    exists steps, t :: Calm(steps) && Misuses(After(st, steps), t)
  }

  /** The session trusts open keys only, and no key through two handles. */
  predicate Sound(st: State) {
    st.tracked.Keys <= st.nativeOpen
    && (forall h :: 0 <= h < |st.handles| && st.handles[h].open ==> st.handles[h].key in st.nativeOpen)
    && forall g, h :: 0 <= g < h < |st.handles| && st.handles[g].open && st.handles[h].open ==>
         st.handles[g].key != st.handles[h].key
  }

  /** The session once the operation under way has done what remains after its native call. */
  function Settled(st: State): State {
    match Holder(st)
    case Opened(work, key) => Register(st, key, work)
    case Closed(h) => if h < |st.handles| then st.Marked(h).Untracked(h) else st
    case Unregistering(h) => if h < |st.handles| then st.Untracked(h) else st
    case _ => st
  }

  /** A finalization under way still has to close open keys only; otherwise the settled session is sound. */
  predicate Safe(st: State) {
    match Holder(st)
    case Ending(rest) => KeysOpen(st, rest, 0)
    case Invalidating(rest) => KeysOpen(st, rest, 1)
    case _ => st.running ==> Sound(Settled(st))
  }

  lemma SafeNow(st: State, t: Thread)
    requires Base(st) && Safe(st)
    ensures !Misuses(st, t)
  {
  }

  lemma StartStaysSafe(st: State, t: Thread, op: Operation)
    requires Base(st) && Safe(st) && st.lock.None?
    ensures Safe(Start(st, t, op))
  {
    if op.Finalize? && st.running && Lists(op.order, st.tracked) {
      ListedAreFound(st, op.order);
    }
  }

  lemma EndingStaysSafe(st: State, t: Thread, rest: seq<HandleId>, a: Action)
    requires Base(st) && Safe(st) && st.lock == Some(t) && !a.Interrupt?
    requires st.Pc(t) == Ending(rest) || st.Pc(t) == Invalidating(rest)
    ensures Safe(Step(st, t, a))
  {
  }

  lemma OpeningStaysSafe(st: State, t: Thread, a: Action)
    requires Base(st) && Safe(st) && st.lock == Some(t) && !a.Interrupt?
    requires st.Pc(t).Opening? || st.Pc(t).Opened? || st.Pc(t).Registered?
    ensures Safe(Step(st, t, a))
  {
  }

  lemma ClosingStaysSafe(st: State, t: Thread, a: Action)
    requires Base(st) && Safe(st) && st.lock == Some(t) && !a.Interrupt?
    requires st.Pc(t).Closing? || st.Pc(t).Closed? || st.Pc(t).Unregistering?
    ensures Safe(Step(st, t, a))
  {
  }

  lemma SafeStays(st: State, t: Thread, a: Action)
    requires Base(st) && Safe(st) && !a.Interrupt?
    ensures Safe(Step(st, t, a))
  {
    match st.Pc(t)
    case Idle => if a.Begin? && st.lock.None? { StartStaysSafe(st, t, a.op); }
    case Opening(_) => OpeningStaysSafe(st, t, a);
    case Opened(_, _) => OpeningStaysSafe(st, t, a);
    case Registered(_) => OpeningStaysSafe(st, t, a);
    case Closing(_) => ClosingStaysSafe(st, t, a);
    case Closed(_) => ClosingStaysSafe(st, t, a);
    case Unregistering(_) => ClosingStaysSafe(st, t, a);
    case Ending(rest) => EndingStaysSafe(st, t, rest, a);
    case Invalidating(rest) => EndingStaysSafe(st, t, rest, a);
    case _ =>
  }

  lemma {:induction false} SafeForGood(st: State, steps: Steps, t: Thread)
    requires Base(st) && Safe(st) && Calm(steps)
    ensures !Misuses(After(st, steps), t)
    decreases |steps|
  {
    if steps == [] {
      SafeNow(st, t);
    } else {
      BaseStep(st, steps[0].0, steps[0].1);
      SafeStays(st, steps[0].0, steps[0].1);
      SafeForGood(Step(st, steps[0].0, steps[0].1), steps[1..], t);
    }
  }

  // -- from an unsound session to a misuse --------------------------------------------------------------

  lemma MisusedNow(st: State, t: Thread)
    requires Misuses(st, t)
    ensures MisusedLater(st)
  {
    assert After(st, []) == st && Calm([]);
  }

  lemma MisusedAfter(st: State, t: Thread, a: Action)
    requires !a.Interrupt? && MisusedLater(Step(st, t, a))
    ensures MisusedLater(st)
  {
    var steps, u :| Calm(steps) && Misuses(After(Step(st, t, a), steps), u);
    var all := [(t, a)] + steps;
    assert all[1..] == steps;
    assert After(st, all) == After(Step(st, t, a), steps);
    assert Calm(all);
  }

  /** Every tracked handle once, one of them first. */
  lemma {:induction false} OrderFrom(tracked: map<Key, HandleId>, first: Key) returns (order: seq<HandleId>)
    requires first in tracked
    requires forall j, k :: j in tracked && k in tracked && j != k ==> tracked[j] != tracked[k]
    ensures Lists(order, tracked) && order != [] && order[0] == tracked[first]
    decreases |tracked|
  {
    var others := tracked - {first};
    var rest: seq<HandleId> := [];
    if second :| second in others {
      rest := OrderFrom(others, second);
    }
    order := [tracked[first]] + rest;
    ListedFirst(tracked, first, rest);
  }

  lemma ListedFirst(tracked: map<Key, HandleId>, first: Key, rest: seq<HandleId>)
    requires first in tracked && Lists(rest, tracked - {first})
    requires forall j, k :: j in tracked && k in tracked && j != k ==> tracked[j] != tracked[k]
    ensures Lists([tracked[first]] + rest, tracked)
  {
    var others, order := tracked - {first}, [tracked[first]] + rest;
    assert Tracks(tracked, tracked[first]);
    forall i | 0 <= i < |rest| ensures Tracks(tracked, rest[i]) && rest[i] != tracked[first] {
      assert Tracks(others, rest[i]);
    }
    forall k | k in tracked ensures tracked[k] in order {
      assert order[0] == tracked[first];
      if k != first {
        assert k in others && tracked[k] in rest;
      }
    }
  }

  /** A finalization can start with the handle of any tracked key. */
  lemma StaleKeyMisused(st: State, key: Key)
    requires Base(st) && st.lock.None? && st.running && key in st.tracked && key !in st.nativeOpen
    ensures MisusedLater(st)
  {
    var order := OrderFrom(st.tracked, key);
    var begin := Begin(Finalize(order));
    MisusedNow(Step(st, 0, begin), 0);
    MisusedAfter(st, 0, begin);
  }

  lemma StaleHandleMisused(st: State, h: HandleId)
    requires Base(st) && st.lock.None? && st.running
    requires h < |st.handles| && st.handles[h].open && st.handles[h].key !in st.nativeOpen
    ensures MisusedLater(st)
  {
    var begin := Begin(Use(h));
    MisusedNow(Step(st, 0, begin), 0);
    MisusedAfter(st, 0, begin);
  }

  lemma ClosingLeavesStale(st: State, g: HandleId, h: HandleId)
    requires Base(st) && st.lock.None? && st.running && g < |st.handles| && h < |st.handles| && g != h
    requires st.handles[g].open && st.handles[h].open && st.handles[g].key == st.handles[h].key
    ensures var closed := Step(Step(st, 0, Begin(CloseDb(g))), 0, NativeReturns(true));
            var done := Step(Step(closed, 0, Continue), 0, Continue);
            done.lock.None? && done.running && h < |done.handles| && done.handles[h].open
            && done.handles[h].key !in done.nativeOpen
  {
    CloseGoes(st, g);
    hide Step, Base;
  }

  /** An undisturbed close, step by step. */
  lemma CloseGoes(st: State, g: HandleId)
    requires Base(st) && st.lock.None? && st.running && g < |st.handles| && st.handles[g].open
    ensures var s1 := Step(st, 0, Begin(CloseDb(g)));
            var s2 := Step(s1, 0, NativeReturns(true));
            var s3 := Step(s2, 0, Continue);
            s1 == st.At(0, Closing(g)) && s2 == s1.(nativeOpen := st.nativeOpen - {st.handles[g].key}).At(0, Closed(g))
            && s3 == s2.Marked(g).At(0, Unregistering(g)) && Step(s3, 0, Continue) == s3.Untracked(g).Release(0)
  {
    hide State.Untracked;
  }

  /** Closing one of two handles leaves the other one with a closed key. */
  lemma SharedKeyMisused(st: State, g: HandleId, h: HandleId)
    requires Base(st) && st.lock.None? && st.running && g < |st.handles| && h < |st.handles| && g != h
    requires st.handles[g].open && st.handles[h].open && st.handles[g].key == st.handles[h].key
    ensures MisusedLater(st)
  {
    ClosingLeavesStale(st, g, h);
    hide Step, Base, MisusedLater;
    var s1 := Step(st, 0, Begin(CloseDb(g)));
    var s2 := Step(s1, 0, NativeReturns(true));
    var s3 := Step(s2, 0, Continue);
    var s4 := Step(s3, 0, Continue);
    BaseStep(st, 0, Begin(CloseDb(g)));
    BaseStep(s1, 0, NativeReturns(true));
    BaseStep(s2, 0, Continue);
    BaseStep(s3, 0, Continue);
    StaleHandleMisused(s4, h);
    MisusedAfter(s3, 0, Continue);
    MisusedAfter(s2, 0, Continue);
    MisusedAfter(s1, 0, NativeReturns(true));
    MisusedAfter(st, 0, Begin(CloseDb(g)));
  }

  lemma UnsoundMisused(st: State)
    requires Base(st) && st.lock.None? && st.running && !Sound(st)
    ensures MisusedLater(st)
  {
    if key :| key in st.tracked && key !in st.nativeOpen {
      StaleKeyMisused(st, key);
    } else if h: HandleId :| h < |st.handles| && st.handles[h].open && st.handles[h].key !in st.nativeOpen {
      StaleHandleMisused(st, h);
    } else {
      var g: HandleId, h: HandleId :| g < h < |st.handles| && st.handles[g].open && st.handles[h].open
                                      && st.handles[g].key == st.handles[h].key;
      SharedKeyMisused(st, g, h);
    }
  }

  lemma {:induction false} EndingMisused(st: State, t: Thread, rest: seq<HandleId>)
    requires Base(st) && st.lock == Some(t) && st.Pc(t) == Ending(rest) && !KeysOpen(st, rest, 0)
    ensures MisusedLater(st)
    decreases |rest|
  {
    if st.handles[rest[0]].key !in st.nativeOpen {
      MisusedNow(st, t);
    } else {
      BaseStep(st, t, NativeReturns(false));
      InvalidatingMisused(Step(st, t, NativeReturns(false)), t, rest);
      MisusedAfter(st, t, NativeReturns(false));
    }
  }

  lemma {:induction false} InvalidatingMisused(st: State, t: Thread, rest: seq<HandleId>)
    requires Base(st) && st.lock == Some(t) && st.Pc(t) == Invalidating(rest) && !KeysOpen(st, rest, 1)
    ensures MisusedLater(st)
    decreases |rest|, 0
  {
    var next := Step(st, t, Continue);
    BaseStep(st, t, Continue);
    var i :| 1 <= i < |rest| && st.handles[rest[i]].key !in st.nativeOpen;
    assert rest[1..][i - 1] == rest[i];
    EndingMisused(next, t, rest[1..]);
    MisusedAfter(st, t, Continue);
  }

  /** The calm step that brings an operation closer to its end, without a successful native call. */
  function Onward(pc: Pc): Action {
    match pc
    case Opening(_) => NativeOpens(None)
    case Closing(_) => NativeReturns(false)
    case _ => Continue
  }

  function Distance(pc: Pc): nat {
    match pc
    case Idle => 0
    case Opened(_, _) => 2
    case Closed(_) => 2
    case _ => 1
  }

  lemma {:induction false} UnsafeMisused(st: State)
    requires Base(st) && !Safe(st)
    ensures MisusedLater(st)
    decreases Distance(Holder(st))
  {
    match Holder(st)
    case Idle => UnsoundMisused(st);
    case Ending(rest) => EndingMisused(st, st.lock.value, rest);
    case Invalidating(rest) => InvalidatingMisused(st, st.lock.value, rest);
    case _ =>
      var t, a := st.lock.value, Onward(Holder(st));
      BaseStep(st, t, a);
      OnwardStaysUnsafe(st, t);
      UnsafeMisused(Step(st, t, a));
      MisusedAfter(st, t, a);
  }

  lemma OnwardStaysUnsafe(st: State, t: Thread)
    requires Base(st) && !Safe(st) && st.lock == Some(t)
    requires !Holder(st).Idle? && !Holder(st).Ending? && !Holder(st).Invalidating?
    ensures var next := Step(st, t, Onward(Holder(st)));
            !Safe(next) && Distance(Holder(next)) < Distance(Holder(st))
  {
  }

  lemma MisusedLaterIff(st: State)
    requires Base(st)
    ensures MisusedLater(st) <==> !Safe(st)
  {
    if !Safe(st) {
      UnsafeMisused(st);
    } else if MisusedLater(st) {
      var more, t :| Calm(more) && Misuses(After(st, more), t);
      SafeForGood(st, more, t);
    }
  }

  /** After any run, interrupted or not, a native call on a closed key can follow exactly when the
      session is not safe. */
  lemma MisusedIff(steps: Steps)
    ensures MisusedLater(RunOf(steps)) <==> !Safe(RunOf(steps))
  {
    RunIsBase(START, steps);
    MisusedLaterIff(RunOf(steps));
  }

  // -- which interrupts do harm ---------------------------------------------------------------------------

  predicate FoundWhenOpen(st: State) {
    forall h :: 0 <= h < |st.handles| && st.handles[h].open ==> Found(st, h)
  }

  predicate OpenIn(st: State, rest: seq<HandleId>) {
    forall h :: 0 <= h < |st.handles| && st.handles[h].open ==> h in rest
  }

  /** What runs keep whose interrupts have done no harm so far. */
  predicate Sane(st: State) {
    Base(st) && FoundWhenOpen(st)
    && match Holder(st)
       case Opened(_, key) => st.tracked.Keys <= st.nativeOpen && key !in st.tracked
       case Closed(h) => st.handles[h].open && st.tracked.Keys - {st.handles[h].key} <= st.nativeOpen
       case Unregistering(h) =>
         !st.handles[h].open && Found(st, h) && st.tracked.Keys - {st.handles[h].key} <= st.nativeOpen
       case Ending(rest) => OpenIn(st, rest) && KeysOpen(st, rest, 0)
       case Invalidating(rest) => OpenIn(st, rest) && KeysOpen(st, rest, 1)
       case _ => st.running ==> st.tracked.Keys <= st.nativeOpen
  }

  /** An interrupt after a close has succeeded and before the session has forgotten its key. */
  predicate Harms(st: State, t: Thread) {
    match st.Pc(t)
    case Closed(_) => true
    case Unregistering(_) => true
    case Ending(_) => !(st.tracked.Keys <= st.nativeOpen)
    case Invalidating(_) => !(st.tracked.Keys <= st.nativeOpen)
    case _ => false
  }

  lemma SaneIsSafe(st: State)
    requires Sane(st)
    ensures Safe(st)
  {
  }

  /** An interrupt makes a native call on a closed key possible exactly when it falls between a
      successful close and the session's forgetting the key. */
  lemma InterruptHarmsIff(st: State, t: Thread)
    requires Sane(st)
    ensures MisusedLater(Step(st, t, Interrupt)) <==> Harms(st, t)
  {
    var next := Step(st, t, Interrupt);
    BaseStep(st, t, Interrupt);
    InterruptSafeIff(st, t);
    MisusedLaterIff(next);
  }

  lemma InterruptSafeIff(st: State, t: Thread)
    requires Sane(st)
    ensures Safe(Step(st, t, Interrupt)) <==> !Harms(st, t)
  {
    SaneIsSafe(st);
  }

  lemma StartStaysSane(st: State, t: Thread, op: Operation)
    requires Sane(st) && st.lock.None?
    ensures Sane(Start(st, t, op))
  {
    StartKeepsBase(st, t, op);
    if op.Finalize? && Lists(op.order, st.tracked) {
      ListedAreFound(st, op.order);
    }
  }

  lemma OpeningStaysSane(st: State, t: Thread, a: Action)
    requires Sane(st) && st.lock == Some(t) && !a.Interrupt?
    requires st.Pc(t).Opening? || st.Pc(t).Opened? || st.Pc(t).Registered?
    ensures Sane(Step(st, t, a))
  {
    BaseStep(st, t, a);
  }

  lemma ClosingStaysSane(st: State, t: Thread, a: Action)
    requires Sane(st) && st.lock == Some(t) && !a.Interrupt?
    requires st.Pc(t).Closing? || st.Pc(t).Closed? || st.Pc(t).Unregistering?
    ensures Sane(Step(st, t, a))
  {
    BaseStep(st, t, a);
  }

  lemma EndingStaysSane(st: State, t: Thread, a: Action)
    requires Sane(st) && st.lock == Some(t) && (st.Pc(t).Ending? || st.Pc(t).Invalidating?) && !a.Interrupt?
    ensures Sane(Step(st, t, a))
  {
    BaseStep(st, t, a);
  }

  lemma SaneStays(st: State, t: Thread, a: Action)
    requires Sane(st) && (a.Interrupt? ==> !Harms(st, t))
    ensures Sane(Step(st, t, a))
  {
    if a.Interrupt? {
      BaseStep(st, t, a);
    } else {
      match st.Pc(t)
      case Idle => if a.Begin? && st.lock.None? { StartStaysSane(st, t, a.op); }
      case Opening(_) => OpeningStaysSane(st, t, a);
      case Opened(_, _) => OpeningStaysSane(st, t, a);
      case Registered(_) => OpeningStaysSane(st, t, a);
      case Closing(_) => ClosingStaysSane(st, t, a);
      case Closed(_) => ClosingStaysSane(st, t, a);
      case Unregistering(_) => ClosingStaysSane(st, t, a);
      case Ending(_) => EndingStaysSane(st, t, a);
      case Invalidating(_) => EndingStaysSane(st, t, a);
      case _ =>
    }
  }

  /** No interrupt of the run falls where it does harm. */
  predicate Harmless(st: State, steps: Steps)
    decreases |steps|
  {
    steps == []
    || ((steps[0].1.Interrupt? ==> !Harms(st, steps[0].0)) && Harmless(Step(st, steps[0].0, steps[0].1), steps[1..]))
  }

  lemma {:induction false} HarmlessIsSane(st: State, steps: Steps)
    requires Sane(st) && Harmless(st, steps)
    ensures Sane(After(st, steps))
    decreases |steps|
  {
    if steps != [] {
      SaneStays(st, steps[0].0, steps[0].1);
      HarmlessIsSane(Step(st, steps[0].0, steps[0].1), steps[1..]);
    }
  }

  /** A native call never names a key the library has closed, and never follows the finalization,
      unless an interrupt fell between a successful close and the session's forgetting the key. */
  lemma NoClosedKey(steps: Steps, t: Thread)
    requires Harmless(START, steps) && NextKey(RunOf(steps), t).Some?
    ensures var st := RunOf(steps);
            st.running && NextKey(st, t).value in st.nativeOpen && st.lock == Some(t)
  {
    HarmlessIsSane(START, steps);
    SaneIsSafe(RunOf(steps));
    SafeNow(RunOf(steps), t);
  }

  /** The first interrupt that falls there does make such a call possible, and no other one does. */
  lemma InterruptedRunIff(steps: Steps, t: Thread)
    requires Harmless(START, steps)
    ensures MisusedLater(Step(RunOf(steps), t, Interrupt)) <==> Harms(RunOf(steps), t)
  {
    HarmlessIsSane(START, steps);
    InterruptHarmsIff(RunOf(steps), t);
  }

  // -- the key an interrupt loses ---------------------------------------------------------------------------

  /** Neither the table nor a usable handle leads to the key. */
  predicate NoWayTo(st: State, key: Key) {
    key !in st.tracked && forall h :: 0 <= h < |st.handles| && st.handles[h].open ==> st.handles[h].key != key
  }

  /** The library has the key open, and the session has no way to it. */
  predicate Lost(st: State, key: Key) {
    key in st.nativeOpen && NoWayTo(st, key) && (Holder(st).Opened? ==> Holder(st).key != key)
  }

  lemma {:induction false} LostStays(st: State, steps: Steps, key: Key)
    requires Base(st) && Lost(st, key)
    ensures var end := After(st, steps); end.running ==> Lost(end, key)
    decreases |steps|
  {
    if steps != [] {
      var (t, a) := steps[0];
      BaseStep(st, t, a);
      var next := Step(st, t, a);
      if Lost(next, key) {
        LostStays(next, steps[1..], key);
      } else {
        LostUntilEnd(st, t, a, key);
        EndedForGood(next, steps[1..]);
      }
    }
  }

  lemma LostUntilEnd(st: State, t: Thread, a: Action, key: Key)
    requires Base(st) && Lost(st, key)
    ensures Lost(Step(st, t, a), key) || !Step(st, t, a).running
  {
    match st.Pc(t)
    case Ending(rest) => LostInEnding(st, t, a, key, rest);
    case _ =>
  }

  lemma LostInEnding(st: State, t: Thread, a: Action, key: Key, rest: seq<HandleId>)
    requires Base(st) && Lost(st, key) && st.Pc(t) == Ending(rest)
    ensures Lost(Step(st, t, a), key) || !Step(st, t, a).running
  {
  }

  lemma {:induction false} EndedForGood(st: State, steps: Steps)
    requires Base(st) && !st.running
    ensures !After(st, steps).running
    decreases |steps|
  {
    if steps != [] {
      BaseStep(st, steps[0].0, steps[0].1);
      EndedForGood(Step(st, steps[0].0, steps[0].1), steps[1..]);
    }
  }

  /** An interrupt between opening and registration loses the key: whatever happens later, it stays
      open and out of reach for as long as the session runs. */
  lemma InterruptLosesKey(steps: Steps, t: Thread, more: Steps)
    requires Harmless(START, steps) && RunOf(steps).Pc(t).Opened?
    ensures var st := RunOf(steps);
            var end := After(Step(st, t, Interrupt), more);
            end.running ==> Lost(end, st.Pc(t).key)
  {
    var st := RunOf(steps);
    HarmlessIsSane(START, steps);
    BaseStep(st, t, Interrupt);
    OpenedIsLost(st, t);
    LostStays(Step(st, t, Interrupt), more, st.Pc(t).key);
  }

  lemma OpenedIsLost(st: State, t: Thread)
    requires Sane(st) && st.Pc(t).Opened?
    ensures Lost(Step(st, t, Interrupt), st.Pc(t).key)
  {
  }

  /** An interrupt between opening and registration, of a key the session does not know otherwise. */
  predicate Loses(st: State, t: Thread, a: Action) {
    a.Interrupt? && st.Pc(t).Opened? && NoWayTo(st, st.Pc(t).key)
  }

  /** No other step of a running session loses a key, whatever interrupts came before. */
  lemma StepLosesIff(st: State, t: Thread, a: Action, key: Key)
    requires Base(st) && !Lost(st, key) && Step(st, t, a).running
    ensures Lost(Step(st, t, a), key) <==> Loses(st, t, a) && st.Pc(t).key == key
  {
    match st.Pc(t)
    case Idle =>
    case Opened(_, _) => if a.Continue? { RegisteringLosesNone(st, t, key); }
    case Closed(_) => if a.Continue? { MarkingLosesNone(st, t, key); }
    case Invalidating(_) => if a.Continue? { MarkingLosesNone(st, t, key); }
    case _ =>
  }

  lemma MarkingLosesNone(st: State, t: Thread, key: Key)
    requires Base(st) && !Lost(st, key) && (st.Pc(t).Closed? || st.Pc(t).Invalidating?)
    ensures !Lost(Step(st, t, Continue), key)
  {
    var next := Step(st, t, Continue);
    if g: HandleId :| g < |st.handles| && st.handles[g].open && st.handles[g].key == key {
      assert next.handles[g] == st.handles[g] || st.handles[g].key !in st.nativeOpen || Found(st, g);
    }
  }

  lemma RegisteringLosesNone(st: State, t: Thread, key: Key)
    requires Base(st) && !Lost(st, key) && st.Pc(t).Opened?
    ensures !Lost(Step(st, t, Continue), key)
  {
    var next := Step(st, t, Continue);
    assert forall h :: 0 <= h < |st.handles| ==> next.handles[h] == st.handles[h];
    assert st.Pc(t).key in next.tracked;
  }

  predicate SomeLoses(st: State, steps: Steps)
    decreases |steps|
  {
    steps != [] && (Loses(st, steps[0].0, steps[0].1) || SomeLoses(Step(st, steps[0].0, steps[0].1), steps[1..]))
  }

  ghost predicate SomeLost(st: State) {
    exists key: Key :: Lost(st, key)
  }

  lemma LostByStepIff(st: State, t: Thread, a: Action)
    requires Base(st) && Step(st, t, a).running
    ensures SomeLost(Step(st, t, a)) <==> SomeLost(st) || Loses(st, t, a)
  {
    hide Lost, Loses, Step, Base;
    var next := Step(st, t, a);
    if key: Key :| Lost(st, key) {
      LostUntilEnd(st, t, a, key);
    } else if key: Key :| Lost(next, key) {
      StepLosesIff(st, t, a, key);
    } else if Loses(st, t, a) {
      LosesIsOpened(st, t, a);
      StepLosesIff(st, t, a, st.Pc(t).key);
    }
  }

  lemma LosesIsOpened(st: State, t: Thread, a: Action)
    requires Loses(st, t, a)
    ensures st.Pc(t).Opened?
  {
  }

  lemma {:induction false} LostAfterIff(st: State, steps: Steps)
    requires Base(st) && After(st, steps).running
    ensures SomeLost(After(st, steps)) <==> SomeLost(st) || SomeLoses(st, steps)
    decreases |steps|
  {
    if steps != [] {
      var (t, a) := steps[0];
      BaseStep(st, t, a);
      var next := Step(st, t, a);
      if next.running {
        LostByStepIff(st, t, a);
        LostAfterIff(next, steps[1..]);
      } else {
        EndedForGood(next, steps[1..]);
      }
    }
  }

  /** After any run of a session that still runs, interrupted or not, the library has a key open that the
      session cannot reach exactly when some interrupt fell between an opening and its registration. */
  lemma KeyLostIff(steps: Steps)
    requires RunOf(steps).running
    ensures SomeLost(RunOf(steps)) <==> SomeLoses(START, steps)
  {
    LostAfterIff(START, steps);
  }

  predicate SomeAtOpened(st: State, steps: Steps)
    decreases |steps|
  {
    steps != []
    && ((steps[0].1.Interrupt? && st.Pc(steps[0].0).Opened?)
        || SomeAtOpened(Step(st, steps[0].0, steps[0].1), steps[1..]))
  }

  /** As long as no interrupt makes the session trust a closed key, every interrupt there loses one. */
  lemma {:induction false} HarmlessLosesIff(st: State, steps: Steps)
    requires Sane(st) && Harmless(st, steps)
    ensures SomeLoses(st, steps) <==> SomeAtOpened(st, steps)
    decreases |steps|
  {
    if steps != [] {
      var (t, a) := steps[0];
      if st.Pc(t).Opened? {
        OpenedIsUnknown(st, t);
      }
      SaneStays(st, t, a);
      HarmlessLosesIff(Step(st, t, a), steps[1..]);
    }
  }

  lemma OpenedIsUnknown(st: State, t: Thread)
    requires Sane(st) && st.Pc(t).Opened?
    ensures NoWayTo(st, st.Pc(t).key)
  {
  }

  lemma HarmlessKeyLostIff(steps: Steps)
    requires Harmless(START, steps) && RunOf(steps).running
    ensures SomeLost(RunOf(steps)) <==> SomeAtOpened(START, steps)
  {
    KeyLostIff(steps);
    HarmlessLosesIff(START, steps);
  }

  // -- the second work database -------------------------------------------------------------------------------

  predicate TwoWork(st: State, g: int, h: int) {
    st.running && g != h && OpenWork(st, g) && OpenWork(st, h)
  }

  /** Without any further interrupt two work databases can be open at once. */
  ghost predicate TwoWorkLater(st: State) {
    exists steps, g: int, h: int :: Calm(steps) && TwoWork(After(st, steps), g, h)
  }

  /** Every open work database is the one the session remembers, or about to be remembered. */
  ghost predicate WorkSane(st: State) {
    st.running ==>
      match Holder(st)
      case Opening(work) => if work then NoOpenWork(st) else WorkRemembered(st)
      case Opened(work, _) => if work then NoOpenWork(st) else WorkRemembered(st)
      case Registered(h) => OpenWork(st, h) && forall g :: OpenWork(st, g) ==> g == h
      case _ => WorkRemembered(st)
  }

  ghost predicate NoOpenWork(st: State) {
    forall h :: !OpenWork(st, h)
  }

  ghost predicate WorkRemembered(st: State) {
    forall h :: OpenWork(st, h) ==> st.work == Some(h)
  }

  lemma WorkSaneIsOne(st: State, g: int, h: int)
    requires WorkSane(st)
    ensures !TwoWork(st, g, h)
  {
  }

  lemma StartStaysWorkSane(st: State, t: Thread, op: Operation)
    requires Base(st) && WorkSane(st) && st.lock.None?
    ensures WorkSane(Start(st, t, op))
  {
    assert forall h :: OpenWork(Start(st, t, op), h) ==> OpenWork(st, h);
  }

  lemma OpeningStaysWorkSane(st: State, t: Thread, a: Action)
    requires Base(st) && WorkSane(st) && st.lock == Some(t) && !a.Interrupt?
    requires st.Pc(t).Opening? || st.Pc(t).Opened? || st.Pc(t).Registered?
    ensures WorkSane(Step(st, t, a))
  {
    var next := Step(st, t, a);
    if st.Pc(t).Opened? && a.Continue? {
      assert forall h :: OpenWork(next, h) <==> OpenWork(st, h) || (h == |st.handles| && st.Pc(t).work);
    } else {
      assert forall h :: OpenWork(next, h) <==> OpenWork(st, h);
    }
  }

  lemma ClosingStaysWorkSane(st: State, t: Thread, a: Action)
    requires Base(st) && WorkSane(st) && st.lock == Some(t) && !a.Interrupt?
    requires !st.Pc(t).Idle? && !st.Pc(t).Opening? && !st.Pc(t).Opened? && !st.Pc(t).Registered?
    ensures WorkSane(Step(st, t, a))
  {
    assert forall h :: OpenWork(Step(st, t, a), h) ==> OpenWork(st, h);
  }

  lemma InterruptStaysWorkSane(st: State, t: Thread)
    requires Base(st) && WorkSane(st) && !st.Pc(t).Registered?
    ensures WorkSane(Step(st, t, Interrupt))
  {
    assert forall h :: OpenWork(Step(st, t, Interrupt), h) <==> OpenWork(st, h);
  }

  lemma WorkStaysSane(st: State, t: Thread, a: Action)
    requires Base(st) && WorkSane(st) && (a.Interrupt? ==> !st.Pc(t).Registered?)
    ensures WorkSane(Step(st, t, a))
  {
    if a.Interrupt? {
      InterruptStaysWorkSane(st, t);
    } else {
      match st.Pc(t)
      case Idle => if a.Begin? && st.lock.None? { StartStaysWorkSane(st, t, a.op); }
      case Opening(_) => OpeningStaysWorkSane(st, t, a);
      case Opened(_, _) => OpeningStaysWorkSane(st, t, a);
      case Registered(_) => OpeningStaysWorkSane(st, t, a);
      case _ => ClosingStaysWorkSane(st, t, a);
    }
  }

  lemma {:induction false} OneWorkForGood(st: State, steps: Steps, g: int, h: int)
    requires Base(st) && WorkSane(st) && Calm(steps)
    ensures !TwoWork(After(st, steps), g, h)
    decreases |steps|
  {
    if steps == [] {
      WorkSaneIsOne(st, g, h);
    } else {
      BaseStep(st, steps[0].0, steps[0].1);
      WorkStaysSane(st, steps[0].0, steps[0].1);
      OneWorkForGood(Step(st, steps[0].0, steps[0].1), steps[1..], g, h);
    }
  }

  /** No interrupt of the run falls between registering a work database and remembering it. */
  predicate NoneAtRegistered(st: State, steps: Steps)
    decreases |steps|
  {
    steps == []
    || ((steps[0].1.Interrupt? ==> !st.Pc(steps[0].0).Registered?)
        && NoneAtRegistered(Step(st, steps[0].0, steps[0].1), steps[1..]))
  }

  lemma {:induction false} RunIsWorkSane(st: State, steps: Steps)
    requires Base(st) && WorkSane(st) && NoneAtRegistered(st, steps)
    ensures WorkSane(After(st, steps))
    decreases |steps|
  {
    if steps != [] {
      BaseStep(st, steps[0].0, steps[0].1);
      WorkStaysSane(st, steps[0].0, steps[0].1);
      RunIsWorkSane(Step(st, steps[0].0, steps[0].1), steps[1..]);
    }
  }

  lemma FreshKey(keys: set<Key>) returns (key: Key)
    ensures key !in keys
    decreases |keys|
  {
    key := 0;
    var rest := keys;
    while rest != {}
      invariant forall k :: k in keys && k !in rest ==> k < key
      decreases |rest|
    {
      var k: Key :| k in rest;
      key := if k < key then key else k + 1;
      rest := rest - {k};
    }
  }

  /** A work database that the session forgot is joined by a second one. */
  lemma ForgottenWorkDoubles(st: State, h: HandleId)
    requires Base(st) && st.lock.None? && st.running && OpenWork(st, h)
    requires st.work.Some? && st.work.value < |st.handles| ==> !st.handles[st.work.value].open
    ensures TwoWorkLater(st)
  {
    var key := FreshKey(st.nativeOpen);
    var s1 := Step(st, 0, Begin(WorkDb));
    var s2 := Step(s1, 0, NativeOpens(Some(key)));
    var s3 := Step(s2, 0, Continue);
    assert TwoWork(s3, h, |st.handles|);
    var steps: Steps := [(0, Begin(WorkDb)), (0, NativeOpens(Some(key))), (0, Continue)];
    AfterThree(st, Begin(WorkDb), NativeOpens(Some(key)), Continue);
    assert Calm(steps) && TwoWork(After(st, steps), h, |st.handles|);
  }

  /** The next interrupt lets two work databases be open at once exactly if it falls between
      registering a work database and remembering it. */
  lemma SecondWorkIff(steps: Steps, t: Thread)
    requires NoneAtRegistered(START, steps)
    ensures TwoWorkLater(Step(RunOf(steps), t, Interrupt)) <==> RunOf(steps).Pc(t).Registered?
  {
    var st := RunOf(steps);
    var next := Step(st, t, Interrupt);
    RunIsBase(START, steps);
    RunIsWorkSane(START, steps);
    BaseStep(st, t, Interrupt);
    if st.Pc(t).Registered? {
      var h := st.Pc(t).h;
      assert OpenWork(next, h);
      assert next.work.Some? ==> !OpenWork(st, next.work.value);
      ForgottenWorkDoubles(next, h);
    } else {
      WorkStaysSane(st, t, Interrupt);
      if TwoWorkLater(next) {
        var more, g: int, h: int :| Calm(more) && TwoWork(After(next, more), g, h);
        OneWorkForGood(next, more, g, h);
      }
    }
  }

  // -- two handles and an interrupt in the second close ------------------------------------------------------

  lemma {:induction false} AfterBoth(st: State, a: Steps, b: Steps)
    ensures After(st, a + b) == After(After(st, a), b)
    decreases |a|
  {
    if a == [] {
      assert a + b == b;
    } else {
      assert (a + b)[1..] == a[1..] + b;
      AfterBoth(Step(st, a[0].0, a[0].1), a[1..], b);
    }
  }

  lemma AfterOne(st: State, a: Action)
    ensures After(st, [(0, a)]) == Step(st, 0, a)
  {
    var steps: Steps := [(0, a)];
    assert steps[1..] == [];
  }

  lemma AfterThree(st: State, a: Action, b: Action, c: Action)
    ensures After(st, [(0, a), (0, b), (0, c)]) == Step(Step(Step(st, 0, a), 0, b), 0, c)
  {
    var steps: Steps := [(0, a), (0, b), (0, c)];
    assert steps[1..] == [(0, b), (0, c)] && steps[1..][1..] == [(0, c)];
    var s2 := Step(Step(st, 0, a), 0, b);
    assert After(Step(st, 0, a), steps[1..]) == After(s2, steps[1..][1..]);
    AfterOne(s2, c);
  }

  function Opening(key: Key): Steps {
    [(0, Begin(OpenDb)), (0, NativeOpens(Some(key))), (0, Continue)]
  }

  /** A finalization whose first close succeeds. */
  const FIRST_CLOSE: Steps := [(0, Begin(Finalize([0, 1]))), (0, NativeReturns(true)), (0, Continue)]

  const TWO_OPEN := State({7, 8}, true, [Handle(7, true, false), Handle(8, true, false)],
                          map[7 := 0, 8 := 1], None, None, map[0 := Idle])

  const SECOND_CLOSE := State({8}, true, [Handle(7, false, false), Handle(8, true, false)],
                              map[7 := 0, 8 := 1], None, Some(0), map[0 := Ending([1])])

  lemma TwoOpened()
    ensures RunOf(Opening(7) + Opening(8)) == TWO_OPEN
  {
    AfterBoth(START, Opening(7), Opening(8));
    AfterThree(START, Begin(OpenDb), NativeOpens(Some(7)), Continue);
    var one := State({7}, true, [Handle(7, true, false)], map[7 := 0], None, None, map[0 := Idle]);
    OneOpened(START, 7, State({7}, true, [Handle(7, true, false)], map[7 := 0], None, None, map[0 := Idle]));
    AfterThree(one, Begin(OpenDb), NativeOpens(Some(8)), Continue);
    OneOpened(one, 8, TWO_OPEN);
  }

  lemma OneOpened(st: State, key: Key, end: State)
    requires st.running && st.lock.None? && st.Pc(0) == Idle && key !in st.nativeOpen
    requires end == State(st.nativeOpen + {key}, true, st.handles + [Handle(key, true, false)],
                          st.tracked[key := |st.handles|], st.work, None, st.pcs[0 := Idle])
    ensures Step(Step(Step(st, 0, Begin(OpenDb)), 0, NativeOpens(Some(key))), 0, Continue) == end
  {
  }

  lemma TwoListed()
    ensures Lists([0, 1], map[7 := 0, 8 := 1])
  {
    var tracked: map<Key, HandleId> := map[7 := 0, 8 := 1];
    assert tracked[7] == 0 && tracked[8] == 1;
    assert Tracks(tracked, 0) && Tracks(tracked, 1);
  }

  lemma FirstCloseSteps()
    ensures var closed := Step(TWO_OPEN.At(0, Ending([0, 1])), 0, NativeReturns(true));
            closed == TWO_OPEN.(nativeOpen := {8}).At(0, Invalidating([0, 1]))
    ensures Step(TWO_OPEN.(nativeOpen := {8}).At(0, Invalidating([0, 1])), 0, Continue) == SECOND_CLOSE
  {
    assert {7, 8} - {7} == {8};
    assert [0, 1][1..] == [1];
    assert TWO_OPEN.handles[0 := Handle(7, false, false)] == SECOND_CLOSE.handles;
  }

  lemma FirstClosed()
    ensures After(TWO_OPEN, FIRST_CLOSE) == SECOND_CLOSE
  {
    TwoListed();
    FirstCloseSteps();
    assert Step(TWO_OPEN, 0, Begin(Finalize([0, 1]))) == TWO_OPEN.At(0, Ending([0, 1]));
    hide Step;
    AfterThree(TWO_OPEN, Begin(Finalize([0, 1])), NativeReturns(true), Continue);
  }

  /** With two databases, an interrupt in the second close of a finalization leaves it repeatable,
      and the repetition closes the first key again. */
  lemma InterruptRepeatsClose()
    ensures var ending := RunOf(Opening(7) + Opening(8) + FIRST_CLOSE);
            var again := Step(Step(ending, 0, Interrupt), 0, Begin(Finalize([0, 1])));
            ending.Pc(0) == Ending([1]) && again.running && NextKey(again, 0) == Some(7) && 7 !in again.nativeOpen
  {
    AfterBoth(START, Opening(7) + Opening(8), FIRST_CLOSE);
    TwoOpened();
    FirstClosed();
    TwoListed();
  }

  // -- a lost key and a forgotten work database ------------------------------------------------------------------

  /** An interrupt right after the library has opened the first database. */
  lemma LostKeyExample()
    ensures Lost(RunOf([(0, Begin(OpenDb)), (0, NativeOpens(Some(7))), (0, Interrupt)]), 7)
  {
    AfterThree(START, Begin(OpenDb), NativeOpens(Some(7)), Interrupt);
  }

  /** Registering a work database. */
  function RegisteringWork(key: Key): Steps {
    [(0, Begin(WorkDb)), (0, NativeOpens(Some(key))), (0, Continue)]
  }

  const FORGOTTEN := State({7}, true, [Handle(7, true, true)], map[7 := 0], None, None, map[0 := Idle])

  /** An interrupt before the work database is remembered. */
  lemma WorkForgotten()
    ensures RunOf(RegisteringWork(7) + [(0, Interrupt)]) == FORGOTTEN
  {
    AfterBoth(START, RegisteringWork(7), [(0, Interrupt)]);
    AfterThree(START, Begin(WorkDb), NativeOpens(Some(7)), Continue);
    WorkRegistered(START, 7, FORGOTTEN.At(0, Registered(0)));
    AfterOne(FORGOTTEN.At(0, Registered(0)), Interrupt);
  }

  /** The next request opens a second work database if the library grants it. */
  lemma SecondWorkExample()
    ensures TwoWork(RunOf(RegisteringWork(7) + [(0, Interrupt)] + RegisteringWork(8)), 0, 1)
  {
    WorkForgotten();
    var end := State({7, 8}, true, [Handle(7, true, true), Handle(8, true, true)],
                     map[7 := 0, 8 := 1], None, Some(0), map[0 := Registered(1)]);
    WorkRegistered(FORGOTTEN, 8, end);
    hide Step;
    AfterBoth(START, RegisteringWork(7) + [(0, Interrupt)], RegisteringWork(8));
    AfterThree(FORGOTTEN, Begin(WorkDb), NativeOpens(Some(8)), Continue);
  }

  lemma WorkRegistered(st: State, key: Key, end: State)
    requires st.running && st.lock.None? && st.Pc(0) == Idle && st.work.None? && key !in st.nativeOpen
    requires end == State(st.nativeOpen + {key}, true, st.handles + [Handle(key, true, true)],
                          st.tracked[key := |st.handles|], None, Some(0), st.pcs[0 := Registered(|st.handles|)])
    ensures Step(Step(Step(st, 0, Begin(WorkDb)), 0, NativeOpens(Some(key))), 0, Continue) == end
  {
  }
}
