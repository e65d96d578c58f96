/** The one-shot library runtime of a process: ownership, lifecycle and native calls (_runtime.py). */
module Runtime {
  import opened Wrappers

  datatype Phase = Created | Loaded | Initialized | Finalized | Broken | Failed {
    predicate Terminal() {
      Finalized? || Broken? || Failed?
    }
  }

  /** How a native call ends: normally, with a status, or interrupted. */
  datatype Outcome = Success | Status | Interrupt

  datatype Call = Ini(ok: bool) | Data(outcome: Outcome) | Fin(ok: bool)

  type SessionId = nat

  datatype Session = Session(phase: Phase, native: bool, licensed: bool, generation: nat)

  datatype State = State(sessions: seq<Session>, owner: Option<SessionId>, default: Option<SessionId>, trace: seq<Call>)
  {
    predicate Has(s: SessionId) {
      s < |sessions|
    }

    predicate OwnerTerminal() {
      owner.Some? && Has(owner.value) && sessions[owner.value].phase.Terminal()
    }

    function With(s: SessionId, phase: Phase): State
      requires Has(s)
    {
      this.(sessions := sessions[s := sessions[s].(phase := phase)])
    }

    function Called(call: Call): State {
      this.(trace := trace + [call])
    }
  }

  const START := State([], None, None, [])

  /** What the world answers to one initialization: loading, licensing, cfmini, sentinels, cfmfin. */
  datatype InitWorld = InitWorld(loads: bool, licenseSet: bool, ini: Outcome, globals: Outcome, fin: Outcome)

  // -- what each operation does, by cases ------------------------------------------------

  function NewSession(st: State, injected: bool, licensed: bool): State {
    st.(sessions := st.sessions + [Session(if injected then Loaded else Created, injected, licensed, 0)])
  }

  function LoadSession(st: State, s: SessionId, loads: bool): State
    requires st.Has(s)
  {
    if st.sessions[s].native || !loads then st
    else st.(sessions := st.sessions[s := st.sessions[s].(phase := Loaded, native := true)])
  }

  /** Whether an initialization reaches the native library. */
  predicate ReachesNative(st: State, s: SessionId, w: InitWorld)
    requires st.Has(s)
  {
    !st.sessions[s].phase.Initialized? && !st.sessions[s].phase.Terminal()
    && (st.owner.None? || st.owner == Some(s))
    && (st.sessions[s].native || w.loads)
    && (!st.sessions[s].licensed || w.licenseSet)
  }

  function InitSession(st: State, s: SessionId, w: InitWorld): (State, bool)
    requires st.Has(s)
  {
    if st.sessions[s].phase.Initialized? then (st, true)
    else if st.sessions[s].phase.Terminal() || (st.owner.Some? && st.owner != Some(s)) then (st, false)
    else
      var loaded := LoadSession(st, s, w.loads);
      if !ReachesNative(st, s, w) then (loaded, false)
      else
        var (phase, calls) := NativeInit(w);
        var session := Session(phase, true, loaded.sessions[s].licensed,
                               if phase.Failed? then loaded.sessions[s].generation else 1);
        (State(loaded.sessions[s := session], Some(s), loaded.default, loaded.trace + calls), phase.Initialized?)
  }

  /** Where an initialization that reaches the library ends, and the calls it makes. */
  function NativeInit(w: InitWorld): (Phase, seq<Call>) {
    if !w.ini.Success? then (Failed, [Ini(false)])
    else if w.globals.Success? then (Initialized, [Ini(true), Data(Success)])
    else (if w.fin.Success? then Finalized else Broken, [Ini(true), Data(w.globals), Fin(w.fin.Success?)])
  }

  /** The closes of a finalization, up to the first that is interrupted. */
  function CloseCalls(closes: seq<Outcome>): seq<Call> {
    if closes == [] then []
    else if closes[0].Interrupt? then [Data(Interrupt)]
    else [Data(closes[0])] + CloseCalls(closes[1..])
  }

  function FinalizeSession(st: State, s: SessionId, closes: seq<Outcome>, fin: Outcome): (State, bool)
    requires st.Has(s)
  {
    if !st.sessions[s].phase.Initialized? then (st, true)
    else
      var closed := st.(trace := st.trace + CloseCalls(closes));
      if Interrupt in closes then (closed, false)
      else (closed.With(s, if fin.Success? then Finalized else Broken).Called(Fin(fin.Success?)), fin.Success?)
  }

  function Operate(st: State, s: SessionId, outcome: Outcome): (State, bool)
    requires st.Has(s)
  {
    if st.sessions[s].phase.Initialized? && st.sessions[s].native
    then (st.Called(Data(outcome)), outcome.Success?)
    else (st, false)
  }

  /** The default session after choosing it (a library or root may be named explicitly). */
  function ChooseDefault(st: State, named: bool, found: bool): (State, bool) {
    if named && st.OwnerTerminal() then (st, false)
    else if st.default.None? then
      if st.OwnerTerminal() || !found then (st, false)
      else (NewSession(st, false, true).(default := Some(|st.sessions|)), true)
    else if named then
      if (st.Has(st.default.value) && st.sessions[st.default.value].native) || !found then (st, false)
      else (NewSession(st, false, true).(default := Some(|st.sessions|)), true)
    else (st, true)
  }

  function InitDefault(st: State, named: bool, found: bool, w: InitWorld): (State, bool) {
    if st.OwnerTerminal() then (st, false)
    else if st.owner.Some? && st.default != st.owner then (st, false)
    else if st.default.Some? && st.Has(st.default.value) && st.sessions[st.default.value].phase.Initialized? then
      (st, !named)
    else
      var (chosen, ok) := ChooseDefault(st, named, found);
      if !ok || chosen.default.None? || !chosen.Has(chosen.default.value) then (chosen, false)
      else InitSession(chosen, chosen.default.value, w)
  }

  function CloseOwner(st: State, closes: seq<Outcome>, fin: Outcome): (State, bool) {
    if st.owner.Some? && st.Has(st.owner.value) then FinalizeSession(st, st.owner.value, closes, fin)
    else (st, true)
  }

  // -- the process ------------------------------------------------------------------------

  class Process {
    var sessions: seq<Session>
    var owner: Option<SessionId>
    var default: Option<SessionId>
    var trace: seq<Call>

    function View(): State
      reads this
    {
      State(sessions, owner, default, trace)
    }

    constructor ()
      ensures View() == START
    {
      sessions, owner, default, trace := [], None, None, [];
    }

    method SetPhase(s: SessionId, phase: Phase)
      requires s < |sessions|
      modifies this`sessions
      ensures View() == old(View()).With(s, phase)
    {
      sessions := sessions[s := sessions[s].(phase := phase)];
    }

    method Load(s: SessionId, loads: bool) returns (ok: bool)
      requires View().Has(s)
      modifies this`sessions
      ensures View() == LoadSession(old(View()), s, loads) && ok == sessions[s].native
    {
      if !sessions[s].native && loads {
        sessions := sessions[s := sessions[s].(phase := Loaded, native := true)];
      }
      ok := sessions[s].native;
    }

    /** One cfmfin after a failure that followed a successful cfmini. */
    method Teardown(s: SessionId, fin: Outcome)
      requires s < |sessions|
      modifies this`sessions, this`trace
      ensures sessions == old(sessions)[s := old(sessions)[s].(phase := if fin.Success? then Finalized else Broken)]
      ensures trace == old(trace) + [Fin(fin.Success?)]
    {
      SetPhase(s, Broken);
      trace := trace + [Fin(fin == Success)];
      if fin != Success {
        return;
      }
      SetPhase(s, Finalized);
    }

    /** From here the process has consumed its initialization; the session counts as failed until
        the native call returns. */
    method Consume(s: SessionId, w: InitWorld) returns (ok: bool)
      requires s < |sessions| && sessions[s].native
      modifies this
      ensures var (phase, calls) := NativeInit(w);
              var before := old(sessions)[s];
              sessions == old(sessions)[s := Session(phase, true, before.licensed,
                                                     if phase.Failed? then before.generation else 1)]
              && owner == Some(s) && default == old(default) && trace == old(trace) + calls
              && ok == phase.Initialized?
    {
      owner := Some(s);
      SetPhase(s, Failed);
      trace := trace + [Ini(w.ini == Success)];
      if w.ini != Success {
        return false;
      }
      sessions := sessions[s := sessions[s].(generation := 1)];
      SetPhase(s, Initialized);
      trace := trace + [Data(w.globals)];
      if w.globals != Success {
        Teardown(s, w.fin);
        return false;
      }
      return true;
    }

    /** Initialize once per process: every refusal comes before any native call. */
    method Initialize(s: SessionId, w: InitWorld) returns (ok: bool)
      requires View().Has(s)
      modifies this
      ensures (View(), ok) == InitSession(old(View()), s, w)
    {
      hide NativeInit;
      if sessions[s].phase == Initialized {
        return true;
      }
      if sessions[s].phase.Terminal() {
        return false;
      }
      if owner.Some? && owner != Some(s) {
        return false;
      }
      var loaded := Load(s, w.loads);
      if !loaded {
        return false;
      }
      if sessions[s].licensed && !w.licenseSet {
        return false;
      }
      ok := Consume(s, w);
    }

    /** Close every tracked database, then finalize; an interrupted close leaves everything open. */
    method Finalize(s: SessionId, closes: seq<Outcome>, fin: Outcome) returns (ok: bool)
      requires View().Has(s)
      modifies this
      ensures (View(), ok) == FinalizeSession(old(View()), s, closes, fin)
    {
      if sessions[s].phase != Initialized {
        return true;
      }
      var i := 0;
      assert closes[0..] == closes && closes[..0] == [];
      assert trace == old(trace) && old(trace) + CloseCalls(closes) == trace + CloseCalls(closes[0..]);
      while i < |closes|
        invariant 0 <= i <= |closes|
        invariant sessions == old(sessions) && owner == old(owner) && default == old(default)
        invariant Interrupt !in closes[..i]
        invariant old(trace) + CloseCalls(closes) == trace + CloseCalls(closes[i..])
      {
        assert closes[i..][1..] == closes[i + 1..];
        assert trace + ([Data(closes[i])] + CloseCalls(closes[i + 1..]))
            == trace + [Data(closes[i])] + CloseCalls(closes[i + 1..]);
        trace := trace + [Data(closes[i])];
        if closes[i] == Interrupt {
          return false;
        }
        i := i + 1;
      }
      assert closes[i..] == [] && closes[..i] == closes;
      assert trace + [] == trace;
      SetPhase(s, Broken);
      trace := trace + [Fin(fin == Success)];
      if fin != Success {
        return false;
      }
      SetPhase(s, Finalized);
      assert sessions == old(sessions)[s := old(sessions)[s].(phase := Finalized)];
      return true;
    }

    method Operation(s: SessionId, outcome: Outcome) returns (ok: bool)
      requires View().Has(s)
      modifies this`trace
      ensures (View(), ok) == Operate(old(View()), s, outcome)
    {
      if sessions[s].phase != Initialized || !sessions[s].native {
        return false;
      }
      trace := trace + [Data(outcome)];
      return outcome == Success;
    }

    method DefaultSession(named: bool, found: bool) returns (ok: bool)
      modifies this`sessions, this`default
      ensures (View(), ok) == ChooseDefault(old(View()), named, found)
    {
      if named && View().OwnerTerminal() {
        return false;
      }
      if default == None {
        if View().OwnerTerminal() || !found {
          return false;
        }
      } else if named {
        if (default.value < |sessions| && sessions[default.value].native) || !found {
          return false;
        }
      } else {
        return true;
      }
      default := Some(|sessions|);
      sessions := sessions + [Session(Created, false, true, 0)];
      return true;
    }

    /** init_chli: one runtime per process, through the default session. */
    method InitChli(named: bool, found: bool, w: InitWorld) returns (ok: bool)
      modifies this
      ensures (View(), ok) == InitDefault(old(View()), named, found, w)
    {
      hide InitSession;
      hide ChooseDefault;
      if View().OwnerTerminal() {
        return false;
      }
      if owner.Some? && default != owner {
        return false;
      }
      if default.Some? && default.value < |sessions| && sessions[default.value].phase == Initialized {
        return !named;
      }
      var chosen := DefaultSession(named, found);
      if !chosen || default.None? || default.value >= |sessions| {
        return false;
      }
      ok := Initialize(default.value, w);
    }

    /** close_chli: finalize whatever the process initialized. */
    method CloseChli(closes: seq<Outcome>, fin: Outcome) returns (ok: bool)
      modifies this
      ensures (View(), ok) == CloseOwner(old(View()), closes, fin)
    {
      if owner.None? || owner.value >= |sessions| {
        return true;
      }
      ok := Finalize(owner.value, closes, fin);
    }
  }

  // -- every run ------------------------------------------------------------------------------

  datatype Action =
    | New(injected: bool, licensed: bool)
    | Load(s: SessionId, loads: bool)
    | Init(s: SessionId, w: InitWorld)
    | Finish(s: SessionId, closes: seq<Outcome>, fin: Outcome)
    | Work(s: SessionId, outcome: Outcome)
    | Choose(named: bool, found: bool)
    | InitChli(named: bool, found: bool, w: InitWorld)
    | CloseChli(closes: seq<Outcome>, fin: Outcome)

  function Step(st: State, a: Action): State {
    match a
    case New(injected, licensed) => NewSession(st, injected, licensed)
    case Load(s, loads) => if st.Has(s) then LoadSession(st, s, loads) else st
    case Init(s, w) => if st.Has(s) then InitSession(st, s, w).0 else st
    case Finish(s, closes, fin) => if st.Has(s) then FinalizeSession(st, s, closes, fin).0 else st
    case Work(s, outcome) => if st.Has(s) then Operate(st, s, outcome).0 else st
    case Choose(named, found) => ChooseDefault(st, named, found).0
    case InitChli(named, found, w) => InitDefault(st, named, found, w).0
    case CloseChli(closes, fin) => CloseOwner(st, closes, fin).0
  }

  function RunOf(actions: seq<Action>): State {
    if actions == [] then START else Step(RunOf(actions[..|actions| - 1]), actions[|actions| - 1])
  }

  predicate OnlyData(calls: seq<Call>) {
    forall i :: 0 <= i < |calls| ==> calls[i].Data?
  }

  /** One cfmini first, then data calls, then at most one cfmfin last; a failed cfmini is alone. */
  ghost predicate TraceOf(phase: Phase, trace: seq<Call>) {
    match phase
    case Failed => trace == [Ini(false)]
    case Initialized => |trace| >= 1 && trace[0] == Ini(true) && OnlyData(trace[1..])
    case Finalized =>
      |trace| >= 2 && trace[0] == Ini(true) && OnlyData(trace[1..|trace| - 1]) && trace[|trace| - 1] == Fin(true)
    case Broken =>
      |trace| >= 2 && trace[0] == Ini(true) && OnlyData(trace[1..|trace| - 1]) && trace[|trace| - 1] == Fin(false)
    case _ => false
  }

  predicate Fresh(s: Session) {
    (s.phase.Created? || s.phase.Loaded?) && (s.native <==> s.phase.Loaded?) && s.generation == 0
  }

  ghost predicate Inv(st: State) {
    (st.default.Some? ==> st.Has(st.default.value))
    && match st.owner
       case None => st.trace == [] && forall i :: 0 <= i < |st.sessions| ==> Fresh(st.sessions[i])
       case Some(o) =>
         st.Has(o) && st.sessions[o].native && TraceOf(st.sessions[o].phase, st.trace)
         && st.sessions[o].generation == (if st.sessions[o].phase.Failed? then 0 else 1)
         && forall i :: 0 <= i < |st.sessions| && i != o ==> Fresh(st.sessions[i])
  }

  /** A step never leaves a terminal phase, never changes the owner, never rewrites the trace. */
  ghost predicate Forward(a: State, b: State) {
    |a.sessions| <= |b.sessions|
    && (forall i :: 0 <= i < |a.sessions| && a.sessions[i].phase.Terminal() ==> b.sessions[i] == a.sessions[i])
    && (a.owner.Some? ==> b.owner == a.owner)
    && a.trace <= b.trace
    && (a.OwnerTerminal() ==> b.trace == a.trace)
  }

  lemma OwnerConsumed(st: State)
    requires Inv(st) && st.owner.Some?
    ensures var phase := st.sessions[st.owner.value].phase; phase.Initialized? || phase.Terminal()
  {
  }

  lemma NativeInitTrace(w: InitWorld)
    ensures TraceOf(NativeInit(w).0, NativeInit(w).1)
  {
    var calls := NativeInit(w).1;
    if |calls| == 3 {
      assert calls[1..2] == [calls[1]];
    }
  }

  lemma InitKeeps(st: State, s: SessionId, w: InitWorld)
    requires Inv(st) && st.Has(s)
    ensures Inv(InitSession(st, s, w).0) && Forward(st, InitSession(st, s, w).0)
  {
    hide TraceOf;
    hide NativeInit;
    if st.owner.Some? {
      OwnerConsumed(st);
    } else if ReachesNative(st, s, w) {
      NativeInitTrace(w);
      assert [] + NativeInit(w).1 == NativeInit(w).1;
    }
  }

  lemma {:induction false} ClosesAreData(closes: seq<Outcome>)
    ensures OnlyData(CloseCalls(closes))
    decreases |closes|
  {
    if closes != [] {
      ClosesAreData(closes[1..]);
    }
  }

  lemma FinalizeKeeps(st: State, s: SessionId, closes: seq<Outcome>, fin: Outcome)
    requires Inv(st) && st.Has(s)
    ensures Inv(FinalizeSession(st, s, closes, fin).0) && Forward(st, FinalizeSession(st, s, closes, fin).0)
  {
    hide TraceOf;
    if st.sessions[s].phase.Initialized? {
      assert st.owner == Some(s);
      ClosesAreData(closes);
      TraceGrows(st.trace, CloseCalls(closes), fin.Success?);
    }
  }

  lemma TraceGrows(trace: seq<Call>, calls: seq<Call>, ok: bool)
    requires TraceOf(Initialized, trace) && OnlyData(calls)
    ensures TraceOf(Initialized, trace + calls)
    ensures TraceOf(if ok then Finalized else Broken, trace + calls + [Fin(ok)])
  {
    var all := trace + calls + [Fin(ok)];
    assert (trace + calls)[1..] == trace[1..] + calls;
    assert all[1..|all| - 1] == (trace + calls)[1..];
  }

  lemma OperateKeeps(st: State, s: SessionId, outcome: Outcome)
    requires Inv(st) && st.Has(s)
    ensures Inv(Operate(st, s, outcome).0) && Forward(st, Operate(st, s, outcome).0)
  {
    hide TraceOf;
    if st.sessions[s].phase.Initialized? {
      TraceGrows(st.trace, [Data(outcome)], true);
    }
  }

  lemma ChooseKeeps(st: State, named: bool, found: bool)
    requires Inv(st)
    ensures Inv(ChooseDefault(st, named, found).0) && Forward(st, ChooseDefault(st, named, found).0)
  {
  }

  /** Every operation, whatever the world answers, keeps the invariant and only moves forward. */
  lemma StepKeeps(st: State, a: Action)
    requires Inv(st)
    ensures Inv(Step(st, a)) && Forward(st, Step(st, a))
  {
    hide TraceOf;
    hide ChooseDefault;
    hide InitSession;
    hide FinalizeSession;
    hide Operate;
    match a
    case New(_, _) =>
    case Load(_, _) =>
    case Init(s, w) => if st.Has(s) { InitKeeps(st, s, w); }
    case Finish(s, closes, fin) => if st.Has(s) { FinalizeKeeps(st, s, closes, fin); }
    case Work(s, outcome) => if st.Has(s) { OperateKeeps(st, s, outcome); }
    case Choose(named, found) => ChooseKeeps(st, named, found);
    case InitChli(named, found, w) =>
      ChooseKeeps(st, named, found);
      var chosen := ChooseDefault(st, named, found).0;
      if chosen.default.Some? { InitKeeps(chosen, chosen.default.value, w); }
    case CloseChli(closes, fin) =>
      if st.owner.Some? { FinalizeKeeps(st, st.owner.value, closes, fin); }
  }

  lemma {:induction false} RunKeeps(actions: seq<Action>)
    ensures Inv(RunOf(actions))
    decreases |actions|
  {
    if actions != [] {
      RunKeeps(actions[..|actions| - 1]);
      StepKeeps(RunOf(actions[..|actions| - 1]), actions[|actions| - 1]);
    }
  }

  lemma TraceShape(phase: Phase, trace: seq<Call>)
    requires TraceOf(phase, trace)
    ensures trace != [] && trace[0].Ini?
    ensures forall k :: 1 <= k < |trace| ==> !trace[k].Ini? && trace[0] == Ini(true)
    ensures forall k :: 0 <= k < |trace| - 1 ==> !trace[k].Fin?
  {
    var n := |trace|;
    assert phase.Initialized? ==> forall k :: 1 <= k < n ==> trace[k] == trace[1..][k - 1];
    assert phase.Finalized? || phase.Broken? ==> forall k :: 1 <= k < n - 1 ==> trace[k] == trace[1..n - 1][k - 1];
  }

  /** Over every run: at most one cfmini and one cfmfin, and data calls only between a successful
      cfmini and any cfmfin. */
  lemma OneShot(actions: seq<Action>, i: nat, j: nat)
    requires i < j < |RunOf(actions).trace|
    ensures var trace := RunOf(actions).trace;
            !(trace[i].Ini? && trace[j].Ini?) && !(trace[i].Fin? && trace[j].Fin?)
            && (trace[j].Data? ==> trace[0] == Ini(true) && !trace[i].Fin?)
            && trace[0].Ini?
  {
    RunKeeps(actions);
    hide RunOf;
    var st := RunOf(actions);
    TraceShape(st.sessions[st.owner.value].phase, st.trace);
  }

  /** Later in a run, terminal sessions, the owner and the calls already made are unchanged. */
  lemma {:induction false} RunsMoveForward(actions: seq<Action>, more: seq<Action>)
    ensures Forward(RunOf(actions), RunOf(actions + more))
    decreases |more|
  {
    if more == [] {
      assert actions + more == actions;
    } else {
      var n := |more| - 1;
      assert (actions + more)[..|actions| + n] == actions + more[..n];
      RunsMoveForward(actions, more[..n]);
      RunKeeps(actions + more[..n]);
      RunKeeps(actions);
      StepKeeps(RunOf(actions + more[..n]), more[n]);
    }
  }

  // -- what the answers say -----------------------------------------------------------------------

  /** Loading succeeds or changes nothing, and never undoes a session's phase. */
  lemma LoadAnswer(st: State, s: SessionId, loads: bool)
    requires st.Has(s)
    ensures var after := LoadSession(st, s, loads);
            after == st.(sessions := st.sessions[s := after.sessions[s]])
            && (after.sessions[s].native <==> st.sessions[s].native || loads)
            && (st.sessions[s].native || !loads ==> after == st)
            && (!st.sessions[s].native && loads ==> after.sessions[s].phase.Loaded?)
  {
  }

  /** An initialization answers true exactly when the session is initialized when it returns: it was before,
      or every refusal was passed and both native steps succeeded. */
  lemma InitAnswer(st: State, s: SessionId, w: InitWorld)
    requires st.Has(s)
    ensures var (after, ok) := InitSession(st, s, w);
            after.Has(s) && (ok <==> after.sessions[s].phase.Initialized?)
    ensures InitSession(st, s, w).1
       <==> st.sessions[s].phase.Initialized?
            || (!st.sessions[s].phase.Terminal() && (st.owner.None? || st.owner == Some(s))
                && (st.sessions[s].native || w.loads) && (st.sessions[s].licensed ==> w.licenseSet)
                && w.ini.Success? && w.globals.Success?)
  {
  }

  /** An initialization makes no native call when it is refused or repeated; otherwise one cfmini, then a
      read of the sentinels if that succeeded, then one cfmfin exactly if the read failed. */
  lemma InitCalls(st: State, s: SessionId, w: InitWorld)
    requires st.Has(s)
    ensures var (after, ok) := InitSession(st, s, w);
            if st.sessions[s].phase.Initialized? || st.sessions[s].phase.Terminal()
               || (st.owner.Some? && st.owner != Some(s)) || (!st.sessions[s].native && !w.loads)
               || (st.sessions[s].licensed && !w.licenseSet)
            then after.trace == st.trace && after.owner == st.owner
            else after.owner == Some(s)
                 && after.trace == st.trace + [Ini(w.ini.Success?)]
                      + (if w.ini.Success? then [Data(w.globals)] else [])
                      + (if w.ini.Success? && !w.globals.Success? then [Fin(w.fin.Success?)] else [])
                 && after.sessions[s].phase == (if !w.ini.Success? then Failed
                                                else if w.globals.Success? then Initialized
                                                else if w.fin.Success? then Finalized else Broken)
    ensures var after := InitSession(st, s, w).0;
            |after.sessions| == |st.sessions| && after.default == st.default
            && forall i :: 0 <= i < |st.sessions| && i != s ==> after.sessions[i] == st.sessions[i]
  {
    var (after, ok) := InitSession(st, s, w);
    if w.ini.Success? && w.globals.Success? {
      assert st.trace + [Ini(true), Data(Success)] == st.trace + [Ini(true)] + [Data(Success)] + [];
    }
  }

  /** The closes are made in order, and none after an interrupted one. */
  lemma {:induction false} ClosesInOrder(closes: seq<Outcome>)
    ensures |CloseCalls(closes)| <= |closes|
    ensures forall i :: 0 <= i < |CloseCalls(closes)| ==> CloseCalls(closes)[i] == Data(closes[i])
    ensures forall i :: 0 <= i < |CloseCalls(closes)| - 1 ==> !closes[i].Interrupt?
    ensures if |CloseCalls(closes)| == 0 then closes == []
            else |CloseCalls(closes)| == |closes| || closes[|CloseCalls(closes)| - 1].Interrupt?
    decreases |closes|
  {
    if closes != [] && !closes[0].Interrupt? {
      ClosesInOrder(closes[1..]);
      assert CloseCalls(closes) == [Data(closes[0])] + CloseCalls(closes[1..]);
    }
  }

  /** A finalization answers false exactly when a close is interrupted or the native finalization fails. An
      interrupted one leaves the session initialized; otherwise it closes everything and calls cfmfin once,
      last, and the session is finalized, or broken if that failed. */
  lemma FinalizeAnswer(st: State, s: SessionId, closes: seq<Outcome>, fin: Outcome)
    requires st.Has(s) && st.sessions[s].phase.Initialized?
    ensures var (after, ok) := FinalizeSession(st, s, closes, fin);
            (ok <==> Interrupt !in closes && fin.Success?)
            && after.owner == st.owner && after.default == st.default
            && if Interrupt in closes then
                 after.sessions == st.sessions && st.trace < after.trace
                 && after.trace[|after.trace| - 1] == Data(Interrupt)
                 && Fin(true) !in after.trace[|st.trace|..] && Fin(false) !in after.trace[|st.trace|..]
               else
                 after == st.With(s, if fin.Success? then Finalized else Broken).(trace := after.trace)
                 && |after.trace| == |st.trace| + |closes| + 1 && st.trace <= after.trace
                 && (forall i :: 0 <= i < |closes| ==> after.trace[|st.trace| + i] == Data(closes[i]))
                 && after.trace[|after.trace| - 1] == Fin(fin.Success?)
  {
    hide CloseCalls;
    ClosesInOrder(closes);
    var (after, ok) := FinalizeSession(st, s, closes, fin);
    var calls := CloseCalls(closes);
    if Interrupt in closes {
      var i :| 0 <= i < |closes| && closes[i].Interrupt?;
      assert closes[|calls| - 1].Interrupt?;
      assert after.trace[|st.trace|..] == calls;
    } else {
      assert |calls| == |closes|;
      assert after.trace == st.trace + calls + [Fin(fin.Success?)];
    }
  }

  lemma FinalizeAgain(st: State, s: SessionId, closes: seq<Outcome>, fin: Outcome)
    requires st.Has(s) && !st.sessions[s].phase.Initialized?
    ensures FinalizeSession(st, s, closes, fin) == (st, true)
  {
  }

  /** A data call reaches the library exactly on an initialized session, and succeeds when the call does. */
  lemma OperateAnswer(st: State, s: SessionId, outcome: Outcome)
    requires st.Has(s)
    ensures var (after, ok) := Operate(st, s, outcome);
            (ok <==> st.sessions[s].phase.Initialized? && st.sessions[s].native && outcome.Success?)
            && after.sessions == st.sessions && after.owner == st.owner && after.default == st.default
            && after.trace == st.trace + (if st.sessions[s].phase.Initialized? && st.sessions[s].native
                                          then [Data(outcome)] else [])
  {
  }

  /** Choosing the default keeps one that exists unless a library is named; a new one needs a library that is
      found, no finished owner and no loaded default. A refused choice changes nothing. */
  lemma ChooseAnswer(st: State, named: bool, found: bool)
    ensures var (after, ok) := ChooseDefault(st, named, found);
            if st.default.Some? && !named then ok && after == st
            else (ok <==> found && !st.OwnerTerminal()
                          && !(st.default.Some? && st.Has(st.default.value) && st.sessions[st.default.value].native))
                 && if ok then after == State(st.sessions + [Session(Created, false, true, 0)], st.owner,
                                              Some(|st.sessions|), st.trace)
                    else after == st
  {
  }

  /** init_chli answers true exactly when the default session is initialized when it returns, unless it was
      before and a library was named. */
  lemma InitDefaultAnswer(st: State, named: bool, found: bool, w: InitWorld)
    requires Inv(st)
    ensures var (after, ok) := InitDefault(st, named, found, w);
            ok <==> after.default.Some? && after.Has(after.default.value)
                    && after.sessions[after.default.value].phase.Initialized?
                    && !(named && st.default.Some? && st.sessions[st.default.value].phase.Initialized?)
  {
    hide TraceOf, InitSession;
    var (chosen, ok) := ChooseDefault(st, named, found);
    if chosen.default.Some? && chosen.Has(chosen.default.value) {
      InitAnswer(chosen, chosen.default.value, w);
      InitCalls(chosen, chosen.default.value, w);
    }
  }

  /** close_chli that answers true leaves no session initialized. */
  lemma CloseAnswer(st: State, closes: seq<Outcome>, fin: Outcome)
    requires Inv(st)
    ensures var (after, ok) := CloseOwner(st, closes, fin);
            (ok <==> (st.owner.Some? && st.sessions[st.owner.value].phase.Initialized?
                      ==> Interrupt !in closes && fin.Success?))
            && (ok ==> forall i :: 0 <= i < |after.sessions| ==> !after.sessions[i].phase.Initialized?)
  {
    hide TraceOf;
  }
}
