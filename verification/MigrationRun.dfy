/** One migration run step by step, as a behaviour of the run protocol (migration/_migrate.py). */
module MigrationRun {
  import opened Wrappers
  import opened DataEcon
  import opened Labels
  import opened Layout
  import opened Protocol

  function Stored(outcomes: seq<bool>): (n: nat)
    ensures n <= |outcomes|
  {
    if outcomes == [] then 0 else Stored(outcomes[..|outcomes| - 1]) + if outcomes[|outcomes| - 1] then 1 else 0
  }

  lemma Snoc(start: World, events: seq<(RunId, Event)>, e: Event)
    ensures After(start, events + [(0, e)]) == Step(After(start, events), 0, e)
  {
    assert (events + [(0, e)])[..|events|] == events;
  }

  /** A world of one run. */
  function Alone(target: Destination, phase: Phase, planned: nat, skipped: bool, partial: Attributes): World {
    World(target, [Run(phase, planned, skipped, partial)])
  }

  /** The next step of a lone run, phase by phase. */
  lemma Walk(start: World, events: seq<(RunId, Event)>, target: Destination, phase: Phase, planned: nat, skipped: bool,
      partial: Attributes)
    requires After(start, events) == Alone(target, phase, planned, skipped, partial)
    ensures var next := After(start, events + [(0, Advance)]);
            && (phase.Claimed? ==> next == Alone(target, Opening, planned, skipped, partial))
            && (phase.Opening? ==> next == Alone(target, Cataloged, planned, skipped, map[]))
            && (phase.Cataloged? ==> next == Alone(target, Versioned, planned, skipped, partial[LayoutKey := VERSION]))
            && (phase.Versioned? ==> next == Alone(target, Marked, planned, skipped, partial[StatusKey := STARTED]))
            && (phase.Marked? ==>
                next == Alone(target, Storing(0, 0), planned, skipped, partial[PlannedKey := Decimal(planned)]))
            && (phase.Moved? ==> next == Alone(target, Reported(phase.stored, phase.status), planned, skipped, partial))
  {
    hide Decimal;
    Snoc(start, events, Advance);
  }

  lemma WalkOn(start: World, events: seq<(RunId, Event)>, target: Destination, phase: Phase, planned: nat,
      skipped: bool, partial: Attributes)
    requires After(start, events) == Alone(target, phase, planned, skipped, partial)
    ensures var next := After(start, events + [(0, Advance)]);
            && (phase.Starting? ==>
                next == Alone(target, if target.Absent? then Planned else Refused, planned, skipped, partial))
            && (phase.Planned? && target.Absent? ==> next == Alone(Claim(0), Claimed, planned, skipped, partial))
            && (phase.Ending? ==>
                next == Alone(target, Ended(phase.stored, phase.status, phase.raising), planned, skipped,
                                                partial[WrittenKey := Decimal(phase.stored)]))
            && (phase.Ended? ==>
                next == Alone(target, if phase.raising then Releasing else Sealed(phase.stored, phase.status), planned,
                                               skipped, partial[StatusKey := phase.status]))
            && (phase.Sealed? ==>
                next == Alone(Archive(0, partial), Moved(phase.stored, phase.status), planned, skipped, partial))
  {
    hide Decimal;
    Snoc(start, events, Advance);
  }

  /** The two steps of the release. */
  lemma WalkOut(start: World, events: seq<(RunId, Event)>, target: Destination, phase: Phase, planned: nat,
      skipped: bool, partial: Attributes)
    requires After(start, events) == Alone(target, phase, planned, skipped, partial)
    ensures var next := After(start, events + [(0, Advance)]);
            && (phase.Releasing? ==>
                next == Alone(target, if ZeroBytes(target) then Sized else Failed, planned, skipped, partial))
            && (phase.Sized? ==> next == Alone(Absent, Failed, planned, skipped, partial))
  {
    hide Decimal;
    Snoc(start, events, Advance);
  }

  /** An exception, where it takes a lone run. */
  lemma WalkRaise(start: World, events: seq<(RunId, Event)>, target: Destination, phase: Phase, planned: nat,
      skipped: bool, partial: Attributes)
    requires After(start, events) == Alone(target, phase, planned, skipped, partial) && !Finished(phase)
    ensures After(start, events + [(0, Raise)]) == Alone(target, Raised(phase), planned, skipped, partial)
    ensures phase.Claimed? ==>
              After(start, events + [(0, NameTaken)]) == Alone(target, Releasing, planned, skipped, partial)
    ensures phase.Ending? ==>
              After(start, events + [(0, Unwind)])
              == Alone(target, Ending(phase.stored, phase.status, true), planned, skipped, partial)
  {
    hide After, Raised;
    Snoc(start, events, Raise);
    Snoc(start, events, NameTaken);
    Snoc(start, events, Unwind);
  }

  lemma WalkObject(start: World, events: seq<(RunId, Event)>, target: Destination, done: nat, stored: nat,
      planned: nat, skipped: bool, partial: Attributes)
    requires After(start, events) == Alone(target, Storing(done, stored), planned, skipped, partial) && done < planned
    ensures After(start, events + [(0, ObjectStored)])
            == Alone(target, Storing(done + 1, stored + 1), planned, skipped, partial)
    ensures After(start, events + [(0, ObjectFails)])
            == Alone(target, Storing(done + 1, stored), planned, skipped, partial)
  {
    hide After;
    Snoc(start, events, ObjectStored);
    Snoc(start, events, ObjectFails);
    ObjectSteps(target, done, stored, planned, skipped, partial);
    hide Step, Alone;
  }

  lemma ObjectSteps(target: Destination, done: nat, stored: nat, planned: nat, skipped: bool, partial: Attributes)
    requires done < planned
    ensures var w := Alone(target, Storing(done, stored), planned, skipped, partial);
            Step(w, 0, ObjectStored) == Alone(target, Storing(done + 1, stored + 1), planned, skipped, partial)
            && Step(w, 0, ObjectFails) == Alone(target, Storing(done + 1, stored), planned, skipped, partial)
  {
    hide Go;
  }

  lemma LoopEnds(start: World, events: seq<(RunId, Event)>, target: Destination, stored: nat, planned: nat,
      skipped: bool, partial: Attributes)
    requires After(start, events) == Alone(target, Storing(planned, stored), planned, skipped, partial)
             && stored <= planned
    ensures After(start, events + [(0, Advance)])
         == Alone(target, Ending(stored, Verdict(stored, planned, skipped), false), planned, skipped, partial)
  {
    hide Decimal;
    Snoc(start, events, Advance);
  }

  /** Where the one exception of a run strikes: after the exclusive creation, at a taken partial name,
      while preparing (catalogs, layout, status and count marks), at an object or once the loop is over,
      after the status is decided, at a final mark, at the rename, or right after it. */
  datatype Fault =
    | AfterClaim
    | PartialTaken
    | Preparing(step: nat)
    | AtObject(i: nat)
    | AfterStatus
    | WrittenMark
    | StatusMark
    | Renaming
    | Renamed

  predicate Strikes(fault: Option<Fault>, planned: nat) {
    fault.Some? && (fault.value.Preparing? ==> fault.value.step < 4)
    && (fault.value.AtObject? ==> fault.value.i <= planned)
  }

  function Verdict(stored: nat, planned: nat, skipped: bool): string {
    if stored < planned || skipped then INCOMPLETE else COMPLETE
  }

  /** Nothing failed exactly when as many objects were stored as there are outcomes. */
  lemma {:induction false} AllStoredIff(outcomes: seq<bool>)
    ensures Stored(outcomes) == |outcomes| <==> forall i :: 0 <= i < |outcomes| ==> outcomes[i]
    decreases |outcomes|
  {
    if outcomes != [] {
      var n := |outcomes| - 1;
      AllStoredIff(outcomes[..n]);
      assert outcomes == outcomes[..n] + [outcomes[n]];
    }
  }

  lemma VerdictIff(outcomes: seq<bool>, skipped: bool)
    ensures var verdict := Verdict(Stored(outcomes), |outcomes|, skipped);
            (verdict == COMPLETE <==> !skipped && forall i :: 0 <= i < |outcomes| ==> outcomes[i])
            && (verdict == COMPLETE || verdict == INCOMPLETE)
  {
    StatusesDiffer();
    AllStoredIff(outcomes);
  }

  class Destinations {
    /** What is at the destination path, and the catalog attributes of the partial file. */
    var target: Destination
    var partial: Attributes

    /** Exclusive creation: an existing file is refused, never opened. */
    method TryClaim() returns (ok: bool)
      modifies this`target
      ensures ok <==> old(target).Absent?
      ensures target == if ok then Claim(0) else old(target)
    {
      ok := target.Absent?;
      if ok {
        target := Claim(0);
      }
    }

    /** Remove a zero-byte claim, never a file with content. */
    method Release()
      modifies this`target
      ensures target == if ZeroBytes(old(target)) then Absent else old(target)
    {
      var zero := ZeroBytes(target);
      if zero {
        target := Absent;
      }
    }

    method SetMark(key: Key, text: string)
      modifies this`partial
      ensures partial == old(partial)[key := text]
    {
      partial := partial[key := text];
    }

    /** The way out of an exception inside the guarded block: the claim is removed unless the
        release is itself interrupted, a finished archive stays. */
    method LetGo(interrupted: bool, planned: nat, skipped: bool, ghost start: World, ghost before: seq<(RunId, Event)>)
      returns (ghost events: seq<(RunId, Event)>)
      requires After(start, before) == Alone(target, Releasing, planned, skipped, partial)
      modifies this`target
      ensures After(start, events) == Alone(target, Failed, planned, skipped, partial)
      ensures target == if ZeroBytes(old(target)) && !interrupted then Absent else old(target)
    {
      hide After, Alone;
      if interrupted {
        WalkRaise(start, before, target, Releasing, planned, skipped, partial);
        return before + [(0, Raise)];
      }
      WalkOut(start, before, target, Releasing, planned, skipped, partial);
      events := before + [(0, Advance)];
      if ZeroBytes(target) {
        WalkOut(start, events, target, Sized, planned, skipped, partial);
        events := events + [(0, Advance)];
      }
      Release();
    }

    /** The catalogs and the marks before the first object, up to a fault. */
    method Prepare(fault: Option<Fault>, planned: nat, skipped: bool, ghost start: World,
        ghost before: seq<(RunId, Event)>)
      returns (ok: bool, ghost events: seq<(RunId, Event)>)
      requires After(start, before) == Alone(target, Opening, planned, skipped, partial)
      modifies this`partial
      ensures ok <==> !(fault.Some? && fault.value.Preparing? && fault.value.step < 4)
      ensures ok ==> partial == map[LayoutKey := VERSION, StatusKey := STARTED, PlannedKey := Decimal(planned)]
      ensures var phase := if ok then Storing(0, 0) else Releasing;
              After(start, events) == Alone(target, phase, planned, skipped, partial)
    {
      hide Decimal, After, Alone;
      events := before;
      if fault == Some(Preparing(0)) {
        WalkRaise(start, events, target, Opening, planned, skipped, partial);
        return false, events + [(0, Raise)];
      }
      Walk(start, events, target, Opening, planned, skipped, partial);
      events := events + [(0, Advance)];
      partial := map[];
      if fault == Some(Preparing(1)) {
        WalkRaise(start, events, target, Cataloged, planned, skipped, partial);
        return false, events + [(0, Raise)];
      }
      Walk(start, events, target, Cataloged, planned, skipped, partial);
      events := events + [(0, Advance)];
      SetMark(LayoutKey, VERSION);
      if fault == Some(Preparing(2)) {
        WalkRaise(start, events, target, Versioned, planned, skipped, partial);
        return false, events + [(0, Raise)];
      }
      Walk(start, events, target, Versioned, planned, skipped, partial);
      events := events + [(0, Advance)];
      SetMark(StatusKey, STARTED);
      if fault == Some(Preparing(3)) {
        WalkRaise(start, events, target, Marked, planned, skipped, partial);
        return false, events + [(0, Raise)];
      }
      Walk(start, events, target, Marked, planned, skipped, partial);
      events := events + [(0, Advance)];
      SetMark(PlannedKey, Decimal(planned));
      ok := true;
    }

    /** The object loop counts what was stored; an error outside the per-object containment ends it
        incomplete, one after the status is decided keeps the status. */
    method StoreObjects(outcomes: seq<bool>, fault: Option<Fault>, skipped: bool, ghost start: World,
        ghost before: seq<(RunId, Event)>)
      returns (stored: nat, status: string, raised: bool, ghost events: seq<(RunId, Event)>)
      requires After(start, before) == Alone(target, Storing(0, 0), |outcomes|, skipped, partial)
      ensures stored <= |outcomes|
      ensures raised
         <==> fault == Some(AfterStatus) || (fault.Some? && fault.value.AtObject? && fault.value.i <= |outcomes|)
      ensures stored == Stored(if raised && fault.value.AtObject? then outcomes[..fault.value.i] else outcomes)
      ensures status == COMPLETE <==>
                !(raised && fault.value.AtObject?) && !skipped && forall i :: 0 <= i < |outcomes| ==> outcomes[i]
      ensures status == if raised && fault.value.AtObject? then INCOMPLETE else Verdict(stored, |outcomes|, skipped)
      ensures After(start, events) == Alone(target, Ending(stored, status, raised), |outcomes|, skipped, partial)
    {
      hide After, Alone;
      stored, raised, events, status := 0, false, before, INCOMPLETE;
      StatusesDiffer();
      for i := 0 to |outcomes|
        invariant stored == Stored(outcomes[..i]) <= i && !raised && status == INCOMPLETE
        invariant fault.Some? && fault.value.AtObject? ==> fault.value.i >= i
        invariant After(start, events) == Alone(target, Storing(i, stored), |outcomes|, skipped, partial)
      {
        if fault == Some(AtObject(i)) {
          WalkRaise(start, events, target, Storing(i, stored), |outcomes|, skipped, partial);
          return stored, INCOMPLETE, true, events + [(0, Raise)];
        }
        WalkObject(start, events, target, i, stored, |outcomes|, skipped, partial);
        assert outcomes[..i + 1][..i] == outcomes[..i];
        if outcomes[i] {
          events := events + [(0, ObjectStored)];
          stored := stored + 1;
        } else {
          events := events + [(0, ObjectFails)];
        }
      }
      assert outcomes[..|outcomes|] == outcomes;
      VerdictIff(outcomes, skipped);
      if fault == Some(AtObject(|outcomes|)) {
        WalkRaise(start, events, target, Storing(|outcomes|, stored), |outcomes|, skipped, partial);
        return stored, INCOMPLETE, true, events + [(0, Raise)];
      }
      LoopEnds(start, events, target, stored, |outcomes|, skipped, partial);
      events, status := events + [(0, Advance)], Verdict(stored, |outcomes|, skipped);
      if fault == Some(AfterStatus) {
        WalkRaise(start, events, target, Ending(stored, status, false), |outcomes|, skipped, partial);
        events, raised := events + [(0, Unwind)], true;
      }
    }

    /** The final marks, set on the way out of an error too; a mark that fails ends the run there. */
    method Seal(fault: Option<Fault>, stored: nat, status: string, raised: bool, planned: nat, skipped: bool,
        ghost start: World, ghost before: seq<(RunId, Event)>)
      returns (ok: bool, ghost events: seq<(RunId, Event)>)
      requires After(start, before) == Alone(target, Ending(stored, status, raised), planned, skipped, partial)
      modifies this`partial
      ensures ok <==> !raised && fault != Some(WrittenMark) && fault != Some(StatusMark)
      ensures fault != Some(WrittenMark) && fault != Some(StatusMark) ==>
                partial == old(partial)[WrittenKey := Decimal(stored)][StatusKey := status]
      ensures var phase := if ok then Sealed(stored, status) else Releasing;
              After(start, events) == Alone(target, phase, planned, skipped, partial)
    {
      hide Decimal, After, Alone;
      if fault == Some(WrittenMark) {
        WalkRaise(start, before, target, Ending(stored, status, raised), planned, skipped, partial);
        return false, before + [(0, Raise)];
      }
      WalkOn(start, before, target, Ending(stored, status, raised), planned, skipped, partial);
      events := before + [(0, Advance)];
      SetMark(WrittenKey, Decimal(stored));
      if fault == Some(StatusMark) {
        WalkRaise(start, events, target, Ended(stored, status, raised), planned, skipped, partial);
        return false, events + [(0, Raise)];
      }
      WalkOn(start, events, target, Ended(stored, status, raised), planned, skipped, partial);
      events := events + [(0, Advance)];
      SetMark(StatusKey, status);
      ok := !raised;
    }

    /** The rename and what can strike around it. */
    method Finish(fault: Option<Fault>, stored: nat, status: string, planned: nat, skipped: bool, ghost start: World,
        ghost before: seq<(RunId, Event)>)
      returns (report: Option<string>, ghost events: seq<(RunId, Event)>)
      requires After(start, before) == Alone(target, Sealed(stored, status), planned, skipped, partial)
      modifies this`target
      ensures report == if fault == Some(Renaming) || fault == Some(Renamed) then None else Some(status)
      ensures target == if fault == Some(Renaming) then old(target) else Archive(0, partial)
      ensures var phase := if report.Some? then Reported(stored, status) else Releasing;
              After(start, events) == Alone(target, phase, planned, skipped, partial)
    {
      hide Decimal, After, Alone;
      if fault == Some(Renaming) {
        WalkRaise(start, before, target, Sealed(stored, status), planned, skipped, partial);
        return None, before + [(0, Raise)];
      }
      WalkOn(start, before, target, Sealed(stored, status), planned, skipped, partial);
      events := before + [(0, Advance)];
      target := Archive(0, partial);
      if fault == Some(Renamed) {
        WalkRaise(start, events, target, Moved(stored, status), planned, skipped, partial);
        return None, events + [(0, Raise)];
      }
      Walk(start, events, target, Moved(stored, status), planned, skipped, partial);
      events := events + [(0, Advance)];
      report := Some(status);
    }

    /** Everything inside the guarded block, up to its end or to the release. */
    method Archiving(outcomes: seq<bool>, skipped: bool, fault: Option<Fault>, ghost start: World,
        ghost before: seq<(RunId, Event)>)
      returns (report: Option<string>, ghost stored: nat, ghost events: seq<(RunId, Event)>)
      requires After(start, before) == Alone(target, Opening, |outcomes|, skipped, partial) && target == Claim(0)
      requires fault != Some(AfterClaim) && fault != Some(PartialTaken)
      modifies this
      ensures report.Some? <==> !Strikes(fault, |outcomes|)
      ensures report.Some? ==>
                stored == Stored(outcomes) && report.value == Verdict(stored, |outcomes|, skipped)
                && partial == map[LayoutKey := VERSION, StatusKey := report.value, PlannedKey := Decimal(|outcomes|),
                                  WrittenKey := Decimal(stored)]
      ensures target == if report.Some? || fault == Some(Renamed) then Archive(0, partial) else Claim(0)
      ensures var phase := if report.Some? then Reported(stored, report.value) else Releasing;
              After(start, events) == Alone(target, phase, |outcomes|, skipped, partial)
    {
      hide Decimal, After, Alone;
      var planned := |outcomes|;
      var ok, n, status, raised;
      stored := 0;
      ok, events := Prepare(fault, planned, skipped, start, before);
      if !ok {
        return None, stored, events;
      }
      n, status, raised, events := StoreObjects(outcomes, fault, skipped, start, events);
      stored := n;
      ok, events := Seal(fault, n, status, raised, planned, skipped, start, events);
      if !ok {
        return None, stored, events;
      }
      report, events := Finish(fault, n, status, planned, skipped, start, events);
    }

    /** A whole run with at most one exception and perhaps one more inside the release: its effect is
        that of the protocol's steps, one after the other. */
    method Migrate(outcomes: seq<bool>, skipped: bool, fault: Option<Fault>, releaseInterrupted: bool)
      returns (report: Option<string>, ghost end: Phase, ghost events: seq<(RunId, Event)>)
      modifies this
      ensures Finished(end) && (end.Reported? <==> report.Some?)
      ensures After(Alone(old(target), Starting, |outcomes|, skipped, old(partial)), events)
           == Alone(target, end, |outcomes|, skipped, partial)
      ensures report.Some? <==> old(target).Absent? && !Strikes(fault, |outcomes|)
      ensures report.Some? ==>
                (report.value == COMPLETE <==> !skipped && forall i :: 0 <= i < |outcomes| ==> outcomes[i])
                && (report.value == COMPLETE || report.value == INCOMPLETE)
                && partial == map[LayoutKey := VERSION, StatusKey := report.value, PlannedKey := Decimal(|outcomes|),
                                  WrittenKey := Decimal(Stored(outcomes))]
      ensures target == if !old(target).Absent? then old(target)
                        else if report.Some? || fault == Some(Renamed) then Archive(0, partial)
                        else if fault == Some(AfterClaim) || releaseInterrupted then Claim(0)
                        else Absent
    {
      hide Decimal, Alone;
      var planned := |outcomes|;
      ghost var start := Alone(target, Starting, planned, skipped, partial);
      events := [];
      assert After(start, events) == start;
      hide After;
      WalkOn(start, events, target, Starting, planned, skipped, partial);
      events := events + [(0, Advance)];
      if !target.Absent? {
        return None, Refused, events;
      }
      WalkOn(start, events, target, Planned, planned, skipped, partial);
      events := events + [(0, Advance)];
      var claimed := TryClaim();
      WalkRaise(start, events, target, Claimed, planned, skipped, partial);
      if fault == Some(AfterClaim) {
        return None, Failed, events + [(0, Raise)];
      }
      if fault == Some(PartialTaken) {
        events := LetGo(releaseInterrupted, planned, skipped, start, events + [(0, NameTaken)]);
        return None, Failed, events;
      }
      Walk(start, events, target, Claimed, planned, skipped, partial);
      events := events + [(0, Advance)];
      ghost var stored;
      report, stored, events := Archiving(outcomes, skipped, fault, start, events);
      if report.Some? {
        VerdictIff(outcomes, skipped);
        return report, Reported(stored, report.value), events;
      }
      events := LetGo(releaseInterrupted, planned, skipped, start, events);
      return None, Failed, events;
    }
  }
}
