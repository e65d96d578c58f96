/** The run protocol: claim, partial file, status marks, rename and release, by any number of runs
    on one destination (migration/_migrate.py). */
module Protocol {
  import opened Wrappers
  import opened DataEcon
  import opened Labels
  import opened Layout
  import opened Reader

  type RunId = nat

  /** What is at the destination path. */
  datatype Destination =
    | Absent
    | Claim(owner: RunId)
    | Archive(owner: RunId, catalog: Attributes)
    | Foreign(zeroBytes: bool)

  /** Where a run is. `raising` marks the way out of an exception through the final marks. */
  datatype Phase =
    | Starting
    | Planned
    | Claimed
    | Opening
    | Cataloged
    | Versioned
    | Marked
    | Storing(done: nat, stored: nat)
    | Ending(stored: nat, status: string, raising: bool)
    | Ended(stored: nat, status: string, raising: bool)
    | Sealed(stored: nat, status: string)
    | Moved(stored: nat, status: string)
    | Reported(stored: nat, status: string)
    | Releasing
    | Sized
    | Refused
    | Failed
    | Dead

  /** One run: its phase, its plan and the catalog attributes of its partial file. */
  datatype Run = Run(phase: Phase, planned: nat, skipped: bool, partial: Attributes)

  datatype World = World(target: Destination, runs: seq<Run>)

  /** Go on; one object stored or failed; the partial name is taken; an exception; an exception once
      the status is decided, which passes the final marks on its way out; the process dies. */
  datatype Event = Advance | ObjectStored | ObjectFails | NameTaken | Raise | Unwind | Crash

  /** The file is zero bytes long. */
  predicate ZeroBytes(d: Destination) {
    d.Claim? || (d.Foreign? && d.zeroBytes)
  }

  predicate HasContent(d: Destination) {
    d.Archive? || (d.Foreign? && !d.zeroBytes)
  }

  function Set(run: Run, key: Key, text: string, phase: Phase): Run {
    run.(partial := run.partial[key := text], phase := phase)
  }

  /** Where an exception takes a run; outside the guarded block nothing is released. */
  function Raised(phase: Phase): Phase {
    match phase
    case Starting => Failed
    case Planned => Failed
    case Claimed => Failed
    case Opening => Releasing
    case Cataloged => Releasing
    case Versioned => Releasing
    case Marked => Releasing
    case Storing(_, stored) => Ending(stored, INCOMPLETE, true)
    case Ending(_, _, _) => Releasing
    case Ended(_, _, _) => Releasing
    case Sealed(_, _) => Releasing
    case Moved(_, _) => Releasing
    case Releasing => Failed
    case Sized => Failed
    case _ => phase
  }

  predicate Finished(phase: Phase) {
    phase.Reported? || phase.Refused? || phase.Failed? || phase.Dead?
  }

  function At(w: World, r: RunId, phase: Phase): World
    requires r < |w.runs|
  {
    w.(runs := w.runs[r := w.runs[r].(phase := phase)])
  }

  function Put(w: World, r: RunId, run: Run): World
    requires r < |w.runs|
  {
    w.(runs := w.runs[r := run])
  }

  /** The status a run that stored every planned object deserves, unless something was skipped. */
  function FinalStatus(run: Run, stored: nat): string {
    if stored == run.planned && !run.skipped then COMPLETE else INCOMPLETE
  }

  function Go(w: World, r: RunId): World
    requires r < |w.runs|
  {
    var run := w.runs[r];
    match run.phase
    case Starting => At(w, r, if w.target.Absent? then Planned else Refused)
    case Planned => if w.target.Absent? then At(w, r, Claimed).(target := Claim(r)) else At(w, r, Refused)
    case Claimed => At(w, r, Opening)
    case Opening => Put(w, r, run.(partial := map[], phase := Cataloged))
    case Cataloged => Put(w, r, Set(run, LayoutKey, VERSION, Versioned))
    case Versioned => Put(w, r, Set(run, StatusKey, STARTED, Marked))
    case Marked => Put(w, r, Set(run, PlannedKey, Decimal(run.planned), Storing(0, 0)))
    case Storing(done, stored) =>
      if done < run.planned then w else At(w, r, Ending(stored, FinalStatus(run, stored), false))
    case Ending(stored, status, raising) =>
      Put(w, r, Set(run, WrittenKey, Decimal(stored), Ended(stored, status, raising)))
    case Ended(stored, status, raising) =>
      Put(w, r, Set(run, StatusKey, status, if raising then Releasing else Sealed(stored, status)))
    case Sealed(stored, status) => At(w, r, Moved(stored, status)).(target := Archive(r, run.partial))
    case Moved(stored, status) => At(w, r, Reported(stored, status))
    case Releasing => At(w, r, if ZeroBytes(w.target) then Sized else Failed)
    case Sized => At(w, r, Failed).(target := Absent)
    case _ => w
  }

  function Step(w: World, r: RunId, e: Event): World {
    if r >= |w.runs| || Finished(w.runs[r].phase) then w
    else
      var phase := w.runs[r].phase;
      match e
      case Crash => At(w, r, Dead)
      case Raise => At(w, r, Raised(phase))
      case Unwind => if phase.Ending? then At(w, r, Ending(phase.stored, phase.status, true)) else w
      case NameTaken => if phase.Claimed? then At(w, r, Releasing) else w
      case ObjectStored =>
        if phase.Storing? && phase.done < w.runs[r].planned then At(w, r, Storing(phase.done + 1, phase.stored + 1))
        else w
      case ObjectFails =>
        if phase.Storing? && phase.done < w.runs[r].planned then At(w, r, Storing(phase.done + 1, phase.stored)) else w
      case Advance => Go(w, r)
  }

  predicate Initial(w: World) {
    !w.target.Claim? && !w.target.Archive? 
    && forall r :: 0 <= r < |w.runs| ==> w.runs[r].phase == Starting && w.runs[r].partial == map[]
  }

  function After(w: World, events: seq<(RunId, Event)>): World
    decreases |events|
  {
    if events == [] then w
    else
      var n := |events| - 1;
      Step(After(w, events[..n]), events[n].0, events[n].1)
  }

  // -- who holds the claim ---------------------------------------------------------------------------

  /** Between the exclusive creation and the rename or the release. */
  predicate Holds(phase: Phase) {
    phase.Claimed? || phase.Opening? || phase.Cataloged? || phase.Versioned? || phase.Marked? || phase.Storing?
    || phase.Ending? || phase.Ended? || phase.Sealed? || phase.Sized?
  }

  predicate OwnArchive(w: World, r: RunId)
    requires r < |w.runs|
  {
    w.target == Archive(r, w.runs[r].partial)
  }

  predicate Placed(w: World, r: RunId)
    requires r < |w.runs|
  {
    var phase := w.runs[r].phase;
    (Holds(phase) ==> w.target == Claim(r))
    && (phase.Moved? || phase.Reported? ==> OwnArchive(w, r))
    && (phase.Releasing? ==> w.target == Claim(r) || OwnArchive(w, r))
  }

  // -- what the partial file's catalog carries ---------------------------------------------------------

  function Counted(run: Run): Attributes {
    map[LayoutKey := VERSION, StatusKey := STARTED, PlannedKey := Decimal(run.planned)]
  }

  /** The catalog attributes of each phase; a failed run may have stopped anywhere. */
  ghost predicate Carries(run: Run) {
    var a := run.partial;
    match run.phase
    case Versioned => a == map[LayoutKey := VERSION]
    case Marked => a == map[LayoutKey := VERSION, StatusKey := STARTED]
    case Storing(done, stored) => a == Counted(run) && stored <= done <= run.planned
    case Ending(stored, status, raising) =>
      a == Counted(run) && Deserved(run, stored, status) && (raising || Earned(run, stored, status))
    case Ended(stored, status, raising) =>
      a == Counted(run)[WrittenKey := Decimal(stored)] && Deserved(run, stored, status)
      && (raising || Earned(run, stored, status))
    case Sealed(stored, status) => FinalMarks(run, stored, status) && Earned(run, stored, status)
    case Moved(stored, status) => FinalMarks(run, stored, status) && Earned(run, stored, status)
    case Reported(stored, status) => FinalMarks(run, stored, status) && Earned(run, stored, status)
    case Releasing => Sound(run)
    case Sized => Sound(run)
    case Failed => Sound(run)
    case Dead => Sound(run)
    case _ => a == map[]
  }

  /** Whatever happened, the marks are those of some moment of a run. */
  ghost predicate Sound(run: Run) {
    var a := run.partial;
    a == map[] || a == map[LayoutKey := VERSION] || a == map[LayoutKey := VERSION, StatusKey := STARTED]
    || a == Counted(run)
    || (exists stored: nat :: CountedWritten(run, stored))
    || (exists stored: nat, status :: FinalMarks(run, stored, status))
  }

  predicate CountedWritten(run: Run, stored: nat) {
    run.partial == Counted(run)[WrittenKey := Decimal(stored)] && stored <= run.planned
  }

  predicate FinalMarks(run: Run, stored: nat, status: string) {
    run.partial == Final(run, stored, status) && Deserved(run, stored, status)
  }

  predicate Deserved(run: Run, stored: nat, status: string) {
    stored <= run.planned
    && (status == COMPLETE || status == INCOMPLETE) && (status == COMPLETE ==> stored == run.planned && !run.skipped)
  }

  /** Complete exactly when every planned object was stored and none skipped. */
  predicate Earned(run: Run, stored: nat, status: string) {
    status == COMPLETE <==> stored == run.planned && !run.skipped
  }

  function Final(run: Run, stored: nat, status: string): Attributes {
    map[LayoutKey := VERSION, StatusKey := status, PlannedKey := Decimal(run.planned), WrittenKey := Decimal(stored)]
  }

  ghost predicate Inv(w: World) {
    forall r :: 0 <= r < |w.runs| ==> Placed(w, r) && Carries(w.runs[r])
  }

  lemma StatusesDiffer()
    ensures STARTED != COMPLETE && STARTED != INCOMPLETE && COMPLETE != INCOMPLETE
  {
    assert STARTED[0] != COMPLETE[0] && STARTED[0] != INCOMPLETE[0] && COMPLETE[0] != INCOMPLETE[0];
  }

  /** What one event of a run may do to the destination. */
  predicate TargetStep(before: Destination, after: Destination, r: RunId) {
    after == before
    || (before.Absent? && after == Claim(r))
    || (before == Claim(r) && after.Archive? && after.owner == r)
    || (before == Claim(r) && after.Absent?)
  }

  lemma CarriesIsSound(run: Run, phase: Phase)
    requires Carries(run)
    ensures Sound(run.(phase := phase))
  {
    hide Decimal, Deserved;
    match run.phase
    case Ended(stored, status, _) =>
      assert CountedWritten(run.(phase := phase), stored) by { DeservedBound(run, stored, status); }
    case Sealed(stored, status) => FinalAnywhere(run, stored, status, phase);
    case Moved(stored, status) => FinalAnywhere(run, stored, status, phase);
    case Reported(stored, status) => FinalAnywhere(run, stored, status, phase);
    case Releasing => SoundAnywhere(run, phase);
    case Sized => SoundAnywhere(run, phase);
    case Failed => SoundAnywhere(run, phase);
    case Dead => SoundAnywhere(run, phase);
    case _ =>
  }

  lemma DeservedBound(run: Run, stored: nat, status: string)
    requires Deserved(run, stored, status)
    ensures stored <= run.planned
  {
  }

  lemma SoundAnywhere(run: Run, phase: Phase)
    requires Sound(run)
    ensures Sound(run.(phase := phase))
  {
    hide Decimal, Deserved;
    if stored: nat :| CountedWritten(run, stored) {
      assert CountedWritten(run.(phase := phase), stored);
    } else if stored: nat, status :| FinalMarks(run, stored, status) {
      FinalAnywhere(run, stored, status, phase);
    }
  }

  lemma FinalAnywhere(run: Run, stored: nat, status: string, phase: Phase)
    requires FinalMarks(run, stored, status)
    ensures FinalMarks(run.(phase := phase), stored, status)
  {
    hide Decimal;
  }

  lemma GoCarries(w: World, r: RunId)
    requires r < |w.runs| && Carries(w.runs[r])
    ensures Carries(Go(w, r).runs[r])
  {
    hide Decimal;
    StatusesDiffer();
    var run := w.runs[r];
    if run.phase.Releasing? || run.phase.Sized? {
      CarriesIsSound(run, Sized);
      CarriesIsSound(run, Failed);
    } else if run.phase.Ended? {
      EndedCarries(w, r);
    }
    hide Sound;
  }

  lemma EndedCarries(w: World, r: RunId)
    requires r < |w.runs| && Carries(w.runs[r]) && w.runs[r].phase.Ended?
    ensures Carries(Go(w, r).runs[r])
  {
    hide Decimal;
    var run := w.runs[r];
    var next := Go(w, r).runs[r];
    assert next.partial == Final(run, run.phase.stored, run.phase.status);
    assert FinalMarks(next, run.phase.stored, run.phase.status);
  }

  lemma RaisedCarries(run: Run)
    requires Carries(run)
    ensures Carries(run.(phase := Raised(run.phase))) && Carries(run.(phase := Dead))
  {
    CarriesIsSound(run, Raised(run.phase));
    CarriesIsSound(run, Dead);
    hide Decimal, Sound;
  }

  lemma GoPlaced(w: World, r: RunId)
    requires r < |w.runs| && Placed(w, r)
    ensures Placed(Go(w, r), r) && TargetStep(w.target, Go(w, r).target, r)
  {
    hide Decimal;
  }

  /** No step of another run moves a destination that is claimed or holds an archive. */
  lemma OthersPlaced(w: World, r: RunId, other: RunId, e: Event)
    requires r < |w.runs| && other < |w.runs| && other != r && Placed(w, r) && Placed(w, other)
    requires TargetStep(w.target, Step(w, r, e).target, r)
    ensures Placed(Step(w, r, e), other)
  {
    hide Decimal, Go, Raised;
    GoKeepsOthers(w, r, other);
  }

  lemma GoKeepsOthers(w: World, r: RunId, other: RunId)
    requires r < |w.runs| && other < |w.runs| && other != r
    ensures |Go(w, r).runs| == |w.runs| && Go(w, r).runs[other] == w.runs[other]
  {
    hide Decimal;
  }

  lemma StepOfRun(w: World, r: RunId, e: Event)
    requires Inv(w) && r < |w.runs|
    ensures Placed(Step(w, r, e), r) && Carries(Step(w, r, e).runs[r]) && TargetStep(w.target, Step(w, r, e).target, r)
  {
    hide Decimal;
    GoCarries(w, r);
    GoPlaced(w, r);
    RaisedCarries(w.runs[r]);
    hide Go;
  }

  /** Every event of every run keeps the invariant, and changes the destination only as its claimant may. */
  lemma StepKeeps(w: World, r: RunId, e: Event)
    requires Inv(w)
    ensures Inv(Step(w, r, e)) && TargetStep(w.target, Step(w, r, e).target, r)
    ensures |Step(w, r, e).runs| == |w.runs|
  {
    if r < |w.runs| {
      StepOfRun(w, r, e);
      forall other | 0 <= other < |w.runs| && other != r
        ensures Placed(Step(w, r, e), other) && Carries(Step(w, r, e).runs[other])
      {
        OthersPlaced(w, r, other, e);
        GoKeepsOthers(w, r, other);
        hide Go, Carries, Placed;
      }
      hide Go, Carries, Placed, Raised, TargetStep;
    }
  }

  lemma {:induction false} EventsKeep(w: World, events: seq<(RunId, Event)>)
    requires Inv(w)
    ensures Inv(After(w, events)) && |After(w, events).runs| == |w.runs|
    decreases |events|
  {
    if events != [] {
      var n := |events| - 1;
      EventsKeep(w, events[..n]);
      StepKeeps(After(w, events[..n]), events[n].0, events[n].1);
      hide Inv, Step;
    }
  }

  lemma InitialHolds(w: World)
    requires Initial(w)
    ensures Inv(w)
  {
  }

  // -- safety over every interleaving ------------------------------------------------------------------

  /** No run removes or overwrites a destination that has content, or an empty file it did not create. */
  lemma ContentStays(w: World, events: seq<(RunId, Event)>, r: RunId, e: Event)
    requires Initial(w)
    ensures var now := After(w, events);
            HasContent(now.target) || now.target.Foreign? ==> Step(now, r, e).target == now.target
  {
    InitialHolds(w);
    EventsKeep(w, events);
    StepKeeps(After(w, events), r, e);
    hide Step, After, Inv;
  }

  /** At most one run holds the claim, and the destination then is that run's zero-byte file. */
  lemma OneClaimant(w: World, events: seq<(RunId, Event)>, r: RunId, s: RunId)
    requires Initial(w) && r < |After(w, events).runs| && s < |After(w, events).runs|
    requires Holds(After(w, events).runs[r].phase) && Holds(After(w, events).runs[s].phase)
    ensures r == s && After(w, events).target == Claim(r)
  {
    InitialHolds(w);
    EventsKeep(w, events);
    var now := After(w, events);
    assert Placed(now, r) && Placed(now, s);
    hide After, Holds, Inv;
  }

  /** Only the run that created the claim replaces or unlinks it. */
  lemma OnlyClaimantChanges(w: World, events: seq<(RunId, Event)>, r: RunId, e: Event)
    requires Initial(w) && Step(After(w, events), r, e).target != After(w, events).target
    ensures After(w, events).target == Absent || After(w, events).target == Claim(r)
  {
    InitialHolds(w);
    EventsKeep(w, events);
    StepKeeps(After(w, events), r, e);
    hide Step, After, Inv;
  }

  lemma {:induction false} ContentForever(w: World, events: seq<(RunId, Event)>)
    requires Inv(w) && HasContent(w.target)
    ensures After(w, events).target == w.target
    decreases |events|
  {
    if events != [] {
      var n := |events| - 1;
      ContentForever(w, events[..n]);
      EventsKeep(w, events[..n]);
      StepKeeps(After(w, events[..n]), events[n].0, events[n].1);
      hide Step, Inv;
    }
  }

  /** A run that returned a report left its own finished archive, and whatever any run does later, it stays:
      its marks are the reported ones, complete exactly when every planned object was stored and none skipped. */
  lemma ReportedArchiveStays(w: World, events: seq<(RunId, Event)>, later: seq<(RunId, Event)>, r: RunId)
    requires Initial(w) && r < |After(w, events).runs| && After(w, events).runs[r].phase.Reported?
    ensures var run := After(w, events).runs[r];
            After(After(w, events), later).target == Archive(r, Final(run, run.phase.stored, run.phase.status))
            && (run.phase.status == COMPLETE <==> run.phase.stored == run.planned && !run.skipped)
  {
    InitialHolds(w);
    EventsKeep(w, events);
    var now := After(w, events);
    assert Placed(now, r) && Carries(now.runs[r]);
    ContentForever(now, later);
    hide After, Inv, Decimal;
  }

  // -- claims left behind --------------------------------------------------------------------------------

  /** A claim belongs to a run that is still going to replace or release it. */
  predicate ClaimHeld(w: World) {
    w.target.Claim? ==>
      w.target.owner < |w.runs| && (Holds(w.runs[w.target.owner].phase) || w.runs[w.target.owner].phase.Releasing?)
  }

  /** The claimant dies, or an exception hits it before the guarded block or inside the release itself. */
  predicate Abandons(w: World, r: RunId, e: Event) {
    r < |w.runs| && w.target == Claim(r)
    && (e.Crash? || (e.Raise? && (w.runs[r].phase.Claimed? || w.runs[r].phase.Releasing? || w.runs[r].phase.Sized?)))
  }

  lemma GoKeepsClaim(w: World, r: RunId)
    requires r < |w.runs| && ClaimHeld(w) && Placed(w, r)
    ensures ClaimHeld(Go(w, r))
  {
    hide Decimal;
  }

  /** A claim is left behind exactly when its run dies or is interrupted outside the guarded block. */
  lemma LeftBehindIff(w: World, r: RunId, e: Event)
    requires Inv(w) && ClaimHeld(w)
    ensures !ClaimHeld(Step(w, r, e)) <==> Abandons(w, r, e)
  {
    hide Decimal;
    if r < |w.runs| {
      assert Placed(w, r);
      GoKeepsClaim(w, r);
    }
    hide Go, Carries;
  }

  ghost predicate NeverAbandons(w: World, events: seq<(RunId, Event)>)
    decreases |events|
  {
    events == [] ||
    var n := |events| - 1;
    NeverAbandons(w, events[..n]) && !Abandons(After(w, events[..n]), events[n].0, events[n].1)
  }

  /** Nobody takes up an abandoned claim. */
  lemma AbandonedStays(w: World, r: RunId, e: Event)
    requires Inv(w) && !ClaimHeld(w)
    ensures !ClaimHeld(Step(w, r, e)) && Step(w, r, e).target == w.target
  {
    hide Decimal, Carries;
    var owner := w.target.owner;
    if r < |w.runs| && owner < |w.runs| {
      assert Placed(w, r) && Placed(w, owner);
      GoKeepsAbandoned(w, r);
      if r != owner {
        GoKeepsOthers(w, r, owner);
      }
    } else if r < |w.runs| {
      assert Placed(w, r);
      GoKeepsAbandoned(w, r);
    }
    hide Go;
  }

  lemma GoKeepsAbandoned(w: World, r: RunId)
    requires r < |w.runs| && w.target.Claim? && Placed(w, r) && !ClaimHeld(w)
    ensures Go(w, r).target == w.target && |Go(w, r).runs| == |w.runs|
    ensures r == w.target.owner ==> !Holds(Go(w, r).runs[r].phase) && !Go(w, r).runs[r].phase.Releasing?
  {
    hide Decimal;
  }

  /** A claim is held to the end exactly when no event of the run abandoned one. */
  lemma {:induction false} ClaimHeldIff(w: World, events: seq<(RunId, Event)>)
    requires Initial(w)
    ensures NeverAbandons(w, events) <==> ClaimHeld(After(w, events))
    decreases |events|
  {
    if events != [] {
      var n := |events| - 1;
      ClaimHeldIff(w, events[..n]);
      InitialHolds(w);
      EventsKeep(w, events[..n]);
      var before := After(w, events[..n]);
      if ClaimHeld(before) {
        LeftBehindIff(before, events[n].0, events[n].1);
      } else {
        AbandonedStays(before, events[n].0, events[n].1);
      }
      hide Step, Inv, Abandons;
    }
  }

  predicate AllOver(w: World) {
    forall r :: 0 <= r < |w.runs| ==> Finished(w.runs[r].phase)
  }

  /** Once every run is over, a claim is left exactly when some claimant was killed or interrupted there. */
  lemma NoClaimLeftBehind(w: World, events: seq<(RunId, Event)>)
    requires Initial(w) && AllOver(After(w, events))
    ensures NeverAbandons(w, events) <==> !After(w, events).target.Claim?
  {
    ClaimHeldIff(w, events);
    hide NeverAbandons, After;
  }

  /** An interrupt right after the exclusive creation leaves the empty destination claimed for good. */
  lemma ClaimLeaks()
    ensures var w := World(Absent, [Run(Starting, 0, false, map[]), Run(Starting, 0, false, map[])]);
            After(w, [(0, Advance), (0, Advance), (0, Raise), (1, Advance)])
            == World(Claim(0), [Run(Failed, 0, false, map[]), Run(Refused, 0, false, map[])])
  {
    var w := World(Absent, [Run(Starting, 0, false, map[]), Run(Starting, 0, false, map[])]);
    var events: seq<(RunId, Event)> := [(0, Advance), (0, Advance), (0, Raise), (1, Advance)];
    assert events[..3] == [(0, Advance), (0, Advance), (0, Raise)];
    assert events[..3][..2] == [(0, Advance), (0, Advance)];
    assert events[..3][..2][..1] == [(0, Advance)];
    assert events[..3][..2][..1][..0] == [];
    var one := At(w, 0, Planned);
    assert After(w, events[..3][..2][..1]) == one;
    var two := At(one, 0, Claimed).(target := Claim(0));
    assert After(w, events[..3][..2]) == two;
    var three := At(two, 0, Failed);
    assert After(w, events[..3]) == three;
    assert After(w, events) == At(three, 1, Refused);
  }

  // -- every intermediate catalog is well marked -----------------------------------------------------

  lemma CountsRead(n: nat)
    ensures AllDigits(Decimal(n)) && DigitsValue(Decimal(n)) == n
  {
    DigitsParse(n);
  }

  lemma FinalPasses(run: Run, stored: nat, status: string, store: Store, catalog: string)
    requires FinalMarks(run, stored, status) && catalog in store && store[catalog].attributes == run.partial
    ensures CheckLayout(store, catalog).Ok?
  {
    StatusesDiffer();
    CountsRead(stored);
    CountsRead(run.planned);
    hide Decimal, DigitsValue, AllDigits;
  }

  lemma WrittenPasses(run: Run, stored: nat, store: Store, catalog: string)
    requires CountedWritten(run, stored) && catalog in store && store[catalog].attributes == run.partial
    ensures CheckLayout(store, catalog).Ok?
  {
    StatusesDiffer();
    CountsRead(stored);
    CountsRead(run.planned);
    hide Decimal, DigitsValue, AllDigits;
  }

  lemma MarksPass(run: Run, store: Store, catalog: string)
    requires Sound(run) && catalog in store && store[catalog].attributes == run.partial
    ensures CheckLayout(store, catalog).Ok? <==> LayoutKey in run.partial && StatusKey in run.partial
    ensures StatusKey in run.partial && run.partial[StatusKey] == COMPLETE ==>
              run.partial == Final(run, run.planned, COMPLETE) && !run.skipped
  {
    StatusesDiffer();
    CountsRead(run.planned);
    hide Decimal, DigitsValue, AllDigits;
    if stored: nat :| CountedWritten(run, stored) {
      WrittenPasses(run, stored, store, catalog);
    } else if stored: nat, status :| FinalMarks(run, stored, status) {
      FinalPasses(run, stored, status, store, catalog);
    }
  }

  /** Whatever fails and whenever, the partial catalog passes the layout check exactly from the moment layout
      and status are set; complete is visible only when every planned object was stored and none skipped. */
  lemma EveryMarkPasses(w: World, events: seq<(RunId, Event)>, r: RunId, store: Store, catalog: string)
    requires Initial(w) && r < |After(w, events).runs|
    requires catalog in store && store[catalog].attributes == After(w, events).runs[r].partial
    ensures var run := After(w, events).runs[r];
            (CheckLayout(store, catalog).Ok? <==> LayoutKey in run.partial && StatusKey in run.partial)
            && (StatusKey in run.partial && run.partial[StatusKey] == COMPLETE ==>
                  run.partial == Final(run, run.planned, COMPLETE) && !run.skipped)
  {
    InitialHolds(w);
    EventsKeep(w, events);
    var run := After(w, events).runs[r];
    assert Carries(run);
    CarriesIsSound(run, run.phase);
    hide After, Inv, Decimal, CheckLayout, Carries, Sound, Final;
    assert run.(phase := run.phase) == run;
    MarksPass(run, store, catalog);
  }
}
