/**
 Restarting after a crash: the backfill replays the event ledger against whatever disk
 and store the crash left, while the tasks it spawns run in any order.
 */
module CaptureBackfill {
  import opened CaptureLifecycle

  /** What runs during a backfill: its own loop, the tasks it spawned and those they
      spawn, and the sweeper. */
  predicate BackfillAction(a: Action) {
    a.BackfillObserved? || a.BackfillReconstructed? || a.Advance? || a.Escalate? || a.SpawnDiff? || a.SpawnLineage? || a.Sweep?
  }

  /** Indexing a stored capture does not fail, neither in reading it nor in recording it,
      and failure marks reach the store. Everything else may fail. */
  predicate Reliable(w: World, a: Action) {
    (a.Advance? && a.choice == Fail && a.id in w.tasks && w.tasks[a.id].CaptureTask?)
      ==> w.tasks[a.id].phase !in {Indexing, IndexRecording, MarkingFailed}
  }

  predicate FreshTask(w: World, a: Action) {
    a.BackfillObserved? || a.BackfillReconstructed? ==> a.id !in w.tasks
  }

  /** A crash-free run of the backfill from `w`. */
  ghost predicate Backfill(w: World, g: Guards, actions: seq<Action>) {
    forall n :: 0 <= n < |actions| ==>
      && BackfillAction(actions[n])
      && Reliable(Run(w, g, actions[..n]), actions[n])
      && FreshTask(Run(w, g, actions[..n]), actions[n])
  }

  ghost predicate Drained(w: World) {
    forall id :: id in w.tasks ==> !w.tasks[id].CaptureTask?
  }

  predicate Requests(a: Action, e: EventId) { a.BackfillObserved? && a.event == e && a.wanted.capture }

  /** The ledger lists `e` with a capture request. */
  ghost predicate Replays(actions: seq<Action>, e: EventId) {
    exists n :: 0 <= n < |actions| && Requests(actions[n], e)
  }

  predicate IsSkipped(w: World, e: EventId) { e in w.store && w.store[e].capture == Skipped }

  predicate Settled(w: World, e: EventId) { e in w.store && w.store[e].capture in {Ready, Failed} }

  predicate AfterCrash(w: World) { w.tasks == map[] && w.diffQueue == {} }

  // ----- what one task step keeps

  predicate InPlacePhase(p: Phase) {
    p in {Checking, Indexing, IndexRecording, MakingDir, Fetching, WritingCapture, RecordingEarly,
          PostWriting, Deciding, RecordingFinal, MarkingFailed}
  }

  predicate IsInPlace(t: Task) { t.CaptureTask? ==> t.retention == Permanent && InPlacePhase(t.phase) }

  /** Every capture task works in place. */
  ghost predicate InPlace(w: World) {
    forall id :: id in w.tasks ==> IsInPlace(w.tasks[id])
  }

  predicate Captures(t: Task, e: EventId) { t.CaptureTask? && t.event == e }

  ghost predicate Pursued(w: World, e: EventId) {
    exists id :: id in w.tasks && Captures(w.tasks[id], e)
  }

  /** A failure of `e` can be recorded, or `e` is only being indexed. */
  ghost predicate Recordable(w: World, e: EventId) {
    e in w.store ||
    (HasCapture(w, e) && forall id :: id in w.tasks && Captures(w.tasks[id], e) ==> w.tasks[id].phase in {Indexing, IndexRecording})
  }

  predicate Decided(w: World, e: EventId) { e in w.store && w.store[e].capture != Pending }

  /** Diffs are only asked for once the capture is decided. */
  ghost predicate DiffsAfter(w: World, e: EventId) {
    && (forall r :: r in w.diffQueue && r.event == e ==> Decided(w, e))
    && (forall id :: id in w.tasks && w.tasks[id].DiffTask? && w.tasks[id].event == e ==> Decided(w, e))
  }

  /** Files and rows stay, and a settled, decided or unskipped capture stays so. */
  ghost predicate Keeps(w: World, v: World, e: EventId) {
    && (HasCapture(w, e) ==> HasCapture(v, e))
    && (e in w.store ==> e in v.store)
    && (IsSkipped(v, e) ==> IsSkipped(w, e))
    && (Settled(w, e) ==> Settled(v, e))
    && (Decided(w, e) ==> Decided(v, e))
    && (forall r :: r in v.diffQueue && r.event == e ==> r in w.diffQueue || Decided(v, e))
  }

  lemma SameKeeps(w: World, v: World, e: EventId)
    requires SameDisk(w, v, e)
    ensures Keeps(w, v, e)
  {}

  lemma WriteKeeps(w: World, captureFile: bool, c: Choice, e: EventId)
    ensures Keeps(w, WriteFinal(w, e, captureFile, c).0, e) && Keeps(w, WithFinal(w, e), e)
  {}

  lemma RecordKeeps(w: World, wanted: Wanted, e: EventId)
    ensures Keeps(w, RecordCapture(w, e, wanted), e) && Settled(RecordCapture(w, e, wanted), e)
    ensures forall t: Task, reached :: t.CaptureTask? && t.event == e ==> Keeps(w, Notify(RecordCapture(w, e, wanted), t, reached), e)
    ensures wanted.capture || Decided(w, e) ==> Keeps(w, RecordDiff(w, e, wanted), e) && Keeps(w, Upsert(w, e, wanted), e)
  {}

  lemma MarkKeeps(w: World, state: JobState, e: EventId)
    ensures Keeps(w, MarkCapture(w, e, Failed), e) && Keeps(w, MarkDiff(w, e, state), e)
    ensures e in w.store ==> Settled(MarkCapture(w, e, Failed), e)
  {}

  /** Moving or ending a task touches neither disk nor store. */
  lemma TaskKeeps(w: World, id: TaskId, e: EventId)
    ensures Keeps(w, w, e)
    ensures forall v, t {:trigger Become(v, id, t)} :: Keeps(w, v, e) ==> Keeps(w, Become(v, id, t), e)
    ensures forall v {:trigger Finish(v, id)} :: Keeps(w, v, e) ==> Keeps(w, Finish(v, id), e)
  {}

  lemma FetchKeeps(w: World, id: TaskId, c: Choice, e: EventId)
    requires id in w.tasks && Captures(w.tasks[id], e) && IsInPlace(w.tasks[id]) && FetchPhase(w.tasks[id].phase)
    ensures Keeps(w, AdvanceFetch(w, id, w.tasks[id], c), e)
  {
    hide Keeps, Become, Finish, Notify, WriteFinal, WithFinal, RecordCapture, MarkCapture, HasCapture;
    TaskKeeps(w, id, e);
    WriteKeeps(w, true, c, e);
    RecordKeeps(w, w.tasks[id].wanted, e);
    MarkKeeps(w, Failed, e);
  }

  lemma PostKeeps(w: World, id: TaskId, c: Choice, e: EventId)
    requires id in w.tasks && Captures(w.tasks[id], e) && IsInPlace(w.tasks[id]) && !FetchPhase(w.tasks[id].phase)
    ensures Keeps(w, AdvancePost(w, id, w.tasks[id], c), e)
  {
    hide Keeps, Become, Finish, Notify, WriteFinal, RecordCapture, MarkCapture, HasCapture;
    TaskKeeps(w, id, e);
    WriteKeeps(w, true, c, e);
    RecordKeeps(w, w.tasks[id].wanted, e);
  }

  lemma DiffKeeps(w: World, id: TaskId, c: Choice, e: EventId)
    requires id in w.tasks && w.tasks[id].DiffTask? && w.tasks[id].event == e && Decided(w, e)
    ensures Keeps(w, AdvanceDiff(w, id, w.tasks[id], c), e)
  {
    hide Keeps, Decided, Become, Finish, WriteFinal, WithFinal, RecordCapture, RecordDiff, MarkDiff, HasCapture, HasDiff;
    TaskKeeps(w, id, e);
    WriteKeeps(w, true, c, e);
    WriteKeeps(w, false, c, e);
    RecordKeeps(w, w.tasks[id].wanted, e);
    MarkKeeps(w, Failed, e);
    MarkKeeps(w, Skipped, e);
  }

  lemma LineageKeeps(w: World, g: Guards, id: TaskId, c: Choice, e: EventId)
    requires id in w.tasks && w.tasks[id].LineageTask? && w.tasks[id].event == e
    ensures Keeps(w, AdvanceLineage(w, g, id, w.tasks[id], c), e)
  {
    hide Keeps, Become, Finish, WriteFinal, WithFinal, RecordCapture, Upsert, HasCapture, MayPersist;
    TaskKeeps(w, id, e);
    WriteKeeps(w, true, c, e);
    RecordKeeps(w, Reconstructed(), e);
  }

  lemma AdvanceKeeps(w: World, g: Guards, id: TaskId, c: Choice, e: EventId)
    requires InPlace(w) && DiffsAfter(w, e) && id in w.tasks
    ensures Keeps(w, AdvanceTask(w, g, id, c), e)
  {
    hide Keeps, Decided, AdvanceFetch, AdvancePost, AdvanceDiff, AdvanceLineage;
    var t := w.tasks[id];
    if t.event != e {
      TaskSteps(w, g, e, id, c);
      SameKeeps(w, AdvanceTask(w, g, id, c), e);
    } else if t.DiffTask? {
      DiffKeeps(w, id, c, e);
    } else if t.LineageTask? {
      LineageKeeps(w, g, id, c, e);
    } else if FetchPhase(t.phase) {
      FetchKeeps(w, id, c, e);
    } else {
      PostKeeps(w, id, c, e);
    }
  }

  // ----- where a task goes next

  predicate StaysInPlace(v: World, id: TaskId) { id in v.tasks ==> IsInPlace(v.tasks[id]) }

  lemma TaskStaysInPlace(w: World, id: TaskId)
    ensures forall v, t {:trigger Become(v, id, t)} :: IsInPlace(t) ==> StaysInPlace(Become(v, id, t), id)
    ensures forall v {:trigger Finish(v, id)} :: StaysInPlace(Finish(v, id), id)
  {}

  lemma NextInPlace(w: World, g: Guards, id: TaskId, c: Choice)
    requires id in w.tasks && IsInPlace(w.tasks[id])
    ensures StaysInPlace(AdvanceTask(w, g, id, c), id)
  {
    hide StaysInPlace, Become, Finish, Notify, HasCapture, HasDiff, WithFinal, MayPersist;
    hide RecordCapture, RecordDiff, Upsert, MarkCapture, MarkDiff;
    TaskStaysInPlace(w, id);
    assert StaysInPlace(w, id) by { InPlaceNow(w, id); }
  }

  lemma InPlaceNow(w: World, id: TaskId)
    requires id in w.tasks && IsInPlace(w.tasks[id])
    ensures StaysInPlace(w, id)
  {}

  lemma AdvanceStaysInPlace(w: World, g: Guards, id: TaskId, c: Choice, e: EventId)
    requires InPlace(w) && id in w.tasks
    ensures InPlace(AdvanceTask(w, g, id, c)) && OthersStay(w, AdvanceTask(w, g, id, c), id)
  {
    hide AdvanceTask, OneMoved, SameDisk;
    NextInPlace(w, g, id, c);
    TaskSteps(w, g, e, id, c);
    MovedOthersStay(w, AdvanceTask(w, g, id, c), id);
  }

  predicate OnlyIndexed(w: World, id: TaskId, e: EventId) {
    HasCapture(w, e) && (id in w.tasks ==> w.tasks[id].CaptureTask? && w.tasks[id].phase in {Indexing, IndexRecording})
  }

  /** A step of a capture of `e` either goes on, or settles `e`. */
  lemma CaptureSettles(w: World, g: Guards, id: TaskId, c: Choice, e: EventId)
    requires id in w.tasks && Captures(w.tasks[id], e) && IsInPlace(w.tasks[id]) && Reliable(w, Advance(id, c))
    requires e in w.store || OnlyIndexed(w, id, e)
    ensures var v := AdvanceTask(w, g, id, c);
      && (e in v.store || OnlyIndexed(v, id, e))
      && (id !in v.tasks ==> Settled(v, e))
  {
    if FetchPhase(w.tasks[id].phase) { FetchSettles(w, id, c, e); } else { PostSettles(w, id, c, e); }
  }

  lemma FetchSettles(w: World, id: TaskId, c: Choice, e: EventId)
    requires id in w.tasks && Captures(w.tasks[id], e) && IsInPlace(w.tasks[id]) && FetchPhase(w.tasks[id].phase)
    requires Reliable(w, Advance(id, c)) && (e in w.store || OnlyIndexed(w, id, e))
    ensures var v := AdvanceFetch(w, id, w.tasks[id], c);
      && (e in v.store || OnlyIndexed(v, id, e))
      && (id !in v.tasks ==> Settled(v, e))
  {}

  lemma PostSettles(w: World, id: TaskId, c: Choice, e: EventId)
    requires id in w.tasks && Captures(w.tasks[id], e) && IsInPlace(w.tasks[id]) && !FetchPhase(w.tasks[id].phase) && e in w.store
    ensures var v := AdvancePost(w, id, w.tasks[id], c); e in v.store && (id !in v.tasks ==> Settled(v, e))
  {}

  // ----- what every step of a backfill keeps

  ghost predicate Tracked(w: World, e: EventId) {
    InPlace(w) && Recordable(w, e) && !IsSkipped(w, e) && DiffsAfter(w, e)
  }

  lemma AdvanceRecords(w: World, g: Guards, id: TaskId, c: Choice, e: EventId)
    requires Tracked(w, e) && Reliable(w, Advance(id, c)) && id in w.tasks
    ensures var v := AdvanceTask(w, g, id, c);
      Recordable(v, e) && (Captures(w.tasks[id], e) && id !in v.tasks ==> Settled(v, e))
  {
    hide AdvanceTask, Keeps;
    var v := AdvanceTask(w, g, id, c);
    AdvanceStaysInPlace(w, g, id, c, e);
    AdvanceKeeps(w, g, id, c, e);
    FilesStay(w, v, e);
    if Captures(w.tasks[id], e) { CaptureSettles(w, g, id, c, e); }
    forall i | i in v.tasks && i != id && Captures(v.tasks[i], e) ensures Captures(w.tasks[i], e) && v.tasks[i] == w.tasks[i] {}
  }

  lemma FilesStay(w: World, v: World, e: EventId)
    requires Keeps(w, v, e)
    ensures HasCapture(w, e) ==> HasCapture(v, e)
    ensures e in w.store ==> e in v.store
  {}

  lemma AdvanceTracks(w: World, g: Guards, id: TaskId, c: Choice, e: EventId)
    requires Tracked(w, e) && Reliable(w, Advance(id, c)) && id in w.tasks
    ensures var v := AdvanceTask(w, g, id, c);
      Tracked(v, e) && (Settled(w, e) || Pursued(w, e) ==> Settled(v, e) || Pursued(v, e))
  {
    hide AdvanceTask, Recordable;
    var v := AdvanceTask(w, g, id, c);
    AdvanceStaysInPlace(w, g, id, c, e);
    AdvanceKeeps(w, g, id, c, e);
    AdvanceRecords(w, g, id, c, e);
    if Pursued(w, e) {
      var i :| i in w.tasks && Captures(w.tasks[i], e);
      assert i in v.tasks ==> Captures(v.tasks[i], e);
    }
  }

  lemma MayStartInPlace(w: World, g: Guards, t: Task)
    requires InPlace(w) && IsInPlace(t) && t.CaptureTask?
    ensures MayStart(w, g, t)
  {
    forall id | id in w.tasks ensures Compatible(w.tasks[id], t) { assert IsInPlace(w.tasks[id]); }
  }

  lemma StartTracks(w: World, g: Guards, id: TaskId, t: Task, e: EventId)
    requires Tracked(w, e) && id !in w.tasks
    requires t.CaptureTask? && t.retention == Permanent && t.phase == if HasCapture(w, t.event) then Indexing else Checking
    ensures var v := StartCapture(w, g, id, t);
      && Tracked(v, e) && Pursued(v, t.event)
      && (Settled(w, e) || Pursued(w, e) ==> Settled(v, e) || Pursued(v, e))
  {
    MayStartInPlace(w, g, t);
    var v := StartCapture(w, g, id, t);
    assert v.tasks[id] == t;
    if Pursued(w, e) {
      var i :| i in w.tasks && Captures(w.tasks[i], e);
      assert v.tasks[i] == w.tasks[i];
    }
  }

  /** New diff and lineage tasks leave the captures alone. */
  lemma SpawnTracks(w: World, id: TaskId, t: Task, e: EventId)
    requires Tracked(w, e) && id !in w.tasks && !t.CaptureTask? && (t.DiffTask? && t.event == e ==> Decided(w, e))
    ensures var v := Become(w, id, t); Tracked(v, e) && (Pursued(w, e) ==> Pursued(v, e))
  {
    var v := Become(w, id, t);
    if Pursued(w, e) {
      var i :| i in w.tasks && Captures(w.tasks[i], e);
      assert i in v.tasks && v.tasks[i] == w.tasks[i];
    }
  }

  lemma UnqueueTracks(w: World, r: DiffRequest, e: EventId)
    requires Tracked(w, e)
    ensures var v := w.(diffQueue := w.diffQueue - {r});
      Tracked(v, e) && (Pursued(w, e) ==> Pursued(v, e)) && (r.event == e && r in w.diffQueue ==> Decided(v, e))
  {
    var v := w.(diffQueue := w.diffQueue - {r});
    if Pursued(w, e) {
      var i :| i in w.tasks && Captures(w.tasks[i], e);
      assert i in v.tasks && v.tasks[i] == w.tasks[i];
    }
  }

  lemma EscalateTracks(w: World, id: TaskId, e: EventId)
    requires Tracked(w, e) && id in w.tasks && MayEscalate(w.tasks[id])
    ensures var v := Become(w, id, w.tasks[id].(ask := Escalated)); Tracked(v, e) && (Pursued(w, e) ==> Pursued(v, e))
  {
    var v := Become(w, id, w.tasks[id].(ask := Escalated));
    if Pursued(w, e) {
      var i :| i in w.tasks && Captures(w.tasks[i], e);
      assert i in v.tasks && Captures(v.tasks[i], e);
    }
  }

  lemma StepTracks(w: World, g: Guards, a: Action, e: EventId)
    requires Tracked(w, e) && BackfillAction(a) && Reliable(w, a) && FreshTask(w, a)
    ensures var v := Step(w, g, a);
      Tracked(v, e) && (Settled(w, e) || Pursued(w, e) || Requests(a, e) ==> Settled(v, e) || Pursued(v, e))
  {
    match a
    case BackfillObserved(id, f, wanted) =>
      hide Tracked, Pursued, StartCapture;
      if !IsSkipped(w, f) && (HasCapture(w, f) || wanted.capture) {
        StartTracks(w, g, id, CaptureTask(f, Permanent, wanted, AskFor(wanted.diff), if HasCapture(w, f) then Indexing else Checking), e);
      }
      assert f == e ==> !IsSkipped(w, f) by { NotSkipped(w, e); }
    case BackfillReconstructed(id, f) =>
      hide Tracked, Pursued, StartCapture;
      if !IsSkipped(w, f) {
        StartTracks(w, g, id, CaptureTask(f, Permanent, Reconstructed(), NoDiff, if HasCapture(w, f) then Indexing else Checking), e);
      }
    case Advance(id, c) =>
      hide Tracked, Pursued, AdvanceTask;
      if id in w.tasks { AdvanceTracks(w, g, id, c, e); }
    case Escalate(id) =>
      hide Tracked, Pursued;
      if id in w.tasks && MayEscalate(w.tasks[id]) { EscalateTracks(w, id, e); }
    case SpawnDiff(id, r) =>
      hide Tracked, Pursued;
      if id !in w.tasks && r in w.diffQueue {
        UnqueueTracks(w, r, e);
        SpawnTracks(w.(diffQueue := w.diffQueue - {r}), id, DiffTask(r.event, r.wanted, r.forced, DiffStarting), e);
      }
    case SpawnLineage(id, _, f) =>
      hide Tracked, Pursued;
      if id !in w.tasks { SpawnTracks(w, id, LineageTask(f, LineageFetching), e); }
    case Sweep(_, _) =>
  }

  lemma NotSkipped(w: World, e: EventId)
    requires Tracked(w, e)
    ensures !IsSkipped(w, e)
  {}

  // ----- whole backfills

  lemma BackfillPrefix(w: World, g: Guards, actions: seq<Action>)
    requires Backfill(w, g, actions) && actions != []
    ensures Backfill(w, g, actions[..|actions| - 1])
  {
    var p := actions[..|actions| - 1];
    forall n | 0 <= n < |p|
      ensures BackfillAction(p[n]) && Reliable(Run(w, g, p[..n]), p[n]) && FreshTask(Run(w, g, p[..n]), p[n])
    {
      assert p[..n] == actions[..n] && p[n] == actions[n];
    }
  }

  lemma ReplaysSnoc(actions: seq<Action>, e: EventId)
    requires actions != [] && Replays(actions, e)
    ensures Replays(actions[..|actions| - 1], e) || Requests(actions[|actions| - 1], e)
  {
    var last := |actions| - 1;
    var n :| 0 <= n < |actions| && Requests(actions[n], e);
    if n < last { assert actions[..last][n] == actions[n]; }
  }

  lemma StartTracked(w: World, e: EventId)
    requires AfterCrash(w) && !IsSkipped(w, e) && (e in w.store || HasCapture(w, e))
    ensures Tracked(w, e)
  {}

  lemma {:induction false} BackfillTracks(w: World, g: Guards, actions: seq<Action>, e: EventId)
    requires AfterCrash(w) && Backfill(w, g, actions) && !IsSkipped(w, e)
    requires e in w.store || HasCapture(w, e)
    ensures var v := Run(w, g, actions);
      Tracked(v, e) && (Replays(actions, e) ==> Settled(v, e) || Pursued(v, e))
  {
    hide Tracked, Pursued, Replays, Step, Requests;
    if actions == [] {
      StartTracked(w, e);
      NothingReplayed(e);
    } else {
      var last := |actions| - 1;
      BackfillPrefix(w, g, actions);
      BackfillTracks(w, g, actions[..last], e);
      StepTracks(Run(w, g, actions[..last]), g, actions[last], e);
      if Replays(actions, e) { ReplaysSnoc(actions, e); }
    }
  }

  lemma NothingReplayed(e: EventId)
    ensures !Replays([], e)
  {}

  /** Once drained, a backfill has settled every replayed event that has a row to mark or
      a capture to index. */
  lemma BackfillSettles(w: World, g: Guards, actions: seq<Action>, e: EventId)
    requires AfterCrash(w) && Backfill(w, g, actions) && Replays(actions, e) && !IsSkipped(w, e)
    requires e in w.store || HasCapture(w, e)
    requires Drained(Run(w, g, actions))
    ensures Settled(Run(w, g, actions), e)
  {
    BackfillTracks(w, g, actions, e);
  }

  ghost predicate Untouched(w: World, e: EventId, row: Row) {
    && InPlace(w) && e in w.store && w.store[e] == row && row.capture == Skipped && (forall r :: r in w.diffQueue ==> r.event != e)
    && forall id :: id in w.tasks ==> w.tasks[id].event != e
  }

  lemma StepLeavesSkipped(w: World, g: Guards, a: Action, e: EventId, row: Row)
    requires Untouched(w, e, row) && BackfillAction(a)
    ensures Untouched(Step(w, g, a), e, row)
  {
    hide AdvanceTask, OneMoved;
    if a.Advance? && a.id in w.tasks {
      AdvanceStaysInPlace(w, g, a.id, a.choice, e);
      TaskSteps(w, g, e, a.id, a.choice);
    }
  }

  /** A backfill leaves the rows of skipped events as they are. */
  lemma {:induction false} BackfillLeavesSkipped(w: World, g: Guards, actions: seq<Action>, e: EventId)
    requires AfterCrash(w) && Backfill(w, g, actions) && IsSkipped(w, e)
    ensures Untouched(Run(w, g, actions), e, w.store[e])
  {
    hide Step;
    if actions != [] {
      BackfillPrefix(w, g, actions);
      BackfillLeavesSkipped(w, g, actions[..|actions| - 1], e);
      StepLeavesSkipped(Run(w, g, actions[..|actions| - 1]), g, actions[|actions| - 1], e, w.store[e]);
    }
  }

  ghost predicate AlwaysSettles(w: World, g: Guards, e: EventId) {
    forall actions :: Backfill(w, g, actions) && Replays(actions, e) && Drained(Run(w, g, actions))
      ==> Settled(Run(w, g, actions), e)
  }

  function FailedFetch(e: EventId): seq<Action> {
    [BackfillObserved(0, e, Both), Advance(0, Go), Advance(0, Fail), Advance(0, Go)]
  }

  /** The worlds a failed in-place capture of `e` passes through. */
  function FailedFetchAt(w: World, e: EventId, n: nat): World {
    var t := CaptureTask(e, Permanent, Both, Asked, Checking);
    if n == 0 then w
    else if n == 1 then w.(tasks := map[0 := t])
    else if n == 2 then w.(tasks := map[0 := t.(phase := MakingDir)])
    else if n == 3 then w.(tasks := map[0 := t.(phase := MarkingFailed)])
    else w
  }

  lemma FailedFetchStep(w: World, g: Guards, e: EventId, n: nat)
    requires AfterCrash(w) && e !in w.store && !HasCapture(w, e) && n < 4
    ensures var v := FailedFetchAt(w, e, n);
      && Step(v, g, FailedFetch(e)[n]) == FailedFetchAt(w, e, n + 1)
      && Reliable(v, FailedFetch(e)[n]) && FreshTask(v, FailedFetch(e)[n])
  {
    var t := CaptureTask(e, Permanent, Both, Asked, Checking);
    if n == 0 {
      assert MayStart(w, g, t);
    } else if n == 1 {
      assert map[0 := t][0 := t.(phase := MakingDir)] == map[0 := t.(phase := MakingDir)];
    } else if n == 2 {
      assert map[0 := t.(phase := MakingDir)][0 := t.(phase := MarkingFailed)] == map[0 := t.(phase := MarkingFailed)];
    } else {
      assert map[0 := t.(phase := MarkingFailed)] - {0} == map[];
    }
  }

  lemma {:induction false} FailedFetchRun(w: World, g: Guards, e: EventId, n: nat)
    requires AfterCrash(w) && e !in w.store && !HasCapture(w, e) && n <= 4
    ensures Run(w, g, FailedFetch(e)[..n]) == FailedFetchAt(w, e, n)
  {
    hide Step;
    if n > 0 {
      FailedFetchRun(w, g, e, n - 1);
      FailedFetchStep(w, g, e, n - 1);
      assert FailedFetch(e)[..n][..n - 1] == FailedFetch(e)[..n - 1];
    }
  }

  /** An event that is in the ledger but not in the store, and has no capture, stays
      without a row when its capture fails: the failure mark is an update. */
  lemma LostRow(w: World, g: Guards, e: EventId)
    requires AfterCrash(w) && e !in w.store && !HasCapture(w, e)
    ensures var actions := FailedFetch(e);
      Backfill(w, g, actions) && Replays(actions, e) && Drained(Run(w, g, actions)) && e !in Run(w, g, actions).store
  {
    hide Step;
    var a := FailedFetch(e);
    forall n | 0 <= n < |a|
      ensures BackfillAction(a[n]) && Reliable(Run(w, g, a[..n]), a[n]) && FreshTask(Run(w, g, a[..n]), a[n])
    {
      FailedFetchRun(w, g, e, n);
      FailedFetchStep(w, g, e, n);
    }
    FailedFetchRun(w, g, e, 4);
    assert a[..4] == a;
    assert Requests(a[0], e);
  }

  /** From any state without tasks, every backfill settles a requested, unskipped event
      exactly when the event has a row in the store or a `capture.json` on disk. */
  lemma AlwaysSettlesIff(w: World, g: Guards, e: EventId)
    requires AfterCrash(w) && !IsSkipped(w, e)
    ensures AlwaysSettles(w, g, e) <==> e in w.store || HasCapture(w, e)
  {
    if e in w.store || HasCapture(w, e) {
      forall actions | Backfill(w, g, actions) && Replays(actions, e) && Drained(Run(w, g, actions))
        ensures Settled(Run(w, g, actions), e)
      {
        BackfillSettles(w, g, actions, e);
      }
    } else {
      LostRow(w, g, e);
      assert !Settled(Run(w, g, FailedFetch(e)), e);
    }
  }
}
