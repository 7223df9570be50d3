/**
 What a backfill achieves where nothing of an event fails: whatever it replays of the event
 ends ready, and a diff that the event asks for is handed over.
 */
module BackfillOutcomes {
  import opened CaptureLifecycle
  import opened CaptureBackfill
  import opened CaptureOutcomes

  /** No effect of a capture of `e` fails, and the diff worker takes requests. */
  predicate Flawless(w: World, a: Action, e: EventId) {
    a.Advance? && a.id in w.tasks && Captures(w.tasks[a.id], e) ==>
      !Fails(w.tasks[a.id], a.choice) && (w.tasks[a.id].phase in {IndexRecording, RecordingFinal} ==> a.choice == Go)
  }

  ghost predicate FlawlessFor(w: World, g: Guards, actions: seq<Action>, e: EventId) {
    forall n :: 0 <= n < |actions| ==> Flawless(Run(w, g, actions[..n]), actions[n], e)
  }

  /** The backfill turns to `e`: the ledger lists it with a capture request, or its capture is
      on disk, or it is a reconstructed event. */
  predicate TurnsTo(w: World, a: Action, e: EventId) {
    || (a.BackfillObserved? && a.event == e && (a.wanted.capture || HasCapture(w, e)))
    || (a.BackfillReconstructed? && a.event == e)
  }

  ghost predicate TurnedTo(w: World, g: Guards, actions: seq<Action>, e: EventId) {
    exists n :: 0 <= n < |actions| && TurnsTo(Run(w, g, actions[..n]), actions[n], e)
  }

  // ----- what every step keeps

  /** Where a capture in place stands when nothing of it has failed. */
  predicate Footing(w: World, t: Task) {
    match t
    case CaptureTask(e, _, _, _, p) =>
      && p != MarkingFailed
      && (p in {Fetching, WritingCapture, RecordingEarly, PostWriting, Deciding, RecordingFinal} ==> e in w.finals)
      && (p in {Indexing, IndexRecording, RecordingEarly, PostWriting, Deciding, RecordingFinal} ==> HasCapture(w, e))
    case _ => true
  }

  ghost predicate Footed(w: World, e: EventId) {
    forall id :: id in w.tasks && Captures(w.tasks[id], e) ==> Footing(w, w.tasks[id])
  }

  ghost predicate Flowing(w: World, e: EventId) { InPlace(w) && !IsSkipped(w, e) && DiffsAfter(w, e) && Footed(w, e) }

  /** Files, directories and ready captures stay. */
  predicate KeepsReady(w: World, v: World, e: EventId) {
    && (e in w.finals ==> e in v.finals) && (HasCapture(w, e) ==> HasCapture(v, e))
    && (CaptureReady(w, e) ==> CaptureReady(v, e))
  }

  lemma SameKeepsReady(w: World, v: World, e: EventId)
    requires SameDisk(w, v, e)
    ensures KeepsReady(w, v, e)
  {}

  lemma FilesKeepReady(w: World, captureFile: bool, c: Choice, e: EventId)
    ensures KeepsReady(w, WriteFinal(w, e, captureFile, c).0, e) && KeepsReady(w, WithFinal(w, e), e)
  {}

  lemma RecordsKeepReady(w: World, wanted: Wanted, e: EventId)
    ensures KeepsReady(w, RecordCapture(w, e, wanted), e) && KeepsReady(w, RecordDiff(w, e, wanted), e) && KeepsReady(w, Upsert(w, e, wanted), e)
    ensures forall t: Task, reached :: t.CaptureTask? && t.event == e ==> KeepsReady(w, Notify(RecordCapture(w, e, wanted), t, reached), e)
    ensures forall state :: KeepsReady(w, MarkDiff(w, e, state), e)
  {}

  lemma TasksKeepReady(w: World, id: TaskId, e: EventId)
    ensures KeepsReady(w, w, e)
    ensures forall v, t {:trigger Become(v, id, t)} :: KeepsReady(w, v, e) ==> KeepsReady(w, Become(v, id, t), e)
    ensures forall v {:trigger Finish(v, id)} :: KeepsReady(w, v, e) ==> KeepsReady(w, Finish(v, id), e)
  {}

  lemma OthersKeepReady(w: World, g: Guards, id: TaskId, c: Choice, e: EventId)
    requires id in w.tasks && w.tasks[id].event == e && !w.tasks[id].CaptureTask?
    ensures KeepsReady(w, AdvanceTask(w, g, id, c), e)
  {
    hide KeepsReady, Become, Finish, WriteFinal, WithFinal, RecordCapture, RecordDiff, Upsert, MarkDiff, HasCapture, HasDiff, MayPersist;
    hide AdvanceFetch, AdvancePost;
    var t := w.tasks[id];
    TasksKeepReady(w, id, e);
    FilesKeepReady(w, true, c, e);
    FilesKeepReady(w, false, c, e);
    RecordsKeepReady(w, if t.DiffTask? then t.wanted else Reconstructed(), e);
  }

  /** What a step of a capture of `e` leads to. */
  predicate Captured(w: World, v: World, id: TaskId, e: EventId)
    requires id in w.tasks && w.tasks[id].CaptureTask?
  {
    var t := w.tasks[id];
    && KeepsReady(w, v, e)
    && if id in v.tasks then Footing(v, v.tasks[id]) && Captures(v.tasks[id], e) && v.tasks[id].wanted == t.wanted && v.tasks[id].ask == t.ask
       else CaptureReady(v, e) && (t.ask == Asked ==> DiffRequest(e, t.wanted, false) in v.diffQueue)
  }

  lemma FetchCaptures(w: World, id: TaskId, c: Choice, e: EventId)
    requires id in w.tasks && Captures(w.tasks[id], e) && IsInPlace(w.tasks[id]) && FetchPhase(w.tasks[id].phase)
    requires Footing(w, w.tasks[id]) && Flawless(w, Advance(id, c), e)
    ensures Captured(w, AdvanceFetch(w, id, w.tasks[id], c), id, e)
  {}

  lemma PostCaptures(w: World, id: TaskId, c: Choice, e: EventId)
    requires id in w.tasks && Captures(w.tasks[id], e) && IsInPlace(w.tasks[id]) && !FetchPhase(w.tasks[id].phase)
    requires Footing(w, w.tasks[id]) && Flawless(w, Advance(id, c), e)
    ensures Captured(w, AdvancePost(w, id, w.tasks[id], c), id, e)
  {}

  lemma CaptureSteps(w: World, g: Guards, id: TaskId, c: Choice, e: EventId)
    requires id in w.tasks && Captures(w.tasks[id], e) && IsInPlace(w.tasks[id])
    requires Footing(w, w.tasks[id]) && Flawless(w, Advance(id, c), e)
    ensures Captured(w, AdvanceTask(w, g, id, c), id, e)
  {
    hide AdvanceFetch, AdvancePost, Captured, Footing, Flawless;
    if FetchPhase(w.tasks[id].phase) { FetchCaptures(w, id, c, e); } else { PostCaptures(w, id, c, e); }
  }

  lemma AdvanceKeepsReady(w: World, g: Guards, id: TaskId, c: Choice, e: EventId)
    requires Flowing(w, e) && Flawless(w, Advance(id, c), e) && id in w.tasks
    ensures KeepsReady(w, AdvanceTask(w, g, id, c), e)
    ensures Captures(w.tasks[id], e) ==> Captured(w, AdvanceTask(w, g, id, c), id, e)
  {
    hide AdvanceTask, KeepsReady, Footing, Flawless;
    var t := w.tasks[id];
    if t.event != e {
      TaskSteps(w, g, e, id, c);
      SameKeepsReady(w, AdvanceTask(w, g, id, c), e);
    } else if t.CaptureTask? {
      CaptureSteps(w, g, id, c, e);
    } else {
      OthersKeepReady(w, g, id, c, e);
    }
  }

  lemma FootingStays(w: World, v: World, t: Task)
    requires Footing(w, t) && KeepsReady(w, v, t.event)
    ensures Footing(v, t)
  {}

  lemma AdvanceFlows(w: World, g: Guards, id: TaskId, c: Choice, e: EventId)
    requires Flowing(w, e) && Flawless(w, Advance(id, c), e) && id in w.tasks
    ensures Flowing(AdvanceTask(w, g, id, c), e)
  {
    var v := AdvanceTask(w, g, id, c);
    hide AdvanceTask, Flawless, Footing, KeepsReady;
    AdvanceStaysInPlace(w, g, id, c, e);
    AdvanceKeeps(w, g, id, c, e);
    AdvanceKeepsReady(w, g, id, c, e);
    TaskSteps(w, g, e, id, c);
    hide Keeps, SameDisk, OneMoved;
    NotSkippedAfter(w, v, e);
    forall i | i in v.tasks && Captures(v.tasks[i], e) ensures Footing(v, v.tasks[i]) {
      if i == id { CapturedFoots(w, v, id, e); } else { FootingStays(w, v, v.tasks[i]); }
    }
    DiffsStayAfter(w, v, id, e);
  }

  lemma NotSkippedAfter(w: World, v: World, e: EventId)
    requires Keeps(w, v, e) && !IsSkipped(w, e)
    ensures !IsSkipped(v, e)
  {}

  lemma CapturedFoots(w: World, v: World, id: TaskId, e: EventId)
    requires id in w.tasks && id in v.tasks && Captures(v.tasks[id], e) && OthersStay(w, v, id)
    requires Captures(w.tasks[id], e) ==> Captured(w, v, id, e)
    ensures Footing(v, v.tasks[id])
  {}

  lemma DiffsStayAfter(w: World, v: World, id: TaskId, e: EventId)
    requires DiffsAfter(w, e) && Keeps(w, v, e) && OthersStay(w, v, id) && id in w.tasks
    ensures DiffsAfter(v, e)
  {
    forall i | i in v.tasks && v.tasks[i].DiffTask? && v.tasks[i].event == e ensures Decided(v, e) {
      assert i in w.tasks && w.tasks[i].DiffTask? && w.tasks[i].event == e;
    }
  }

  /** A started task of the backfill. */
  lemma StartFlows(w: World, g: Guards, id: TaskId, t: Task, e: EventId)
    requires Flowing(w, e) && id !in w.tasks
    requires t.CaptureTask? && t.retention == Permanent && t.phase == if HasCapture(w, t.event) then Indexing else Checking
    ensures var v := StartCapture(w, g, id, t); Flowing(v, e) && v == Become(w, id, t)
  {
    MayStartInPlace(w, g, t);
  }

  lemma OtherFlows(w: World, id: TaskId, t: Task, e: EventId)
    requires Flowing(w, e) && id !in w.tasks && !t.CaptureTask? && (t.DiffTask? && t.event == e ==> Decided(w, e))
    ensures Flowing(Become(w, id, t), e)
  {}

  lemma UnqueueFlows(w: World, r: DiffRequest, e: EventId)
    requires Flowing(w, e)
    ensures var v := w.(diffQueue := w.diffQueue - {r}); Flowing(v, e) && (r.event == e && r in w.diffQueue ==> Decided(v, e))
  {}

  lemma EscalateFlows(w: World, id: TaskId, e: EventId)
    requires Flowing(w, e) && id in w.tasks && MayEscalate(w.tasks[id])
    ensures Flowing(Become(w, id, w.tasks[id].(ask := Escalated)), e)
  {}

  lemma StepFlows(w: World, g: Guards, a: Action, e: EventId)
    requires Flowing(w, e) && BackfillAction(a) && Flawless(w, a, e) && FreshTask(w, a)
    ensures Flowing(Step(w, g, a), e)
  {
    match a
    case BackfillObserved(id, f, wanted) =>
      hide Flowing, StartCapture;
      if !IsSkipped(w, f) && (HasCapture(w, f) || wanted.capture) {
        StartFlows(w, g, id, CaptureTask(f, Permanent, wanted, AskFor(wanted.diff), if HasCapture(w, f) then Indexing else Checking), e);
      }
    case BackfillReconstructed(id, f) =>
      hide Flowing, StartCapture;
      if !IsSkipped(w, f) {
        StartFlows(w, g, id, CaptureTask(f, Permanent, Reconstructed(), NoDiff, if HasCapture(w, f) then Indexing else Checking), e);
      }
    case Advance(id, c) =>
      hide Flowing, AdvanceTask, Flawless;
      if id in w.tasks { AdvanceFlows(w, g, id, c, e); }
    case Escalate(id) =>
      hide Flowing;
      if id in w.tasks && MayEscalate(w.tasks[id]) { EscalateFlows(w, id, e); }
    case SpawnDiff(id, r) =>
      hide Flowing;
      if id !in w.tasks && r in w.diffQueue {
        UnqueueFlows(w, r, e);
        OtherFlows(w.(diffQueue := w.diffQueue - {r}), id, DiffTask(r.event, r.wanted, r.forced, DiffStarting), e);
      }
    case SpawnLineage(id, _, f) =>
      hide Flowing;
      if id !in w.tasks { OtherFlows(w, id, LineageTask(f, LineageFetching), e); }
    case Sweep(_, _) =>
  }

  // ----- ready in the end

  ghost predicate Served(w: World, e: EventId) { CaptureReady(w, e) || Pursued(w, e) }

  /** A capture of `e` is under way that asks for the diff its event wants. */
  ghost predicate Chased(w: World, e: EventId, wanted: Wanted) {
    exists id :: id in w.tasks && Captures(w.tasks[id], e) && w.tasks[id].ask == Asked && w.tasks[id].wanted == wanted
  }

  ghost predicate Handed(w: World, e: EventId, wanted: Wanted) { DiffRequest(e, wanted, false) in w.diffQueue || Chased(w, e, wanted) }

  /** The backfill turns to an event whose diff is wanted. */
  predicate AsksDiff(w: World, a: Action, e: EventId, wanted: Wanted) {
    a.BackfillObserved? && a.event == e && a.wanted == wanted && wanted.diff && (wanted.capture || HasCapture(w, e))
  }

  /** The diff worker takes up a request. */
  predicate Takes(w: World, a: Action, r: DiffRequest) { a.SpawnDiff? && a.request == r && r in w.diffQueue && a.id !in w.tasks }

  lemma AdvanceServes(w: World, g: Guards, id: TaskId, c: Choice, e: EventId, wanted: Wanted)
    requires Flowing(w, e) && Flawless(w, Advance(id, c), e) && id in w.tasks
    ensures Served(w, e) ==> Served(AdvanceTask(w, g, id, c), e)
    ensures Handed(w, e, wanted) ==> Handed(AdvanceTask(w, g, id, c), e, wanted)
  {
    var v := AdvanceTask(w, g, id, c);
    AdvanceKeepsReady(w, g, id, c, e);
    TaskSteps(w, g, e, id, c);
    MovedOthersStay(w, v, id);
    TaskQueues(w, g, id, c);
    hide AdvanceTask, Flowing, Flawless, Footing, OneMoved, SameDisk;
    if Pursued(w, e) {
      var i :| i in w.tasks && Captures(w.tasks[i], e);
      if i in v.tasks { assert Captures(v.tasks[i], e); }
    }
    if Chased(w, e, wanted) {
      var i :| i in w.tasks && Captures(w.tasks[i], e) && w.tasks[i].ask == Asked && w.tasks[i].wanted == wanted;
      if i in v.tasks { assert Captures(v.tasks[i], e) && v.tasks[i].ask == Asked && v.tasks[i].wanted == wanted; }
    }
  }

  lemma BecomeServes(w: World, id: TaskId, t: Task, e: EventId, wanted: Wanted)
    requires id in w.tasks ==> MayEscalate(w.tasks[id]) && t == w.tasks[id].(ask := Escalated)
    ensures Served(w, e) ==> Served(Become(w, id, t), e)
    ensures Handed(w, e, wanted) ==> Handed(Become(w, id, t), e, wanted)
    ensures Captures(t, e) ==> Served(Become(w, id, t), e)
    ensures Captures(t, e) && t.ask == Asked && t.wanted == wanted ==> Handed(Become(w, id, t), e, wanted)
  {
    var v := Become(w, id, t);
    if Captures(t, e) { assert v.tasks[id] == t; }
    if i :| i in w.tasks && Captures(w.tasks[i], e) { assert i in v.tasks && Captures(v.tasks[i], e); }
    if i :| i in w.tasks && Captures(w.tasks[i], e) && w.tasks[i].ask == Asked && w.tasks[i].wanted == wanted {
      assert i in v.tasks && v.tasks[i] == w.tasks[i];
    }
  }

  lemma UnqueueServes(w: World, r: DiffRequest, e: EventId, wanted: Wanted)
    ensures var v := w.(diffQueue := w.diffQueue - {r});
      && (Served(w, e) ==> Served(v, e))
      && (Handed(w, e, wanted) && !(r == DiffRequest(e, wanted, false) && r in w.diffQueue) ==> Handed(v, e, wanted))
  {
    var v := w.(diffQueue := w.diffQueue - {r});
    if i :| i in w.tasks && Captures(w.tasks[i], e) { assert Captures(v.tasks[i], e); }
    if i :| i in w.tasks && Captures(w.tasks[i], e) && w.tasks[i].ask == Asked && w.tasks[i].wanted == wanted {
      assert v.tasks[i] == w.tasks[i];
    }
  }

  lemma SweepServes(w: World, g: Guards, f: EventId, whole: bool, e: EventId, wanted: Wanted)
    ensures var v := Step(w, g, Sweep(f, whole));
      (Served(w, e) ==> Served(v, e)) && (Handed(w, e, wanted) ==> Handed(v, e, wanted))
  {
    var v := Step(w, g, Sweep(f, whole));
    assert v.tasks == w.tasks && v.store == w.store && v.finals == w.finals && v.diffQueue == w.diffQueue;
  }

  lemma StepServes(w: World, g: Guards, a: Action, e: EventId, wanted: Wanted)
    requires Flowing(w, e) && BackfillAction(a) && Flawless(w, a, e) && FreshTask(w, a)
    ensures var v := Step(w, g, a);
      && (Served(w, e) || TurnsTo(w, a, e) ==> Served(v, e))
      && (Handed(w, e, wanted) || AsksDiff(w, a, e, wanted) ==> Handed(v, e, wanted) || Takes(w, a, DiffRequest(e, wanted, false)))
  {
    NotSkippedNow(w, e);
    match a
    case BackfillObserved(id, f, asked) =>
      hide Flowing, StartCapture, Served, Handed;
      if !IsSkipped(w, f) && (HasCapture(w, f) || asked.capture) {
        var t := CaptureTask(f, Permanent, asked, AskFor(asked.diff), if HasCapture(w, f) then Indexing else Checking);
        StartFlows(w, g, id, t, e);
        BecomeServes(w, id, t, e, wanted);
      }
    case BackfillReconstructed(id, f) =>
      hide Flowing, StartCapture, Served, Handed;
      if !IsSkipped(w, f) {
        var t := CaptureTask(f, Permanent, Reconstructed(), NoDiff, if HasCapture(w, f) then Indexing else Checking);
        StartFlows(w, g, id, t, e);
        BecomeServes(w, id, t, e, wanted);
      }
    case Advance(id, c) =>
      hide Flowing, AdvanceTask, Flawless, Served, Handed;
      if id in w.tasks { AdvanceServes(w, g, id, c, e, wanted); }
    case Escalate(id) =>
      hide Flowing, Served, Handed;
      if id in w.tasks && MayEscalate(w.tasks[id]) { BecomeServes(w, id, w.tasks[id].(ask := Escalated), e, wanted); }
    case SpawnDiff(id, r) =>
      hide Flowing, Served, Handed;
      if id !in w.tasks && r in w.diffQueue {
        UnqueueServes(w, r, e, wanted);
        BecomeServes(w.(diffQueue := w.diffQueue - {r}), id, DiffTask(r.event, r.wanted, r.forced, DiffStarting), e, wanted);
      }
    case SpawnLineage(id, _, f) =>
      hide Flowing, Served, Handed;
      if id !in w.tasks { BecomeServes(w, id, LineageTask(f, LineageFetching), e, wanted); }
    case Sweep(f, whole) => SweepServes(w, g, f, whole, e, wanted);
  }

  lemma NotSkippedNow(w: World, e: EventId)
    requires Flowing(w, e)
    ensures !IsSkipped(w, e)
  {}

  // ----- whole backfills

  lemma StartFlowing(w: World, e: EventId)
    requires AfterCrash(w) && !IsSkipped(w, e)
    ensures Flowing(w, e)
  {}

  lemma LastStep(w: World, g: Guards, actions: seq<Action>, e: EventId)
    requires Backfill(w, g, actions) && FlawlessFor(w, g, actions, e) && actions != []
    ensures var p, last := actions[..|actions| - 1], actions[|actions| - 1];
      && Backfill(w, g, p) && FlawlessFor(w, g, p, e)
      && BackfillAction(last) && FreshTask(Run(w, g, p), last) && Flawless(Run(w, g, p), last, e)
  {
    hide Run, Flawless, FreshTask, Reliable;
    BackfillPrefix(w, g, actions);
    var p := actions[..|actions| - 1];
    forall n | 0 <= n < |p| ensures Flawless(Run(w, g, p[..n]), p[n], e) {
      assert p[..n] == actions[..n] && p[n] == actions[n];
    }
  }

  lemma TurnedSnoc(w: World, g: Guards, actions: seq<Action>, e: EventId)
    requires actions != [] && TurnedTo(w, g, actions, e)
    ensures var p, last := actions[..|actions| - 1], actions[|actions| - 1];
      TurnedTo(w, g, p, e) || TurnsTo(Run(w, g, p), last, e)
  {
    hide Run, TurnsTo;
    var n :| 0 <= n < |actions| && TurnsTo(Run(w, g, actions[..n]), actions[n], e);
    var p := actions[..|actions| - 1];
    if n < |p| { assert p[..n] == actions[..n] && p[n] == actions[n]; }
  }

  lemma NothingTurned(w: World, g: Guards, e: EventId)
    ensures !TurnedTo(w, g, [], e)
  {}

  lemma {:induction false} BackfillFlows(w: World, g: Guards, actions: seq<Action>, e: EventId)
    requires AfterCrash(w) && !IsSkipped(w, e) && Backfill(w, g, actions) && FlawlessFor(w, g, actions, e)
    ensures Flowing(Run(w, g, actions), e)
    ensures TurnedTo(w, g, actions, e) ==> Served(Run(w, g, actions), e)
  {
    hide Flowing, Served, TurnedTo, TurnsTo, Step, Backfill, FlawlessFor, Flawless, FreshTask;
    if actions == [] {
      StartFlowing(w, e);
      NothingTurned(w, g, e);
    } else {
      var p, last := actions[..|actions| - 1], actions[|actions| - 1];
      LastStep(w, g, actions, e);
      BackfillFlows(w, g, p, e);
      StepFlows(Run(w, g, p), g, last, e);
      StepServes(Run(w, g, p), g, last, e, Reconstructed());
      if TurnedTo(w, g, actions, e) { TurnedSnoc(w, g, actions, e); }
    }
  }

  /** Whatever state a crash leaves: when no capture of an event that is not skipped fails, a
      drained backfill that turned to it leaves it ready, with its file. */
  lemma BackfillReadies(w: World, g: Guards, actions: seq<Action>, e: EventId)
    requires AfterCrash(w) && !IsSkipped(w, e) && Backfill(w, g, actions) && FlawlessFor(w, g, actions, e)
    requires TurnedTo(w, g, actions, e) && Drained(Run(w, g, actions))
    ensures var v := Run(w, g, actions); e in v.store && v.store[e].capture == Ready && HasCapture(v, e)
  {
    hide Flowing, TurnedTo, Backfill, FlawlessFor, Run;
    BackfillFlows(w, g, actions, e);
  }

  /** The diff worker took up a request in this run. */
  ghost predicate TakenIn(w: World, g: Guards, actions: seq<Action>, r: DiffRequest) {
    exists n :: 0 <= n < |actions| && Takes(Run(w, g, actions[..n]), actions[n], r)
  }

  ghost predicate DiffAsked(w: World, g: Guards, actions: seq<Action>, e: EventId, wanted: Wanted) {
    exists n :: 0 <= n < |actions| && AsksDiff(Run(w, g, actions[..n]), actions[n], e, wanted)
  }

  lemma AskedSnoc(w: World, g: Guards, actions: seq<Action>, e: EventId, wanted: Wanted)
    requires actions != []
    ensures var p, last := actions[..|actions| - 1], actions[|actions| - 1];
      && (DiffAsked(w, g, actions, e, wanted) ==> DiffAsked(w, g, p, e, wanted) || AsksDiff(Run(w, g, p), last, e, wanted))
      && var r := DiffRequest(e, wanted, false);
      TakenIn(w, g, p, r) || Takes(Run(w, g, p), last, r) ==> TakenIn(w, g, actions, r)
  {
    hide Run, AsksDiff, Takes;
    var last := |actions| - 1;
    var p, r := actions[..last], DiffRequest(e, wanted, false);
    if n :| 0 <= n < |actions| && AsksDiff(Run(w, g, actions[..n]), actions[n], e, wanted) {
      if n < last { assert p[..n] == actions[..n] && p[n] == actions[n]; }
    }
    if n :| 0 <= n < last && Takes(Run(w, g, p[..n]), p[n], r) { assert p[..n] == actions[..n] && p[n] == actions[n]; }
  }

  lemma NothingAsked(w: World, g: Guards, e: EventId, wanted: Wanted)
    ensures !DiffAsked(w, g, [], e, wanted)
  {}

  lemma {:induction false} BackfillHands(w: World, g: Guards, actions: seq<Action>, e: EventId, wanted: Wanted)
    requires AfterCrash(w) && !IsSkipped(w, e) && Backfill(w, g, actions) && FlawlessFor(w, g, actions, e)
    ensures DiffAsked(w, g, actions, e, wanted) ==>
      Handed(Run(w, g, actions), e, wanted) || TakenIn(w, g, actions, DiffRequest(e, wanted, false))
  {
    hide Flowing, Served, Handed, DiffAsked, TakenIn, AsksDiff, Takes, TurnsTo, Step, Backfill, FlawlessFor, Flawless, FreshTask;
    if actions == [] {
      NothingAsked(w, g, e, wanted);
    } else {
      var p, last := actions[..|actions| - 1], actions[|actions| - 1];
      LastStep(w, g, actions, e);
      BackfillFlows(w, g, p, e);
      BackfillHands(w, g, p, e, wanted);
      StepServes(Run(w, g, p), g, last, e, wanted);
      AskedSnoc(w, g, actions, e, wanted);
    }
  }

  /** And when the ledger says that its diff is wanted, the request has been handed over: it
      waits in the queue, or the diff worker has taken it up. */
  lemma BackfillAsksForDiffs(w: World, g: Guards, actions: seq<Action>, e: EventId, wanted: Wanted)
    requires AfterCrash(w) && !IsSkipped(w, e) && Backfill(w, g, actions) && FlawlessFor(w, g, actions, e)
    requires DiffAsked(w, g, actions, e, wanted) && Drained(Run(w, g, actions))
    ensures DiffRequest(e, wanted, false) in Run(w, g, actions).diffQueue || TakenIn(w, g, actions, DiffRequest(e, wanted, false))
  {
    hide DiffAsked, TakenIn, Backfill, FlawlessFor, Run;
    BackfillHands(w, g, actions, e, wanted);
  }
}
