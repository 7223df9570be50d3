/**
 How tasks end. A task that is the only one for its event, and none of whose effects fails,
 ends with the row, the files and the diff request it was started for, whatever the tasks of
 other events do in between.
 */
module CaptureOutcomes {
  import opened CaptureLifecycle

  // ----- other events

  ghost predicate Over(w: World, e: EventId) { forall i :: i in w.tasks ==> w.tasks[i].event != e }

  ghost predicate Only(w: World, e: EventId, id: TaskId) { forall i :: i in w.tasks && w.tasks[i].event == e ==> i == id }

  /** An action that concerns another event; a crash concerns all. */
  ghost predicate Elsewhere(w: World, a: Action, e: EventId) {
    match a
    case Advance(i, _) => i in w.tasks ==> w.tasks[i].event != e
    case Escalate(i) => i in w.tasks ==> w.tasks[i].event != e
    case SpawnDiff(_, r) => r.event != e
    case Crash => false
    case _ => a.event != e
  }

  lemma SameAfter(w: World, v: World, e: EventId)
    requires w == v
    ensures SameDisk(w, v, e) && SameTasks(w, v, e)
  {}

  lemma BecomesElsewhere(w: World, id: TaskId, t: Task, e: EventId)
    requires t.event != e && (id in w.tasks ==> w.tasks[id].event != e)
    ensures SameDisk(w, Become(w, id, t), e) && SameTasks(w, Become(w, id, t), e)
  {}

  lemma StoredElsewhere(w: World, f: EventId, row: Row, e: EventId)
    requires f != e
    ensures var v := w.(store := w.store[f := row]); SameDisk(w, v, e) && SameTasks(w, v, e)
  {}

  lemma SweptElsewhere(w: World, f: EventId, c: Choice, e: EventId)
    requires f != e
    ensures SameDisk(w, RemoveStaging(w, f, c), e) && SameTasks(w, RemoveStaging(w, f, c), e)
  {}

  lemma AdvancedElsewhere(w: World, g: Guards, id: TaskId, c: Choice, e: EventId)
    requires id in w.tasks && w.tasks[id].event != e
    ensures SameDisk(w, AdvanceTask(w, g, id, c), e) && SameTasks(w, AdvanceTask(w, g, id, c), e)
  {
    hide AdvanceTask, OneMoved, SameDisk;
    TaskSteps(w, g, e, id, c);
    MovedOthersStay(w, AdvanceTask(w, g, id, c), id);
  }

  lemma ElsewhereStays(w: World, g: Guards, a: Action, e: EventId)
    requires Elsewhere(w, a, e)
    ensures SameDisk(w, Step(w, g, a), e) && SameTasks(w, Step(w, g, a), e)
  {
    SameAfter(w, w, e);
    hide SameDisk, SameTasks, AdvanceTask, Become, MayStart, RemoveStaging, Upserted, SweepLeavesAlone;
    match a
    case Observe(f, wanted) => StoredElsewhere(w, f, Upserted(w, f, wanted), e);
    case Triage(f) => if f in w.store { StoredElsewhere(w, f, w.store[f].(capture := Skipped), e); }
    case Reconcile(f, wanted) => StoredElsewhere(w, f, Reconciled(w, f, wanted).store[f], e);
    case Sweep(f, whole) => SweptElsewhere(w, f, if whole then Go else Other, e);
    case Spawn(id, f, r, wanted, notify) => StartsElsewhere(w, g, id, CaptureTask(f, r, wanted, AskFor(notify), Checking), e);
    case BackfillObserved(id, f, wanted) =>
      StartsElsewhere(w, g, id, CaptureTask(f, Permanent, wanted, AskFor(wanted.diff), Indexing), e);
      StartsElsewhere(w, g, id, CaptureTask(f, Permanent, wanted, AskFor(wanted.diff), Checking), e);
    case BackfillReconstructed(id, f) =>
      StartsElsewhere(w, g, id, CaptureTask(f, Permanent, Reconstructed(), NoDiff, Indexing), e);
      StartsElsewhere(w, g, id, CaptureTask(f, Permanent, Reconstructed(), NoDiff, Checking), e);
    case SpawnDiff(id, r) => if id !in w.tasks { DiffStartsElsewhere(w, id, r, e); }
    case SpawnLineage(id, _, f) => if id !in w.tasks { BecomesElsewhere(w, id, LineageTask(f, LineageFetching), e); }
    case Advance(id, c) => if id in w.tasks { AdvancedElsewhere(w, g, id, c, e); }
    case Escalate(id) =>
      if id in w.tasks && MayEscalate(w.tasks[id]) { BecomesElsewhere(w, id, w.tasks[id].(ask := Escalated), e); }
  }

  lemma StartsElsewhere(w: World, g: Guards, id: TaskId, t: Task, e: EventId)
    requires t.event != e
    ensures SameDisk(w, StartCapture(w, g, id, t), e) && SameTasks(w, StartCapture(w, g, id, t), e)
  {
    SameAfter(w, w, e);
    hide SameDisk, SameTasks, Become, MayStart;
    if id !in w.tasks { BecomesElsewhere(w, id, t, e); }
  }

  lemma DiffStartsElsewhere(w: World, id: TaskId, r: DiffRequest, e: EventId)
    requires r.event != e && id !in w.tasks
    ensures var v := Become(w.(diffQueue := w.diffQueue - {r}), id, DiffTask(r.event, r.wanted, r.forced, DiffStarting));
      SameDisk(w, v, e) && SameTasks(w, v, e)
  {}

  // ----- a task on its own

  /** The choices with which no effect fails. Directories that only have to go may stay. The
      decision on a capture nobody asked a diff for is to drop it or not. */
  predicate Smooth(t: Task, c: Choice, drop: bool) {
    if t.CaptureTask? then
      if t.phase in {Checking, CleaningStaging, DroppingStaging} then true
      else if t.phase == Deciding then c == if drop then Other else Go
      else if t.phase in {WritingCapture, PostWriting, IndexRecording, RecordingFinal} then c == Go
      else c != Fail
    else if t.DiffTask? then
      if t.diffPhase in {DiffBuilding, DiffWriting, ProvenanceWriting} then c == Go else c != Fail
    else c == Go
  }

  /** The steps of the task `id` of `e` are smooth, and all else happens elsewhere. */
  ghost predicate Undisturbed(w: World, g: Guards, id: TaskId, e: EventId, actions: seq<Action>, drop: bool) {
    forall n :: 0 <= n < |actions| ==> Allowed(Run(w, g, actions[..n]), id, e, actions[n], drop)
  }

  ghost predicate Own(w: World, id: TaskId, e: EventId) { id in w.tasks && w.tasks[id].event == e }

  ghost predicate Allowed(w: World, id: TaskId, e: EventId, a: Action, drop: bool) {
    || Elsewhere(w, a, e)
    || (a.Advance? && a.id == id && (Own(w, id, e) ==> Smooth(w.tasks[id], a.choice, drop)))
    || a == Action.Escalate(id)
  }

  /** The analysis called for a diff at some point. */
  ghost predicate EscalatedIn(w: World, g: Guards, id: TaskId, e: EventId, actions: seq<Action>) {
    exists n :: 0 <= n < |actions| && Escalates(Run(w, g, actions[..n]), id, e, actions[n])
  }

  ghost predicate Escalates(w: World, id: TaskId, e: EventId, a: Action) {
    a == Action.Escalate(id) && Own(w, id, e) && MayEscalate(w.tasks[id])
  }

  function Steps(actions: seq<Action>, id: TaskId): nat {
    if actions == [] then 0
    else Steps(actions[..|actions| - 1], id) + if actions[|actions| - 1].Advance? && actions[|actions| - 1].id == id then 1 else 0
  }

  /** Nothing has happened to the task yet. */
  ghost predicate Started(w: World, id: TaskId, t: Task) {
    && id in w.tasks && w.tasks[id] == t && Only(w, t.event, id)
    && match t
       case CaptureTask(e, _, _, ask, phase) => ask != Escalated && (phase == Checking || (phase == Indexing && HasCapture(w, e)))
       case DiffTask(e, _, _, phase) => phase == DiffStarting && HasCapture(w, e)
       case LineageTask(_, phase) => phase == LineageFetching
  }

  // ----- how it ends

  /** What storing an event makes of the diff: undecided ones are decided as it asks. */
  function DiffOf(w: World, e: EventId, wanted: Wanted): JobState {
    if e in w.store && w.store[e].diff != Pending then w.store[e].diff else if wanted.diff then Pending else Skipped
  }

  /** Ready, with the file. */
  predicate CaptureReady(v: World, e: EventId) { e in v.store && v.store[e].capture == Ready && HasCapture(v, e) }

  predicate DiffReady(v: World, e: EventId) { e in v.store && v.store[e].diff == Ready && HasDiff(v, e) }

  /** A capture that found no `capture.json` is dropped when it is ephemeral, nobody asks for
      a diff, and the analysis does not keep it. Any other ends ready, and hands over the
      request for a diff if there is one. */
  predicate IsDropped(w: World, t: Task, ask: Ask, drop: bool)
    requires t.CaptureTask?
  {
    t.retention == Ephemeral && !HasCapture(w, t.event) && ask == NoDiff && drop
  }

  ghost predicate End(w: World, v: World, t: Task, ask: Ask, drop: bool) {
    var e := t.event;
    match t
    case CaptureTask(_, _, wanted, _, _) =>
      if IsDropped(w, t, ask, drop) then
        SkippedSince(w, v, e) && !HasCapture(v, e)
      else
        && CaptureReady(v, e) && v.store[e].diff == DiffOf(w, e, wanted)
        && (t.retention == Ephemeral && !HasCapture(w, e) ==> e !in v.staging)
        && (ask != NoDiff ==> DiffRequest(e, wanted, ask == Escalated) in v.diffQueue)
    case DiffTask(_, wanted, forced, _) =>
      if wanted.diff || forced then DiffReady(v, e) && HasCapture(v, e) && (CaptureReady(w, e) ==> CaptureReady(v, e))
      else (e in v.store <==> e in w.store) && (e in w.store ==> v.store[e] == w.store[e].(diff := Skipped))
    case LineageTask(_, _) => CaptureReady(v, e) && v.store[e].diff == DiffOf(w, e, Reconstructed())
  }

  // ----- on the way

  predicate StoreSame(w: World, v: World, e: EventId) {
    (e in w.store <==> e in v.store) && (e in w.store ==> v.store[e] == w.store[e])
  }

  /** The row as it was, or as a first record of the capture left it. */
  predicate RowSoFar(w: World, v: World, e: EventId, wanted: Wanted) {
    StoreSame(w, v, e) || (e in v.store && v.store[e].capture == Ready && v.store[e].diff == DiffOf(w, e, wanted))
  }

  /** Neither then nor now. */
  predicate Absent(w: World, v: World, e: EventId) { !HasCapture(v, e) && !HasCapture(w, e) }

  predicate InStaging(v: World, e: EventId) { e in v.staging && v.staging[e] }

  predicate SkippedSince(w: World, v: World, e: EventId) {
    (e in v.store <==> e in w.store) && (e in w.store ==> v.store[e] == w.store[e].(capture := Skipped))
  }

  predicate CaptureFacts(w: World, v: World, t: Task, drop: bool)
    requires t.CaptureTask?
  {
    var e, inPlace := t.event, t.retention == Permanent;
    var kept := t.ask != NoDiff || !drop;
    match t.phase
    case Checking => StoreSame(w, v, e) && (HasCapture(v, e) <==> HasCapture(w, e))
    case Indexing => StoreSame(w, v, e) && HasCapture(v, e) && HasCapture(w, e)
    case IndexRecording => StoreSame(w, v, e) && HasCapture(v, e) && HasCapture(w, e)
    case CleaningStaging => StoreSame(w, v, e) && Absent(w, v, e) && !inPlace
    case MakingDir => StoreSame(w, v, e) && Absent(w, v, e)
    case Fetching => StoreSame(w, v, e) && (if inPlace then e in v.finals else Absent(w, v, e) && e in v.staging)
    case WritingCapture => StoreSame(w, v, e) && (if inPlace then e in v.finals else Absent(w, v, e) && e in v.staging)
    case RecordingEarly => StoreSame(w, v, e) && inPlace && HasCapture(v, e)
    case PostWriting => if inPlace then RowSoFar(w, v, e, t.wanted) && HasCapture(v, e) else StoreSame(w, v, e) && Absent(w, v, e) && InStaging(v, e)
    case Deciding => if inPlace then RowSoFar(w, v, e, t.wanted) && HasCapture(v, e) else StoreSame(w, v, e) && Absent(w, v, e) && InStaging(v, e)
    case RemovingFinal => StoreSame(w, v, e) && !inPlace && kept && InStaging(v, e)
    case Renaming => StoreSame(w, v, e) && !inPlace && kept && InStaging(v, e) && !HasCapture(v, e) && !HasDiff(v, e)
    case RecordingFinal => RowSoFar(w, v, e, t.wanted) && HasCapture(v, e) && (inPlace || (kept && e !in v.staging))
    case MarkingSkipped => StoreSame(w, v, e) && Absent(w, v, e) && !inPlace && !kept
    case DroppingStaging => SkippedSince(w, v, e) && Absent(w, v, e) && !inPlace && !kept
    case MarkingFailed => false
  }

  predicate DiffFacts(w: World, v: World, t: Task)
    requires t.DiffTask?
  {
    var e := t.event;
    HasCapture(v, e) && (CaptureReady(w, e) ==> CaptureReady(v, e)) &&
    match t.diffPhase
    case DiffStarting => StoreSame(w, v, e)
    case DiffMarkingFailed => false
    case DiffRecording => (t.wanted.diff || t.forced) && HasDiff(v, e)
    case _ => t.wanted.diff || t.forced
  }

  predicate LineageFacts(w: World, v: World, t: Task)
    requires t.LineageTask?
  {
    var e := t.event;
    var stored := e in v.store && v.store[e].diff == DiffOf(w, e, Reconstructed());
    match t.lineagePhase
    case LineageFetching => StoreSame(w, v, e)
    case LineageRecordingEvent => StoreSame(w, v, e)
    case LineageMakingDir => stored
    case LineageWriting => stored && e in v.finals
    case LineageRecording => stored && HasCapture(v, e)
  }

  predicate Facts(w: World, v: World, t: Task, drop: bool) {
    match t
    case CaptureTask(_, _, _, _, _) => CaptureFacts(w, v, t, drop)
    case DiffTask(_, _, _, _) => DiffFacts(w, v, t)
    case LineageTask(_, _) => LineageFacts(w, v, t)
  }

  /** The same task, however far it has got. */
  predicate SameTask(t: Task, u: Task, ask: Ask) {
    match t
    case CaptureTask(e, r, wanted, _, _) => u.CaptureTask? && u.event == e && u.retention == r && u.wanted == wanted && u.ask == ask
    case DiffTask(e, wanted, forced, _) => u.DiffTask? && u.event == e && u.wanted == wanted && u.forced == forced
    case LineageTask(e, _) => u.LineageTask? && u.event == e
  }

  /** How many steps the task has left at most. */
  function Left(t: Task): nat {
    match t
    case CaptureTask(_, _, _, _, p) =>
      if p == Checking then 12 else if p == CleaningStaging then 11 else if p == MakingDir then 10 else if p == Fetching then 9
      else if p == WritingCapture then 8 else if p == RecordingEarly then 7 else if p == PostWriting then 6 else if p == Deciding then 5
      else if p == RemovingFinal then 4 else if p == Renaming then 3 else if p in {MarkingSkipped, Indexing} then 2 else 1
    case DiffTask(_, _, _, p) =>
      if p == DiffStarting then 8 else if p == DiffMakingDir then 7 else if p == DiffBuilding then 6 else if p == ProvenanceLoading then 5
      else if p == ProvenanceWriting then 4 else if p == ProvenanceRecording then 3 else if p == DiffWriting then 2 else 1
    case LineageTask(_, p) =>
      if p == LineageFetching then 5 else if p == LineageRecordingEvent then 4 else if p == LineageMakingDir then 3
      else if p == LineageWriting then 2 else 1
  }

  ghost predicate On(w: World, v: World, id: TaskId, t: Task, ask: Ask, drop: bool) {
    && id in v.tasks && Only(v, t.event, id)
    && SameTask(t, v.tasks[id], ask) && Facts(w, v, v.tasks[id], drop)
  }

  ghost predicate Ended(w: World, v: World, t: Task, ask: Ask, drop: bool) { Over(v, t.event) && End(w, v, t, ask, drop) }

  /** What a step of the task leads to. */
  ghost predicate Moved(w: World, v: World, v': World, id: TaskId, t: Task, ask: Ask, drop: bool)
    requires id in v.tasks
  {
    if id in v'.tasks then SameTask(t, v'.tasks[id], ask) && Facts(w, v', v'.tasks[id], drop) && Left(v'.tasks[id]) < Left(v.tasks[id])
    else End(w, v', t, ask, drop)
  }

  /** The same task on the same footing, before one more step. */
  ghost predicate Going(w: World, v: World, id: TaskId, t: Task, ask: Ask, drop: bool, c: Choice) {
    && id in v.tasks && SameTask(t, v.tasks[id], ask) && Facts(w, v, v.tasks[id], drop)
    && Smooth(v.tasks[id], c, drop)
  }

  lemma IndexMoves(w: World, v: World, id: TaskId, t: Task, ask: Ask, drop: bool, c: Choice)
    requires Going(w, v, id, t, ask, drop, c) && t.CaptureTask? && v.tasks[id].phase in {Checking, Indexing, IndexRecording, CleaningStaging}
    ensures Moved(w, v, AdvanceFetch(v, id, v.tasks[id], c), id, t, ask, drop)
  {}

  lemma StageMoves(w: World, v: World, id: TaskId, t: Task, ask: Ask, drop: bool, c: Choice)
    requires Going(w, v, id, t, ask, drop, c) && t.CaptureTask? && v.tasks[id].phase in {MakingDir, Fetching}
    ensures Moved(w, v, AdvanceFetch(v, id, v.tasks[id], c), id, t, ask, drop)
  {}

  lemma WriteMoves(w: World, v: World, id: TaskId, t: Task, ask: Ask, drop: bool, c: Choice)
    requires Going(w, v, id, t, ask, drop, c) && t.CaptureTask? && v.tasks[id].phase in {WritingCapture, RecordingEarly}
    ensures Moved(w, v, AdvanceFetch(v, id, v.tasks[id], c), id, t, ask, drop)
  {}

  lemma RewriteMoves(w: World, v: World, id: TaskId, t: Task, ask: Ask, drop: bool, c: Choice)
    requires Going(w, v, id, t, ask, drop, c) && t.CaptureTask? && v.tasks[id].phase == PostWriting
    ensures Moved(w, v, AdvancePost(v, id, v.tasks[id], c), id, t, ask, drop)
  {}

  lemma DecideMoves(w: World, v: World, id: TaskId, t: Task, ask: Ask, drop: bool, c: Choice)
    requires Going(w, v, id, t, ask, drop, c) && t.CaptureTask? && v.tasks[id].phase == Deciding
    ensures Moved(w, v, AdvancePost(v, id, v.tasks[id], c), id, t, ask, drop)
  {}

  lemma DropMoves(w: World, v: World, id: TaskId, t: Task, ask: Ask, drop: bool, c: Choice)
    requires Going(w, v, id, t, ask, drop, c) && t.CaptureTask? && v.tasks[id].phase in {MarkingSkipped, DroppingStaging}
    ensures Moved(w, v, AdvancePost(v, id, v.tasks[id], c), id, t, ask, drop)
  {}

  lemma ClearMoves(w: World, v: World, id: TaskId, t: Task, ask: Ask, drop: bool, c: Choice)
    requires Going(w, v, id, t, ask, drop, c) && t.CaptureTask? && v.tasks[id].phase == RemovingFinal
    ensures Moved(w, v, AdvancePost(v, id, v.tasks[id], c), id, t, ask, drop)
  {}

  lemma RenameMoves(w: World, v: World, id: TaskId, t: Task, ask: Ask, drop: bool, c: Choice)
    requires Going(w, v, id, t, ask, drop, c) && t.CaptureTask? && v.tasks[id].phase == Renaming
    ensures Moved(w, v, AdvancePost(v, id, v.tasks[id], c), id, t, ask, drop)
  {}

  lemma RecordMoves(w: World, v: World, id: TaskId, t: Task, ask: Ask, drop: bool, c: Choice)
    requires Going(w, v, id, t, ask, drop, c) && t.CaptureTask? && v.tasks[id].phase == RecordingFinal
    ensures Moved(w, v, AdvancePost(v, id, v.tasks[id], c), id, t, ask, drop)
  {}

  lemma DiffBuildMoves(w: World, v: World, id: TaskId, t: Task, ask: Ask, drop: bool, c: Choice)
    requires Going(w, v, id, t, ask, drop, c) && t.DiffTask?
    requires v.tasks[id].diffPhase in {DiffStarting, DiffMakingDir, DiffBuilding, ProvenanceLoading}
    ensures Moved(w, v, AdvanceDiff(v, id, v.tasks[id], c), id, t, ask, drop)
  {}

  lemma DiffWriteMoves(w: World, v: World, id: TaskId, t: Task, ask: Ask, drop: bool, c: Choice)
    requires Going(w, v, id, t, ask, drop, c) && t.DiffTask?
    requires v.tasks[id].diffPhase in {ProvenanceWriting, ProvenanceRecording, DiffWriting, DiffRecording}
    ensures Moved(w, v, AdvanceDiff(v, id, v.tasks[id], c), id, t, ask, drop)
  {}

  lemma LineageStartMoves(w: World, v: World, g: Guards, id: TaskId, t: Task, ask: Ask, drop: bool, c: Choice)
    requires Going(w, v, id, t, ask, drop, c) && t.LineageTask? && MayPersist(v, g, t.event)
    requires v.tasks[id].lineagePhase in {LineageFetching, LineageRecordingEvent, LineageMakingDir}
    ensures Moved(w, v, AdvanceLineage(v, g, id, v.tasks[id], c), id, t, ask, drop)
  {
    hide MayPersist;
  }

  lemma LineageWriteMoves(w: World, v: World, g: Guards, id: TaskId, t: Task, ask: Ask, drop: bool, c: Choice)
    requires Going(w, v, id, t, ask, drop, c) && t.LineageTask?
    requires v.tasks[id].lineagePhase in {LineageWriting, LineageRecording}
    ensures Moved(w, v, AdvanceLineage(v, g, id, v.tasks[id], c), id, t, ask, drop)
  {
    hide MayPersist;
  }

  lemma NotFailing(w: World, v: World, t: Task, drop: bool)
    requires Facts(w, v, t, drop)
    ensures t.CaptureTask? ==> t.phase != MarkingFailed
    ensures t.DiffTask? ==> t.diffPhase != DiffMarkingFailed
  {}

  lemma TaskMoves(w: World, v: World, g: Guards, id: TaskId, t: Task, ask: Ask, drop: bool, c: Choice)
    requires Going(w, v, id, t, ask, drop, c) && (t.LineageTask? ==> MayPersist(v, g, t.event))
    ensures Moved(w, v, AdvanceTask(v, g, id, c), id, t, ask, drop)
  {
    NotFailing(w, v, v.tasks[id], drop);
    hide Facts, Smooth, Moved, AdvanceFetch, AdvancePost, AdvanceDiff, AdvanceLineage, MayPersist;
    var u := v.tasks[id];
    if u.LineageTask? {
      if u.lineagePhase in {LineageWriting, LineageRecording} {
        LineageWriteMoves(w, v, g, id, t, ask, drop, c);
      } else {
        LineageStartMoves(w, v, g, id, t, ask, drop, c);
      }
    } else if u.DiffTask? {
      if u.diffPhase in {DiffStarting, DiffMakingDir, DiffBuilding, ProvenanceLoading} {
        DiffBuildMoves(w, v, id, t, ask, drop, c);
      } else {
        DiffWriteMoves(w, v, id, t, ask, drop, c);
      }
    } else if u.phase in {Checking, Indexing, IndexRecording, CleaningStaging} {
      IndexMoves(w, v, id, t, ask, drop, c);
    } else if u.phase in {MakingDir, Fetching} {
      StageMoves(w, v, id, t, ask, drop, c);
    } else if u.phase in {WritingCapture, RecordingEarly} {
      WriteMoves(w, v, id, t, ask, drop, c);
    } else if u.phase == PostWriting {
      RewriteMoves(w, v, id, t, ask, drop, c);
    } else if u.phase == Deciding {
      DecideMoves(w, v, id, t, ask, drop, c);
    } else if u.phase in {MarkingSkipped, DroppingStaging} {
      DropMoves(w, v, id, t, ask, drop, c);
    } else if u.phase == RecordingFinal {
      RecordMoves(w, v, id, t, ask, drop, c);
    } else if u.phase == RemovingFinal {
      ClearMoves(w, v, id, t, ask, drop, c);
    } else {
      RenameMoves(w, v, id, t, ask, drop, c);
    }
  }

  lemma StepGoes(w: World, v: World, g: Guards, id: TaskId, t: Task, ask: Ask, drop: bool, c: Choice)
    requires On(w, v, id, t, ask, drop) && Smooth(v.tasks[id], c, drop)
    ensures var v' := AdvanceTask(v, g, id, c);
      if id in v'.tasks then On(w, v', id, t, ask, drop) && Left(v'.tasks[id]) < Left(v.tasks[id])
      else Ended(w, v', t, ask, drop)
  {
    LineageAlone(v, g, id, t, ask);
    hide Facts, Smooth, AdvanceTask, End, Left, MayPersist, OneMoved, SameDisk;
    TaskMoves(w, v, g, id, t, ask, drop, c);
    TaskSteps(v, g, t.event, id, c);
    MovedOthersStay(v, AdvanceTask(v, g, id, c), id);
  }

  lemma LineageAlone(v: World, g: Guards, id: TaskId, t: Task, ask: Ask)
    requires id in v.tasks && Only(v, t.event, id) && SameTask(t, v.tasks[id], ask)
    ensures t.LineageTask? ==> MayPersist(v, g, t.event)
  {}

  lemma FactsStay(w: World, v: World, v': World, t: Task, drop: bool)
    requires Facts(w, v, t, drop) && SameDisk(v, v', t.event)
    ensures Facts(w, v', t, drop)
  {}

  lemma EndStays(w: World, v: World, v': World, t: Task, ask: Ask, drop: bool)
    requires End(w, v, t, ask, drop) && SameDisk(v, v', t.event)
    ensures End(w, v', t, ask, drop)
  {}

  lemma OnStays(w: World, v: World, v': World, id: TaskId, t: Task, ask: Ask, drop: bool)
    requires On(w, v, id, t, ask, drop) && SameDisk(v, v', t.event) && SameTasks(v, v', t.event)
    ensures On(w, v', id, t, ask, drop) && v'.tasks[id] == v.tasks[id]
  {
    hide Facts, SameDisk;
    FactsStay(w, v, v', v.tasks[id], drop);
  }

  lemma EndedStays(w: World, v: World, v': World, t: Task, ask: Ask, drop: bool)
    requires Ended(w, v, t, ask, drop) && SameDisk(v, v', t.event) && SameTasks(v, v', t.event)
    ensures Ended(w, v', t, ask, drop)
  {
    hide End, SameDisk;
    EndStays(w, v, v', t, ask, drop);
  }

  lemma EscalateGoes(w: World, v: World, g: Guards, id: TaskId, t: Task, ask: Ask, drop: bool)
    requires On(w, v, id, t, ask, drop) && MayEscalate(v.tasks[id])
    ensures var v' := Step(v, g, Action.Escalate(id)); On(w, v', id, t, Escalated, drop) && Left(v'.tasks[id]) == Left(v.tasks[id])
  {}

  // ----- whole runs

  function AskOf(t: Task): Ask { if t.CaptureTask? then t.ask else NoDiff }

  /** What the task asks for in the end. */
  ghost function AskIn(w: World, g: Guards, id: TaskId, t: Task, actions: seq<Action>): Ask {
    if EscalatedIn(w, g, id, t.event, actions) then Escalated else AskOf(t)
  }

  ghost predicate Progress(w: World, v: World, id: TaskId, t: Task, ask: Ask, drop: bool, steps: nat) {
    (On(w, v, id, t, ask, drop) && Left(v.tasks[id]) + steps <= 12) || Ended(w, v, t, ask, drop)
  }

  lemma StartsOn(w: World, id: TaskId, t: Task, drop: bool)
    requires Started(w, id, t)
    ensures On(w, w, id, t, AskOf(t), drop) && Left(t) <= 12
  {}

  lemma UndisturbedPrefix(w: World, g: Guards, id: TaskId, e: EventId, actions: seq<Action>, drop: bool)
    requires Undisturbed(w, g, id, e, actions, drop) && actions != []
    ensures Undisturbed(w, g, id, e, actions[..|actions| - 1], drop)
    ensures Allowed(Run(w, g, actions[..|actions| - 1]), id, e, actions[|actions| - 1], drop)
  {
    hide Run, Allowed;
    var p := actions[..|actions| - 1];
    forall n | 0 <= n < |p| ensures Allowed(Run(w, g, p[..n]), id, e, p[n], drop) {
      assert p[..n] == actions[..n] && p[n] == actions[n];
    }
  }

  lemma EscalatedSnoc(w: World, g: Guards, id: TaskId, e: EventId, actions: seq<Action>)
    requires actions != []
    ensures var p, last := actions[..|actions| - 1], actions[|actions| - 1];
      EscalatedIn(w, g, id, e, actions) <==> EscalatedIn(w, g, id, e, p) || Escalates(Run(w, g, p), id, e, last)
  {
    hide Run, Escalates;
    var n := |actions| - 1;
    var p := actions[..n];
    if k :| 0 <= k < |actions| && Escalates(Run(w, g, actions[..k]), id, e, actions[k]) {
      if k < n { assert p[..k] == actions[..k] && p[k] == actions[k]; }
    }
    if k :| 0 <= k < n && Escalates(Run(w, g, p[..k]), id, e, p[k]) {
      assert p[..k] == actions[..k] && p[k] == actions[k];
    }
  }

  /** One more action of an undisturbed run. */
  lemma ActionGoes(w: World, v: World, g: Guards, id: TaskId, t: Task, ask: Ask, drop: bool, steps: nat, a: Action)
    requires Progress(w, v, id, t, ask, drop, steps) && Allowed(v, id, t.event, a, drop)
    ensures Progress(w, Step(v, g, a), id, t, if Escalates(v, id, t.event, a) then Escalated else ask, drop,
                     steps + if a.Advance? && a.id == id then 1 else 0)
  {
    OnIsOwn(w, v, id, t, ask, drop);
    if Elsewhere(v, a, t.event) {
      ElsewhereAdvances(v, a, id, t.event);
      hide On, Ended, Step, Left, Elsewhere, SameDisk, SameTasks;
      ElsewhereStays(v, g, a, t.event);
      if On(w, v, id, t, ask, drop) { OnStays(w, v, Step(v, g, a), id, t, ask, drop); } else { EndedStays(w, v, Step(v, g, a), t, ask, drop); }
    } else if a.Advance? {
      hide On, Ended, Left, Smooth, AdvanceTask;
      StepGoes(w, v, g, id, t, ask, drop, a.choice);
    } else {
      hide On, Ended, Left, Smooth, AdvanceTask;
      if MayEscalate(v.tasks[id]) { EscalateGoes(w, v, g, id, t, ask, drop); }
    }
  }

  lemma OnIsOwn(w: World, v: World, id: TaskId, t: Task, ask: Ask, drop: bool)
    ensures On(w, v, id, t, ask, drop) ==> Own(v, id, t.event)
    ensures Ended(w, v, t, ask, drop) ==> Over(v, t.event)
  {}

  /** A task of the event itself is not elsewhere. */
  lemma ElsewhereAdvances(v: World, a: Action, id: TaskId, e: EventId)
    requires Elsewhere(v, a, e)
    ensures !Escalates(v, id, e, a)
    ensures Own(v, id, e) && a.Advance? ==> a.id != id
  {}

  lemma {:induction false} RunGoes(w: World, g: Guards, id: TaskId, t: Task, actions: seq<Action>, drop: bool)
    requires Started(w, id, t) && Undisturbed(w, g, id, t.event, actions, drop)
    ensures Progress(w, Run(w, g, actions), id, t, AskIn(w, g, id, t, actions), drop, Steps(actions, id))
  {
    hide Started, Undisturbed, Allowed, EscalatedIn, Escalates, Progress, Step;
    if actions == [] {
      NothingYet(w, g, id, t, drop);
    } else {
      var p, last := actions[..|actions| - 1], actions[|actions| - 1];
      UndisturbedPrefix(w, g, id, t.event, actions, drop);
      RunGoes(w, g, id, t, p, drop);
      EscalatedSnoc(w, g, id, t.event, actions);
      ActionGoes(w, Run(w, g, p), g, id, t, AskIn(w, g, id, t, p), drop, Steps(p, id), last);
    }
  }

  lemma NothingYet(w: World, g: Guards, id: TaskId, t: Task, drop: bool)
    requires Started(w, id, t)
    ensures !EscalatedIn(w, g, id, t.event, []) && Progress(w, w, id, t, AskOf(t), drop, 0)
  {
    StartsOn(w, id, t, drop);
  }

  // ----- the outcomes

  /** Twelve steps are enough for any task. */
  lemma TwelveStepsEnd(w: World, g: Guards, id: TaskId, t: Task, actions: seq<Action>, drop: bool)
    requires Started(w, id, t) && Undisturbed(w, g, id, t.event, actions, drop)
    requires Steps(actions, id) >= 12
    ensures Over(Run(w, g, actions), t.event)
  {
    hide Undisturbed, Started, On, End;
    RunGoes(w, g, id, t, actions, drop);
    StepLeft(w, Run(w, g, actions), id, t, AskIn(w, g, id, t, actions), drop);
  }

  lemma StepLeft(w: World, v: World, id: TaskId, t: Task, ask: Ask, drop: bool)
    ensures On(w, v, id, t, ask, drop) ==> Left(v.tasks[id]) > 0
  {}

  lemma OverIsEnd(w: World, g: Guards, id: TaskId, t: Task, actions: seq<Action>, drop: bool)
    requires Started(w, id, t) && Undisturbed(w, g, id, t.event, actions, drop)
    requires Over(Run(w, g, actions), t.event)
    ensures End(w, Run(w, g, actions), t, AskIn(w, g, id, t, actions), drop)
  {
    hide Undisturbed, Started, End;
    RunGoes(w, g, id, t, actions, drop);
    OnIsOwn(w, Run(w, g, actions), id, t, AskIn(w, g, id, t, actions), drop);
    hide On, Over;
  }

  /** A capture whose effects all succeed ends ready, with its file, and with the diff request
      that was asked for or that the analysis called for, and with nothing left in staging if it
      was staged; all but an ephemeral one that found
      no file, that nobody asks a diff for and that is dropped: its event ends skipped. */
  lemma CaptureEnds(w: World, g: Guards, id: TaskId, t: Task, actions: seq<Action>, drop: bool)
    requires Started(w, id, t) && t.CaptureTask? && Undisturbed(w, g, id, t.event, actions, drop)
    requires Over(Run(w, g, actions), t.event)
    ensures var v, e, escalated := Run(w, g, actions), t.event, EscalatedIn(w, g, id, t.event, actions);
      if t.retention == Ephemeral && !HasCapture(w, e) && t.ask == NoDiff && !escalated && drop then
        (e in v.store <==> e in w.store) && (e in v.store ==> v.store[e].capture == Skipped && v.store[e].diff == w.store[e].diff) && !HasCapture(v, e)
      else
        && e in v.store && v.store[e].capture == Ready && HasCapture(v, e)
        && (t.retention == Ephemeral && !HasCapture(w, e) ==> e !in v.staging)
        && (t.ask == Asked && !escalated ==> DiffRequest(e, t.wanted, false) in v.diffQueue)
        && (escalated ==> DiffRequest(e, t.wanted, true) in v.diffQueue)
  {
    hide Undisturbed, EscalatedIn, Over, Run;
    OverIsEnd(w, g, id, t, actions, drop);
  }

  /** A diff whose effects all succeed ends ready, with both files, when the event asks for it or
      it is forced; otherwise it is skipped. */
  lemma DiffEnds(w: World, g: Guards, id: TaskId, t: Task, actions: seq<Action>)
    requires Started(w, id, t) && t.DiffTask? && Undisturbed(w, g, id, t.event, actions, false)
    requires Over(Run(w, g, actions), t.event)
    ensures var v, e := Run(w, g, actions), t.event;
      if t.wanted.diff || t.forced then
        && e in v.store && v.store[e].diff == Ready && HasDiff(v, e) && HasCapture(v, e)
        && (e in w.store && w.store[e].capture == Ready && HasCapture(w, e) ==> v.store[e].capture == Ready)
      else (e in v.store <==> e in w.store) && (e in v.store ==> v.store[e] == w.store[e].(diff := Skipped))
  {
    hide Undisturbed, Over, Run, AskIn;
    OverIsEnd(w, g, id, t, actions, false);
  }

  /** A lineage backfill whose effects all succeed leaves the previous release ready, with its file. */
  lemma LineageEnds(w: World, g: Guards, id: TaskId, t: Task, actions: seq<Action>)
    requires Started(w, id, t) && t.LineageTask? && Undisturbed(w, g, id, t.event, actions, false)
    requires Over(Run(w, g, actions), t.event)
    ensures var v, e := Run(w, g, actions), t.event; e in v.store && v.store[e].capture == Ready && HasCapture(v, e)
  {
    hide Undisturbed, Over, Run, AskIn;
    OverIsEnd(w, g, id, t, actions, false);
  }

  /** Whether this choice makes the task's next effect fail. Failing to remove a directory
      that is in the way of nothing is only logged. */
  predicate Fails(t: Task, c: Choice) {
    match t
    case CaptureTask(_, _, _, _, p) =>
      && p != MarkingFailed && p != Checking && p != CleaningStaging && p != DroppingStaging
      && (c == Fail || (c == Other && (p == WritingCapture || p == PostWriting)))
    case DiffTask(_, wanted, forced, p) =>
      && p != DiffMarkingFailed && (p == DiffStarting ==> !wanted.diff && !forced)
      && (c == Fail || (c == Other && (p == ProvenanceWriting || p == DiffWriting)))
    case LineageTask(_, _) => false
  }

  /** An effect that fails, whatever it is, is marked in the row next, if there is one, and
      asks for no diff. */
  lemma FailureIsMarked(w: World, g: Guards, id: TaskId, c: Choice)
    requires id in w.tasks && Fails(w.tasks[id], c)
    ensures var e := w.tasks[id].event;
      var v := Step(Step(w, g, Advance(id, c)), g, Advance(id, Go));
      && id !in v.tasks && v.diffQueue == w.diffQueue && (e in v.store <==> e in w.store)
      && (e in w.store ==> v.store[e] == if w.tasks[id].CaptureTask? then w.store[e].(capture := Failed) else w.store[e].(diff := Failed))
  {
    var t := w.tasks[id];
    var v := Step(w, g, Advance(id, c));
    if t.CaptureTask? { CaptureFails(w, g, id, c); } else { DiffFails(w, g, id, c); }
  }

  lemma CaptureFails(w: World, g: Guards, id: TaskId, c: Choice)
    requires id in w.tasks && w.tasks[id].CaptureTask? && Fails(w.tasks[id], c)
    ensures var v := Step(w, g, Advance(id, c));
      v.store == w.store && v.diffQueue == w.diffQueue && id in v.tasks && v.tasks[id] == w.tasks[id].(phase := MarkingFailed)
  {
    if FetchPhase(w.tasks[id].phase) { hide AdvancePost; } else { hide AdvanceFetch; }
  }

  lemma DiffFails(w: World, g: Guards, id: TaskId, c: Choice)
    requires id in w.tasks && w.tasks[id].DiffTask? && Fails(w.tasks[id], c)
    ensures var v := Step(w, g, Advance(id, c));
      v.store == w.store && v.diffQueue == w.diffQueue && id in v.tasks && v.tasks[id] == w.tasks[id].(diffPhase := DiffMarkingFailed)
  {
    hide AdvanceFetch, AdvancePost;
  }

  // ----- who asks for diffs

  predicate QueueSame(w: World, v: World) { w.diffQueue == v.diffQueue }

  /** A capture that ends and asks for this diff, with its event recorded ready. */
  predicate Asking(t: Task, id: TaskId, v: World, r: DiffRequest) {
    && t.CaptureTask? && t.ask != NoDiff && r == DiffRequest(t.event, t.wanted, t.ask == Escalated)
    && id !in v.tasks && t.event in v.store && v.store[t.event].capture == Ready
  }

  /** A step of this task adds at most the request it asks for, and takes none. */
  ghost predicate Queues(w: World, v: World, id: TaskId)
    requires id in w.tasks
  {
    w.diffQueue <= v.diffQueue && forall r :: r in v.diffQueue && r !in w.diffQueue ==> Asking(w.tasks[id], id, v, r)
  }

  lemma EffectsQueue(w: World, id: TaskId, e: EventId, c: Choice, wanted: Wanted)
    requires id in w.tasks
    ensures QueueSame(w, w)
    ensures forall v {:trigger Queues(w, v, id)} :: QueueSame(w, v) ==> Queues(w, v, id)
    ensures forall v, t {:trigger Become(v, id, t)} :: QueueSame(w, v) ==> QueueSame(w, Become(v, id, t))
    ensures forall v {:trigger Finish(v, id)} :: QueueSame(w, v) ==> QueueSame(w, Finish(v, id))
    ensures forall file :: QueueSame(w, WriteFinal(w, e, file, c).0)
    ensures QueueSame(w, WriteStaging(w, e, c).0) && QueueSame(w, WithFinal(w, e)) && QueueSame(w, ClearFinal(w, e, c))
    ensures QueueSame(w, MakeStaging(w, e)) && QueueSame(w, RemoveStaging(w, e, c)) && (e in w.staging ==> QueueSame(w, Publish(w, e)))
    ensures QueueSame(w, RecordCapture(w, e, wanted)) && QueueSame(w, RecordDiff(w, e, wanted)) && QueueSame(w, Upsert(w, e, wanted))
    ensures w.tasks[id].CaptureTask? && w.tasks[id].event == e && w.tasks[id].wanted == wanted ==>
      forall reached :: Queues(w, Finish(Notify(RecordCapture(w, e, wanted), w.tasks[id], reached), id), id)
    ensures forall state :: QueueSame(w, MarkCapture(w, e, state)) && QueueSame(w, MarkDiff(w, e, state))
  {
    hide Upserted;
  }

  lemma FetchQueues(w: World, id: TaskId, c: Choice)
    requires id in w.tasks && w.tasks[id].CaptureTask?
    ensures Queues(w, AdvanceFetch(w, id, w.tasks[id], c), id)
  {
    hide QueueSame, Queues, Become, Finish, Notify, WriteFinal, WriteStaging, WithFinal, ClearFinal, MakeStaging, RemoveStaging, Publish;
    hide RecordCapture, RecordDiff, Upsert, MarkCapture, MarkDiff, HasCapture, HasDiff, MayPersist;
    EffectsQueue(w, id, w.tasks[id].event, c, w.tasks[id].wanted);
  }

  lemma PostQueues(w: World, id: TaskId, c: Choice)
    requires id in w.tasks && w.tasks[id].CaptureTask?
    ensures Queues(w, AdvancePost(w, id, w.tasks[id], c), id)
  {
    hide QueueSame, Queues, Become, Finish, Notify, WriteFinal, WriteStaging, WithFinal, ClearFinal, MakeStaging, RemoveStaging, Publish;
    hide RecordCapture, RecordDiff, Upsert, MarkCapture, MarkDiff, HasCapture, HasDiff, MayPersist;
    EffectsQueue(w, id, w.tasks[id].event, c, w.tasks[id].wanted);
  }

  lemma DiffQueues(w: World, id: TaskId, c: Choice)
    requires id in w.tasks && w.tasks[id].DiffTask?
    ensures Queues(w, AdvanceDiff(w, id, w.tasks[id], c), id)
  {
    hide QueueSame, Queues, Become, Finish, Notify, WriteFinal, WriteStaging, WithFinal, ClearFinal, MakeStaging, RemoveStaging, Publish;
    hide RecordCapture, RecordDiff, Upsert, MarkCapture, MarkDiff, HasCapture, HasDiff, MayPersist;
    EffectsQueue(w, id, w.tasks[id].event, c, w.tasks[id].wanted);
  }

  lemma LineageQueues(w: World, g: Guards, id: TaskId, c: Choice)
    requires id in w.tasks && w.tasks[id].LineageTask?
    ensures Queues(w, AdvanceLineage(w, g, id, w.tasks[id], c), id)
  {
    hide QueueSame, Queues, Become, Finish, Notify, WriteFinal, WriteStaging, WithFinal, ClearFinal, MakeStaging, RemoveStaging, Publish;
    hide RecordCapture, RecordDiff, Upsert, MarkCapture, MarkDiff, HasCapture, HasDiff, MayPersist;
    EffectsQueue(w, id, w.tasks[id].event, c, Reconstructed());
  }

  lemma TaskQueues(w: World, g: Guards, id: TaskId, c: Choice)
    requires id in w.tasks
    ensures Queues(w, AdvanceTask(w, g, id, c), id)
  {
    hide Queues, AdvanceFetch, AdvancePost, AdvanceDiff, AdvanceLineage;
    var t := w.tasks[id];
    if t.DiffTask? { DiffQueues(w, id, c); }
    else if t.LineageTask? { LineageQueues(w, g, id, c); }
    else if FetchPhase(t.phase) { FetchQueues(w, id, c); }
    else { PostQueues(w, id, c); }
  }

  /** A diff is only ever asked for by a capture that was told to ask or whose analysis called
      for it, as it ends with its event recorded ready; a request only goes when the diff worker
      takes it up or in a crash. */
  lemma RequestsAreAsked(w: World, g: Guards, a: Action, r: DiffRequest)
    ensures var v := Step(w, g, a);
      r in v.diffQueue && r !in w.diffQueue ==>
        && a.Advance? && a.id in w.tasks && a.id !in v.tasks && w.tasks[a.id].CaptureTask?
        && r.event == w.tasks[a.id].event && r.wanted == w.tasks[a.id].wanted
        && w.tasks[a.id].ask == (if r.forced then Escalated else Asked)
        && r.event in v.store && v.store[r.event].capture == Ready
    ensures var v := Step(w, g, a);
      r in w.diffQueue && r !in v.diffQueue ==> a == Crash || (a.SpawnDiff? && a.request == r && a.id !in w.tasks && a.id in v.tasks)
  {
    hide AdvanceTask, StartCapture, Upserted, SweepLeavesAlone, MayEscalate;
    if a.Advance? && a.id in w.tasks { TaskQueues(w, g, a.id, a.choice); }
    if a.Spawn? || a.BackfillObserved? || a.BackfillReconstructed? { StartQueuesNothing(w, g, a); }
  }

  lemma StartQueuesNothing(w: World, g: Guards, a: Action)
    requires a.Spawn? || a.BackfillObserved? || a.BackfillReconstructed?
    ensures Step(w, g, a).diffQueue == w.diffQueue
  {
    hide MayStart;
  }

  // ----- what the other actions do

  /** Storing an event adds its row or decides what is pending; reading it back from disk also
      makes ready what has a file. Triage skips the capture of a row. Nothing else changes. */
  lemma StoringDoes(w: World, g: Guards, e: EventId, wanted: Wanted)
    ensures var v := Step(w, g, Observe(e, wanted));
      && v == w.(store := v.store) && v.store.Keys == w.store.Keys + {e} && v.store[e].diff == DiffOf(w, e, wanted)
      && v.store[e].capture == if e in w.store && w.store[e].capture != Pending then w.store[e].capture else if wanted.capture then Pending else Skipped
    ensures var v := Step(w, g, Reconcile(e, wanted));
      && v == w.(store := v.store) && e in v.store
      && (v.store[e].capture == Ready <==> HasCapture(w, e) || (e in w.store && w.store[e].capture == Ready))
      && (v.store[e].diff == Ready <==> HasDiff(w, e) || (e in w.store && w.store[e].diff == Ready))
    ensures var v := Step(w, g, Triage(e));
      v == w.(store := v.store) && (e in v.store <==> e in w.store) && (e in w.store ==> v.store[e] == w.store[e].(capture := Skipped))
  {}

  /** A crash forgets what is under way and keeps disk and store; a whole sweep removes a staged
      directory and nothing else. */
  lemma LosingDoes(w: World, g: Guards, e: EventId)
    ensures var v := Step(w, g, Crash); v.tasks == map[] && v.diffQueue == {} && v.finals == w.finals && v.staging == w.staging && v.store == w.store
    ensures var v := Step(w, g, Sweep(e, true)); e !in v.staging && v == w.(staging := w.staging - {e})
  {}

  /** A staged capture starts by clearing what an earlier one left, and a dropped one ends by
      clearing its own; where that succeeds, the staged directory is gone and all else as it was. */
  lemma ClearingDoes(w: World, g: Guards, id: TaskId)
    requires id in w.tasks && w.tasks[id].CaptureTask? && w.tasks[id].phase in {CleaningStaging, DroppingStaging}
    ensures var t, v := w.tasks[id], Step(w, g, Advance(id, Go));
      && v == w.(staging := w.staging - {t.event}, tasks := v.tasks)
      && v.tasks == if t.phase == DroppingStaging then w.tasks - {id} else w.tasks[id := t.(phase := MakingDir)]
  {
    hide AdvanceDiff, AdvanceLineage;
  }

  /** A lineage backfill takes a capture that is already there as it is: nothing is written, so
      nothing can fail. */
  lemma LineageReuses(w: World, g: Guards, id: TaskId, c: Choice)
    requires id in w.tasks && w.tasks[id].LineageTask? && w.tasks[id].lineagePhase == LineageWriting && HasCapture(w, w.tasks[id].event)
    ensures Step(w, g, Advance(id, c)) == w.(tasks := w.tasks[id := w.tasks[id].(lineagePhase := LineageRecording)])
  {
    hide AdvanceFetch, AdvancePost, AdvanceDiff;
  }

  /** How tasks start: a request, a diff request that was handed over, and what a deciding
      capture or a building diff asks for. */
  lemma TasksStart(w: World, g: Guards, id: TaskId, e: EventId, retention: Retention, wanted: Wanted, notify: bool, forced: bool)
    requires id !in w.tasks && Over(w, e)
    ensures var v := Step(w, g, Spawn(id, e, retention, wanted, notify));
      Started(v, id, CaptureTask(e, retention, wanted, if notify then Asked else NoDiff, Checking)) && v == w.(tasks := v.tasks)
    ensures DiffRequest(e, wanted, forced) in w.diffQueue && HasCapture(w, e) ==>
      var v := Step(w, g, SpawnDiff(id, DiffRequest(e, wanted, forced)));
      Started(v, id, DiffTask(e, wanted, forced, DiffStarting)) && v == w.(tasks := v.tasks, diffQueue := w.diffQueue - {DiffRequest(e, wanted, forced)})
    ensures e !in w.store && (exists host :: host in w.tasks && AsksForLineage(w.tasks[host])) ==>
      exists host :: Started(Step(w, g, SpawnLineage(id, host, e)), id, LineageTask(e, LineageFetching))
  {
    if host :| host in w.tasks && AsksForLineage(w.tasks[host]) {
      assert e !in w.store ==> Started(Step(w, g, SpawnLineage(id, host, e)), id, LineageTask(e, LineageFetching));
    }
  }

  /** From its arrival on: a release that is stored, captured and, once its request is taken
      up, compared ends with its capture ready; its diff ends ready when the event asks for
      one. A request made because of graph evidence alone is not forced, so the diff worker
      skips it. */
  lemma ReleaseIsDiffed(w: World, g: Guards, e: EventId, retention: Retention, wanted: Wanted, id: TaskId, capturing: seq<Action>,
                        other: TaskId, diffing: seq<Action>)
    requires Over(w, e) && id !in w.tasks
    requires var start := Run(w, g, [Observe(e, wanted), Spawn(id, e, retention, wanted, true)]);
      && Undisturbed(start, g, id, e, capturing, false) && Steps(capturing, id) >= 12
      && var captured := Run(start, g, capturing);
      && other !in captured.tasks
      && var taken := Step(captured, g, SpawnDiff(other, DiffRequest(e, wanted, false)));
      Undisturbed(taken, g, other, e, diffing, false) && Steps(diffing, other) >= 12
    ensures var start := Run(w, g, [Observe(e, wanted), Spawn(id, e, retention, wanted, true)]);
      var taken := Step(Run(start, g, capturing), g, SpawnDiff(other, DiffRequest(e, wanted, false)));
      var v := Run(taken, g, diffing);
      && e in v.store && v.store[e].capture == Ready && HasCapture(Run(start, g, capturing), e)
      && (if wanted.diff then v.store[e].diff == Ready && HasDiff(v, e) && HasCapture(v, e) else v.store[e].diff == Skipped)
  {
    var t := CaptureTask(e, retention, wanted, Asked, Checking);
    RunTwo(w, g, Observe(e, wanted), Spawn(id, e, retention, wanted, true));
    var observed := Step(w, g, Observe(e, wanted));
    assert Over(observed, e) && id !in observed.tasks;
    TasksStart(observed, g, id, e, retention, wanted, true, false);
    var start := Step(observed, g, Spawn(id, e, retention, wanted, true));
    NeverEscalates(start, g, id, t, capturing, false);
    hide Step, Run, Undisturbed, Started, Over;
    TwelveStepsEnd(start, g, id, t, capturing, false);
    CaptureEnds(start, g, id, t, capturing, false);
    var captured := Run(start, g, capturing);
    TasksStart(captured, g, other, e, retention, wanted, true, false);
    var taken := Step(captured, g, SpawnDiff(other, DiffRequest(e, wanted, false)));
    TwelveStepsEnd(taken, g, other, DiffTask(e, wanted, false, DiffStarting), diffing, false);
    DiffEnds(taken, g, other, DiffTask(e, wanted, false, DiffStarting), diffing);
  }

  /** A capture that is asked for a diff is never escalated. */
  lemma {:induction false} NeverEscalates(w: World, g: Guards, id: TaskId, t: Task, actions: seq<Action>, drop: bool)
    requires Started(w, id, t) && t.CaptureTask? && t.ask == Asked && Undisturbed(w, g, id, t.event, actions, drop)
    ensures !EscalatedIn(w, g, id, t.event, actions)
  {
    if actions == [] {
    } else {
      var p, last := actions[..|actions| - 1], actions[|actions| - 1];
      hide Started, Undisturbed, Run, Escalates, EscalatedIn;
      UndisturbedPrefix(w, g, id, t.event, actions, drop);
      NeverEscalates(w, g, id, t, p, drop);
      RunGoes(w, g, id, t, p, drop);
      AskedStays(w, Run(w, g, p), id, t, drop, last);
      EscalatedSnoc(w, g, id, t.event, actions);
    }
  }

  lemma AskedStays(w: World, v: World, id: TaskId, t: Task, drop: bool, a: Action)
    requires t.CaptureTask? && (On(w, v, id, t, Asked, drop) || Ended(w, v, t, Asked, drop))
    ensures !Escalates(v, id, t.event, a)
  {
    OnIsOwn(w, v, id, t, Asked, drop);
    hide Facts, End;
  }

  // ----- successful runs

  /** Nothing but steps of one task, all of which succeed. */
  function Successes(id: TaskId, n: nat): seq<Action> { seq(n, _ => Advance(id, Go)) }

  lemma {:induction false} SuccessSteps(id: TaskId, n: nat)
    ensures Steps(Successes(id, n), id) == n
  {
    if n > 0 {
      SuccessSteps(id, n - 1);
      assert Successes(id, n)[..n - 1] == Successes(id, n - 1);
    }
  }

  lemma SuccessIsUndisturbed(w: World, g: Guards, id: TaskId, e: EventId, n: nat)
    ensures Undisturbed(w, g, id, e, Successes(id, n), false) && !EscalatedIn(w, g, id, e, Successes(id, n))
  {
    hide Run;
    forall t: Task ensures Smooth(t, Go, false) {}
    hide Smooth, Elsewhere;
  }

  /** Twelve successful steps of a started capture leave its event ready, its file in place and
      what was asked for handed over. */
  lemma SuccessfulCapture(w: World, g: Guards, id: TaskId, t: Task)
    requires Started(w, id, t) && t.CaptureTask?
    ensures var v, e := Run(w, g, Successes(id, 12)), t.event;
      && Over(v, e) && e in v.store && v.store[e].capture == Ready && HasCapture(v, e)
      && (t.ask == Asked ==> DiffRequest(e, t.wanted, false) in v.diffQueue)
  {
    hide Started, Undisturbed, EscalatedIn, Run, Over;
    SuccessSteps(id, 12);
    SuccessIsUndisturbed(w, g, id, t.event, 12);
    TwelveStepsEnd(w, g, id, t, Successes(id, 12), false);
    CaptureEnds(w, g, id, t, Successes(id, 12), false);
  }
}
