/**
 The capture and diff workers as a step protocol over disk, store and in-flight tasks.

 One action is one await-separated effect. A crash forgets the tasks and the queued
 diff requests and keeps disk and store.
 */
module CaptureLifecycle {

  /** An event id spells out ecosystem, package and version, so each event has a final
      directory of its own. */
  type EventId = nat
  type TaskId = nat

  datatype JobState = Pending | Ready | Skipped | Failed

  /** A row of the release index. */
  datatype Row = Row(capture: JobState, diff: JobState)

  /** Which jobs an event's priority asks for. */
  datatype Wanted = Wanted(capture: bool, diff: bool)

  /** Which of `capture.json` and `diff.json` a release directory holds. */
  datatype Files = Files(capture: bool, diff: bool)

  /** Permanent captures are written in place, ephemeral ones are staged first. */
  datatype Retention = Permanent | Ephemeral

  datatype Phase =
    | Checking | Indexing | IndexRecording
    | CleaningStaging | MakingDir | Fetching | WritingCapture | RecordingEarly
    | PostWriting | Deciding | MarkingSkipped | DroppingStaging
    | RemovingFinal | Renaming | RecordingFinal | MarkingFailed

  datatype DiffPhase =
    | DiffStarting | DiffMakingDir | DiffBuilding
    | ProvenanceLoading | ProvenanceWriting | ProvenanceRecording
    | DiffWriting | DiffRecording | DiffMarkingFailed

  /** Whether a capture asks for a diff: not at all, as its request says, or because what it
      found calls for one. */
  datatype Ask = NoDiff | Asked | Escalated

  /** A diff that the analysis called for is forced. */
  datatype DiffRequest = DiffRequest(event: EventId, wanted: Wanted, forced: bool)

  /** The lineage backfill of a previous release, which other tasks start. */
  datatype LineagePhase = LineageFetching | LineageRecordingEvent | LineageMakingDir | LineageWriting | LineageRecording

  datatype Task =
    | CaptureTask(event: EventId, retention: Retention, wanted: Wanted, ask: Ask, phase: Phase)
    | DiffTask(event: EventId, wanted: Wanted, forced: bool, diffPhase: DiffPhase)
    | LineageTask(event: EventId, lineagePhase: LineagePhase)

  /** `staging` says of each staged directory whether it holds `capture.json`. */
  datatype World = World(
    finals: map<EventId, Files>,
    staging: map<EventId, bool>,
    store: map<EventId, Row>,
    tasks: map<TaskId, Task>,
    diffQueue: set<DiffRequest>)

  /** What is kept apart, event by event: overlapping captures, a lineage backfill and a
      staged capture, and a half-finished sweep and a staged capture. The program keeps
      nothing apart. */
  datatype Guards = Guards(exclusive: EventId -> bool, lineageApart: EventId -> bool, sweepsApart: EventId -> bool)

  function AsWritten(): Guards { Guards(_ => false, _ => false, _ => false) }

  predicate Guarded(g: Guards, e: EventId) { g.exclusive(e) && g.lineageApart(e) && g.sweepsApart(e) }

  /** How an effect turns out: it succeeds, it succeeds with the other outcome it can
      have, or it fails. */
  datatype Choice = Go | Other | Fail

  datatype Action =
    | Observe(event: EventId, wanted: Wanted)
    | Triage(event: EventId)
    | Spawn(id: TaskId, event: EventId, retention: Retention, wanted: Wanted, notify: bool)
    | SpawnDiff(id: TaskId, request: DiffRequest)
    | SpawnLineage(id: TaskId, host: TaskId, event: EventId)
    | BackfillObserved(id: TaskId, event: EventId, wanted: Wanted)
    | BackfillReconstructed(id: TaskId, event: EventId)
    | Advance(id: TaskId, choice: Choice)
    | Escalate(id: TaskId)
    | Sweep(event: EventId, whole: bool)
    | Reconcile(event: EventId, wanted: Wanted)
    | Crash

  // ----- disk and store effects

  predicate HasCapture(w: World, e: EventId) { e in w.finals && w.finals[e].capture }

  predicate HasDiff(w: World, e: EventId) { e in w.finals && w.finals[e].diff }

  function WithFinal(w: World, e: EventId): World {
    if e in w.finals then w else w.(finals := w.finals[e := Files(false, false)])
  }

  /** A file write fails when its directory is gone; a failed write may leave a file. */
  function WriteFinal(w: World, e: EventId, captureFile: bool, c: Choice): (r: (World, bool)) {
    if e !in w.finals || c == Fail then (w, false)
    else
      var files := w.finals[e];
      var written := if captureFile then files.(capture := true) else files.(diff := true);
      (w.(finals := w.finals[e := written]), c == Go)
  }

  function WriteStaging(w: World, e: EventId, c: Choice): (r: (World, bool)) {
    if e !in w.staging || c == Fail then (w, false) else (w.(staging := w.staging[e := true]), c == Go)
  }

  /** Removing a staged directory takes all of it, some of its files, or nothing. */
  function RemoveStaging(w: World, e: EventId, c: Choice): World {
    if c == Go then w.(staging := w.staging - {e})
    else if c == Other && e in w.staging then w.(staging := w.staging[e := false])
    else w
  }

  function MakeStaging(w: World, e: EventId): World {
    if e in w.staging then w else w.(staging := w.staging[e := false])
  }

  /** Removing a final directory takes the directory, or leaves it behind empty. */
  function ClearFinal(w: World, e: EventId, c: Choice): World {
    w.(finals := if c == Go || e !in w.finals then w.finals - {e} else w.finals[e := Files(false, false)])
  }

  /** The rename moves the staged directory to its final place. */
  function Publish(w: World, e: EventId): World
    requires e in w.staging
  {
    w.(finals := w.finals[e := Files(w.staging[e], false)], staging := w.staging - {e})
  }

  function Default(wanted: bool): JobState { if wanted then Pending else Skipped }

  /** Storing an event decides its jobs anew unless they are ready, skipped or failed. */
  function Upserted(w: World, e: EventId, wanted: Wanted): Row {
    if e !in w.store then Row(Default(wanted.capture), Default(wanted.diff))
    else
      var row := w.store[e];
      Row(if row.capture == Pending then Default(wanted.capture) else row.capture,
          if row.diff == Pending then Default(wanted.diff) else row.diff)
  }

  function Upsert(w: World, e: EventId, wanted: Wanted): World { w.(store := w.store[e := Upserted(w, e, wanted)]) }

  function RecordCapture(w: World, e: EventId, wanted: Wanted): World {
    w.(store := w.store[e := Upserted(w, e, wanted).(capture := Ready)])
  }

  function RecordDiff(w: World, e: EventId, wanted: Wanted): World {
    w.(store := w.store[e := Upserted(w, e, wanted).(diff := Ready)])
  }

  /** Updates the row when there is one. */
  function MarkCapture(w: World, e: EventId, state: JobState): World {
    if e in w.store then w.(store := w.store[e := w.store[e].(capture := state)]) else w
  }

  function MarkDiff(w: World, e: EventId, state: JobState): World {
    if e in w.store then w.(store := w.store[e := w.store[e].(diff := state)]) else w
  }

  /** An event read back from the ledger and disk into the store. */
  function Reconciled(w: World, e: EventId, wanted: Wanted): World {
    var row := Upserted(w, e, wanted);
    w.(store := w.store[e := Row(if HasCapture(w, e) then Ready else row.capture, if HasDiff(w, e) then Ready else row.diff)])
  }

  function Become(w: World, id: TaskId, t: Task): World { w.(tasks := w.tasks[id := t]) }

  function Goto(w: World, id: TaskId, t: Task, phase: Phase): World
    requires t.CaptureTask?
  {
    Become(w, id, t.(phase := phase))
  }

  function GotoDiff(w: World, id: TaskId, t: Task, phase: DiffPhase): World
    requires t.DiffTask?
  {
    Become(w, id, t.(diffPhase := phase))
  }

  function GotoLineage(w: World, id: TaskId, t: Task, phase: LineagePhase): World
    requires t.LineageTask?
  {
    Become(w, id, t.(lineagePhase := phase))
  }

  function Finish(w: World, id: TaskId): World { w.(tasks := w.tasks - {id}) }

  /** The diff worker gets the request of a task that asks for a diff, unless it is gone. */
  function Notify(w: World, t: Task, reached: bool): World
    requires t.CaptureTask?
  {
    if reached && t.ask != NoDiff then w.(diffQueue := w.diffQueue + {DiffRequest(t.event, t.wanted, t.ask == Escalated)}) else w
  }

  function AskFor(notify: bool): Ask { if notify then Asked else NoDiff }

  // ----- a capture task

  function AdvanceFetch(w: World, id: TaskId, t: Task, c: Choice): World
    requires t.CaptureTask?
  {
    var e := t.event;
    match t.phase
    case Checking =>
      if HasCapture(w, e) then Goto(w, id, t, Indexing)
      else Goto(w, id, t, if t.retention == Ephemeral then CleaningStaging else MakingDir)
    case Indexing => Goto(w, id, t, if HasCapture(w, e) && c != Fail then IndexRecording else MarkingFailed)
    case IndexRecording =>
      if c == Fail then Goto(w, id, t, MarkingFailed)
      else Finish(Notify(RecordCapture(w, e, t.wanted), t, c == Go), id)
    case CleaningStaging => Goto(RemoveStaging(w, e, c), id, t, MakingDir)
    case MakingDir =>
      if c == Fail then Goto(w, id, t, MarkingFailed)
      else if t.retention == Permanent then Goto(WithFinal(w, e), id, t, Fetching)
      else Goto(MakeStaging(w, e), id, t, Fetching)
    case Fetching => Goto(w, id, t, if c == Fail then MarkingFailed else WritingCapture)
    case WritingCapture =>
      var (v, ok) := if t.retention == Permanent then WriteFinal(w, e, true, c) else WriteStaging(w, e, c);
      Goto(v, id, t, if !ok then MarkingFailed else if t.retention == Permanent then RecordingEarly else PostWriting)
    case RecordingEarly =>
      if c == Fail then Goto(w, id, t, MarkingFailed) else Goto(RecordCapture(w, e, t.wanted), id, t, PostWriting)
    case MarkingFailed => Finish(if c == Fail then w else MarkCapture(w, e, Failed), id)
    case _ => w
  }

  function AdvancePost(w: World, id: TaskId, t: Task, c: Choice): World
    requires t.CaptureTask?
  {
    var e := t.event;
    match t.phase
    case PostWriting =>
      var (v, ok) := if t.retention == Permanent then WriteFinal(w, e, true, c) else WriteStaging(w, e, c);
      Goto(v, id, t, if ok then Deciding else MarkingFailed)
    case Deciding =>
      if c == Fail then Goto(w, id, t, MarkingFailed)
      else if t.retention == Permanent then Goto(w, id, t, RecordingFinal)
      else Goto(w, id, t, if c == Other && t.ask == NoDiff then MarkingSkipped else RemovingFinal)
    case MarkingSkipped =>
      if c == Fail then Goto(w, id, t, MarkingFailed)
      else Goto(MarkCapture(w, e, Skipped), id, t, DroppingStaging)
    case DroppingStaging => Finish(RemoveStaging(w, e, c), id)
    case RemovingFinal =>
      if c == Fail then Goto(w, id, t, MarkingFailed) else Goto(ClearFinal(w, e, c), id, t, Renaming)
    case Renaming =>
      if c == Fail || e !in w.staging || HasCapture(w, e) || HasDiff(w, e) then Goto(w, id, t, MarkingFailed)
      else Goto(Publish(w, e), id, t, RecordingFinal)
    case RecordingFinal =>
      if c == Fail then Goto(w, id, t, MarkingFailed)
      else Finish(Notify(RecordCapture(w, e, t.wanted), t, c == Go), id)
    case _ => w
  }

  // ----- a diff task

  function AdvanceDiff(w: World, id: TaskId, t: Task, c: Choice): World
    requires t.DiffTask?
  {
    var e := t.event;
    match t.diffPhase
    case DiffStarting =>
      if t.wanted.diff || t.forced then GotoDiff(w, id, t, DiffMakingDir)
      else if c == Fail then GotoDiff(w, id, t, DiffMarkingFailed)
      else Finish(MarkDiff(w, e, Skipped), id)
    case DiffMakingDir =>
      if c == Fail then GotoDiff(w, id, t, DiffMarkingFailed) else GotoDiff(WithFinal(w, e), id, t, DiffBuilding)
    case DiffBuilding =>
      if c == Other && HasDiff(w, e) then Finish(w, id)
      else GotoDiff(w, id, t, if c == Fail then DiffMarkingFailed else ProvenanceLoading)
    case ProvenanceLoading =>
      if c == Other then GotoDiff(w, id, t, if HasCapture(w, e) then ProvenanceWriting else DiffMarkingFailed)
      else GotoDiff(w, id, t, if c == Go then DiffWriting else DiffMarkingFailed)
    case ProvenanceWriting =>
      var (v, ok) := WriteFinal(w, e, true, c);
      GotoDiff(v, id, t, if ok then ProvenanceRecording else DiffMarkingFailed)
    case ProvenanceRecording =>
      if c == Fail then GotoDiff(w, id, t, DiffMarkingFailed) else GotoDiff(RecordCapture(w, e, t.wanted), id, t, DiffWriting)
    case DiffWriting =>
      var (v, ok) := WriteFinal(w, e, false, c);
      GotoDiff(v, id, t, if ok then DiffRecording else DiffMarkingFailed)
    case DiffRecording =>
      if c == Fail then GotoDiff(w, id, t, DiffMarkingFailed) else Finish(RecordDiff(w, e, t.wanted), id)
    case DiffMarkingFailed => Finish(if c == Fail then w else MarkDiff(w, e, Failed), id)
  }

  // ----- a lineage backfill

  /** What a reconstructed event asks for. */
  function Reconstructed(): Wanted { Wanted(true, false) }

  predicate IsStaged(t: Task) { t.CaptureTask? && t.retention == Ephemeral }

  ghost predicate MayPersist(w: World, g: Guards, e: EventId) {
    g.lineageApart(e) ==> forall id :: id in w.tasks && w.tasks[id].event == e ==> !IsStaged(w.tasks[id])
  }

  /** Once the registry has answered, the previous release is stored, and its capture is
      written unless there is one, and recorded. */
  ghost function AdvanceLineage(w: World, g: Guards, id: TaskId, t: Task, c: Choice): World
    requires t.LineageTask?
  {
    var e := t.event;
    match t.lineagePhase
    case LineageFetching =>
      if c != Go then Finish(w, id) else if MayPersist(w, g, e) then GotoLineage(w, id, t, LineageRecordingEvent) else w
    case LineageRecordingEvent =>
      if c == Fail then Finish(w, id) else GotoLineage(Upsert(w, e, Reconstructed()), id, t, LineageMakingDir)
    case LineageMakingDir =>
      if c == Fail then Finish(w, id)
      else if c == Other then Finish(WithFinal(w, e), id)
      else GotoLineage(WithFinal(w, e), id, t, LineageWriting)
    case LineageWriting =>
      var (v, ok) := if HasCapture(w, e) then (w, true) else WriteFinal(w, e, true, c);
      if ok then GotoLineage(v, id, t, LineageRecording) else Finish(v, id)
    case LineageRecording => Finish(if c == Fail then w else RecordCapture(w, e, Reconstructed()), id)
  }

  // ----- actions

  predicate FetchPhase(p: Phase) {
    p in {Checking, Indexing, IndexRecording, CleaningStaging, MakingDir, Fetching, WritingCapture, RecordingEarly, MarkingFailed}
  }

  ghost function AdvanceTask(w: World, g: Guards, id: TaskId, c: Choice): World
    requires id in w.tasks
  {
    var t := w.tasks[id];
    if t.DiffTask? then AdvanceDiff(w, id, t, c)
    else if t.LineageTask? then AdvanceLineage(w, g, id, t, c)
    else if FetchPhase(t.phase) then AdvanceFetch(w, id, t, c)
    else AdvancePost(w, id, t, c)
  }

  /** Tasks that write in the release directory of their event, or will move a directory
      there; a lineage backfill does so once the registry has answered. */
  predicate Writes(t: Task) { t.CaptureTask? || (t.LineageTask? && t.lineagePhase != LineageFetching) }

  /** Of two tasks that write for one event, neither is staged. */
  predicate Compatible(t: Task, u: Task) { Writes(t) && Writes(u) ==> !IsStaged(t) && !IsStaged(u) }

  ghost predicate MayStart(w: World, g: Guards, t: Task) {
    forall id :: id in w.tasks && w.tasks[id].event == t.event ==>
      && (w.tasks[id].CaptureTask? && g.exclusive(t.event) ==> Compatible(w.tasks[id], t))
      && (w.tasks[id].LineageTask? && g.lineageApart(t.event) ==> Compatible(w.tasks[id], t))
  }

  ghost function StartCapture(w: World, g: Guards, id: TaskId, t: Task): World {
    if id in w.tasks || !MayStart(w, g, t) then w else Become(w, id, t)
  }

  /** The decision on a diff asks for the previous release, and so does building one. */
  predicate AsksForLineage(t: Task) {
    (t.CaptureTask? && t.phase == Deciding) || (t.DiffTask? && t.diffPhase == DiffBuilding)
  }

  /** The analysis may call for a diff that the request did not ask for. */
  predicate MayEscalate(t: Task) { t.CaptureTask? && t.phase == Deciding && t.ask == NoDiff }

  ghost predicate SweepLeavesAlone(w: World, g: Guards, e: EventId) {
    g.sweepsApart(e) && exists id :: id in w.tasks && w.tasks[id].event == e && IsStaged(w.tasks[id])
  }

  ghost function Step(w: World, g: Guards, a: Action): World {
    match a
    case Observe(e, wanted) => Upsert(w, e, wanted)
    case Triage(e) => MarkCapture(w, e, Skipped)
    case Spawn(id, e, r, wanted, notify) => StartCapture(w, g, id, CaptureTask(e, r, wanted, AskFor(notify), Checking))
    case SpawnDiff(id, r) =>
      if id in w.tasks || r !in w.diffQueue then w
      else Become(w.(diffQueue := w.diffQueue - {r}), id, DiffTask(r.event, r.wanted, r.forced, DiffStarting))
    case SpawnLineage(id, host, e) =>
      if id in w.tasks || host !in w.tasks || !AsksForLineage(w.tasks[host]) || w.tasks[host].event == e || e in w.store then w
      else Become(w, id, LineageTask(e, LineageFetching))
    case BackfillObserved(id, e, wanted) =>
      if e in w.store && w.store[e].capture == Skipped then w
      else if HasCapture(w, e) then StartCapture(w, g, id, CaptureTask(e, Permanent, wanted, AskFor(wanted.diff), Indexing))
      else if wanted.capture then StartCapture(w, g, id, CaptureTask(e, Permanent, wanted, AskFor(wanted.diff), Checking))
      else w
    case BackfillReconstructed(id, e) =>
      if e in w.store && w.store[e].capture == Skipped then w
      else StartCapture(w, g, id, CaptureTask(e, Permanent, Reconstructed(), NoDiff, if HasCapture(w, e) then Indexing else Checking))
    case Advance(id, c) => if id in w.tasks then AdvanceTask(w, g, id, c) else w
    case Escalate(id) => if id in w.tasks && MayEscalate(w.tasks[id]) then Become(w, id, w.tasks[id].(ask := Escalated)) else w
    case Sweep(e, whole) => if !whole && SweepLeavesAlone(w, g, e) then w else RemoveStaging(w, e, if whole then Go else Other)
    case Reconcile(e, wanted) => Reconciled(w, e, wanted)
    case Crash => w.(tasks := map[], diffQueue := {})
  }

  const Start := World(map[], map[], map[], map[], {})

  ghost function Run(w: World, g: Guards, actions: seq<Action>): World {
    if actions == [] then w else Step(Run(w, g, actions[..|actions| - 1]), g, actions[|actions| - 1])
  }

  // ----- safety

  /** A ready capture has its `capture.json`, a ready diff its `diff.json`. */
  predicate Safe(w: World, e: EventId) {
    e in w.store ==>
      && (w.store[e].capture == Ready ==> HasCapture(w, e))
      && (w.store[e].diff == Ready ==> HasDiff(w, e))
  }

  /** Phases in which `capture.json` is known to be in the final directory. */
  predicate Published(t: Task) {
    || t.DiffTask?
    || (t.LineageTask? && t.lineagePhase == LineageRecording)
    || (t.CaptureTask? && t.phase in {IndexRecording, RecordingEarly, RecordingFinal})
    || (t.CaptureTask? && t.retention == Permanent && t.phase in {PostWriting, Deciding})
  }

  /** Phases of an ephemeral capture that found no `capture.json` and has not moved its own. */
  predicate Unpublished(t: Task) {
    IsStaged(t)
      && t.phase in {CleaningStaging, MakingDir, Fetching, WritingCapture, PostWriting, Deciding,
                     MarkingSkipped, DroppingStaging, RemovingFinal, Renaming}
  }

  /** Phases in which the staged directory, if there is one, holds `capture.json`. */
  predicate Staged(t: Task) { IsStaged(t) && t.phase in {PostWriting, Deciding, RemovingFinal, Renaming} }

  predicate PhaseFits(t: Task) {
    && (t.CaptureTask? && t.phase == RecordingEarly ==> t.retention == Permanent)
    && (t.CaptureTask? && t.phase in {CleaningStaging, MarkingSkipped, DroppingStaging, RemovingFinal, Renaming} ==> t.retention == Ephemeral)
  }

  predicate TaskOk(w: World, t: Task) {
    && (Published(t) ==> HasCapture(w, t.event))
    && (Unpublished(t) ==> !HasCapture(w, t.event))
    && (Staged(t) && t.event in w.staging ==> w.staging[t.event])
    && (t.DiffTask? && t.diffPhase == DiffRecording ==> HasDiff(w, t.event))
    && PhaseFits(t)
  }

  ghost predicate Inv(w: World, e: EventId) {
    && Safe(w, e)
    && (HasDiff(w, e) ==> HasCapture(w, e))
    && (forall r :: r in w.diffQueue && r.event == e ==> HasCapture(w, e))
    && (forall id :: id in w.tasks && w.tasks[id].event == e ==> TaskOk(w, w.tasks[id]))
    && (forall i, j {:trigger w.tasks[i], w.tasks[j]} ::
          i in w.tasks && j in w.tasks && i != j && w.tasks[i].event == e && w.tasks[j].event == e ==> Compatible(w.tasks[i], w.tasks[j]))
  }

  // ----- what one effect keeps

  predicate SameOwner(t: Task, u: Task) {
    && t.event == u.event && t.CaptureTask? == u.CaptureTask? && t.LineageTask? == u.LineageTask?
    && (t.CaptureTask? ==> t.retention == u.retention && t.wanted == u.wanted)
  }

  /** A task moves on without a new claim. */
  lemma MoveKeepsInv(w: World, e: EventId, id: TaskId, t: Task)
    requires Inv(w, e) && id in w.tasks && w.tasks[id].event == e && SameOwner(w.tasks[id], t) && TaskOk(w, t)
    requires Writes(t) ==> Writes(w.tasks[id])
    ensures Inv(Become(w, id, t), e)
  {
    var v := Become(w, id, t);
    forall i | i in v.tasks && v.tasks[i].event == e ensures TaskOk(v, v.tasks[i]) {
      assert i == id || TaskOk(w, w.tasks[i]);
    }
    forall i, j {:trigger v.tasks[i], v.tasks[j]} | i in v.tasks && j in v.tasks && i != j && v.tasks[i].event == e && v.tasks[j].event == e
      ensures Compatible(v.tasks[i], v.tasks[j])
    {
      assert Compatible(w.tasks[i], w.tasks[j]);
    }
  }

  /** A new task, or a new claim of one. */
  lemma ClaimKeepsInv(w: World, e: EventId, id: TaskId, t: Task)
    requires Inv(w, e) && TaskOk(w, t) && t.event == e && (id in w.tasks ==> w.tasks[id].event == e)
    requires forall i :: i in w.tasks && i != id && w.tasks[i].event == e ==> Compatible(w.tasks[i], t)
    ensures Inv(Become(w, id, t), e)
  {
    var v := Become(w, id, t);
    forall i | i in v.tasks && v.tasks[i].event == e ensures TaskOk(v, v.tasks[i]) {
      assert i == id || TaskOk(w, w.tasks[i]);
    }
    forall i, j {:trigger v.tasks[i], v.tasks[j]} | i in v.tasks && j in v.tasks && i != j && v.tasks[i].event == e && v.tasks[j].event == e
      ensures Compatible(v.tasks[i], v.tasks[j])
    {
      assert i == id || j == id || Compatible(w.tasks[i], w.tasks[j]);
    }
  }

  lemma FinishKeepsInv(w: World, e: EventId, id: TaskId)
    requires Inv(w, e)
    ensures Inv(Finish(w, id), e)
  {
    var v := Finish(w, id);
    forall i | i in v.tasks && v.tasks[i].event == e ensures TaskOk(v, v.tasks[i]) { assert TaskOk(w, w.tasks[i]); }
  }

  lemma StoreKeepsInv(w: World, e: EventId, row: Row)
    requires Inv(w, e)
    requires (row.capture == Ready ==> HasCapture(w, e)) && (row.diff == Ready ==> HasDiff(w, e))
    ensures Inv(w.(store := w.store[e := row]), e)
  {
    var v := w.(store := w.store[e := row]);
    forall i | i in v.tasks && v.tasks[i].event == e ensures TaskOk(v, v.tasks[i]) { assert TaskOk(w, w.tasks[i]); }
  }

  lemma NotifyKeepsInv(w: World, e: EventId, t: Task, reached: bool)
    requires Inv(w, e) && HasCapture(w, e) && t.CaptureTask?
    ensures Inv(Notify(w, t, reached), e)
  {
    var v := Notify(w, t, reached);
    forall i | i in v.tasks && v.tasks[i].event == e ensures TaskOk(v, v.tasks[i]) { assert TaskOk(w, w.tasks[i]); }
  }

  /** A directory may gain files as long as no unpublished ephemeral capture owns it. */
  lemma GainKeepsInv(w: World, e: EventId, files: Files)
    requires Inv(w, e)
    requires (HasCapture(w, e) ==> files.capture) && (HasDiff(w, e) ==> files.diff) && (files.diff ==> files.capture)
    requires files.capture && !HasCapture(w, e) ==> forall i :: i in w.tasks && w.tasks[i].event == e ==> !Unpublished(w.tasks[i])
    ensures Inv(w.(finals := w.finals[e := files]), e)
  {
    var v := w.(finals := w.finals[e := files]);
    forall i | i in v.tasks && v.tasks[i].event == e ensures TaskOk(v, v.tasks[i]) { assert TaskOk(w, w.tasks[i]); }
  }

  /** A directory without `capture.json` may lose everything. */
  lemma LossKeepsInv(w: World, e: EventId, finals: map<EventId, Files>)
    requires Inv(w, e) && !HasCapture(w, e)
    requires finals == w.finals - {e} || finals == w.finals[e := Files(false, false)]
    ensures Inv(w.(finals := finals), e)
  {
    var v := w.(finals := finals);
    assert !HasDiff(w, e);
    forall i | i in v.tasks && v.tasks[i].event == e ensures TaskOk(v, v.tasks[i]) { assert TaskOk(w, w.tasks[i]); }
  }

  lemma StagingKeepsInv(w: World, e: EventId, staging: map<EventId, bool>)
    requires Inv(w, e)
    requires staging == w.staging - {e} || staging == w.staging[e := true]
      || (staging == w.staging[e := false] && forall i :: i in w.tasks && w.tasks[i].event == e ==> !Staged(w.tasks[i]))
    ensures Inv(w.(staging := staging), e)
  {
    var v := w.(staging := staging);
    forall i | i in v.tasks && v.tasks[i].event == e ensures TaskOk(v, v.tasks[i]) { assert TaskOk(w, w.tasks[i]); }
  }

  lemma RemoveKeepsInv(w: World, e: EventId, c: Choice)
    requires Inv(w, e) && forall i :: i in w.tasks && w.tasks[i].event == e ==> !Staged(w.tasks[i])
    ensures Inv(RemoveStaging(w, e, c), e) && RemoveStaging(w, e, c).tasks == w.tasks && RemoveStaging(w, e, c).finals == w.finals
  {
    StagingKeepsInv(w, e, w.staging - {e});
    StagingKeepsInv(w, e, w.staging[e := false]);
  }

  /** Nobody else is half way through the directory of a task that writes in place, or of
      any directory that already holds `capture.json`. */
  lemma NoUnpublished(w: World, e: EventId, id: TaskId)
    requires Inv(w, e) && id in w.tasks && w.tasks[id].event == e
    requires HasCapture(w, e) || w.tasks[id].DiffTask? || (Writes(w.tasks[id]) && !IsStaged(w.tasks[id]))
    ensures forall i :: i in w.tasks && w.tasks[i].event == e ==> !Unpublished(w.tasks[i])
  {
    forall i | i in w.tasks && w.tasks[i].event == e ensures !Unpublished(w.tasks[i]) {
      assert TaskOk(w, w.tasks[id]) && TaskOk(w, w.tasks[i]);
      assert i == id || Compatible(w.tasks[i], w.tasks[id]);
    }
  }

  lemma OnlyStagedOwner(w: World, e: EventId, id: TaskId)
    requires Inv(w, e) && id in w.tasks && w.tasks[id].event == e && IsStaged(w.tasks[id]) && !Staged(w.tasks[id])
    ensures forall i :: i in w.tasks && w.tasks[i].event == e ==> !Staged(w.tasks[i])
  {
    forall i | i in w.tasks && w.tasks[i].event == e ensures !Staged(w.tasks[i]) {
      assert i == id || Compatible(w.tasks[i], w.tasks[id]);
    }
  }

  lemma RecordKeepsInv(w: World, e: EventId, wanted: Wanted)
    requires Inv(w, e)
    ensures HasCapture(w, e) ==> Inv(RecordCapture(w, e, wanted), e)
    ensures HasDiff(w, e) ==> Inv(RecordDiff(w, e, wanted), e)
    ensures Inv(Upsert(w, e, wanted), e) && Inv(Reconciled(w, e, wanted), e)
  {
    var row := Upserted(w, e, wanted);
    StoreKeepsInv(w, e, row);
    if HasCapture(w, e) { StoreKeepsInv(w, e, row.(capture := Ready)); }
    if HasDiff(w, e) { StoreKeepsInv(w, e, row.(diff := Ready)); }
    StoreKeepsInv(w, e, Reconciled(w, e, wanted).store[e]);
  }

  lemma MarkKeepsInv(w: World, e: EventId, state: JobState)
    requires Inv(w, e) && state != Ready
    ensures Inv(MarkCapture(w, e, state), e) && Inv(MarkDiff(w, e, state), e)
  {
    if e in w.store {
      StoreKeepsInv(w, e, w.store[e].(capture := state));
      StoreKeepsInv(w, e, w.store[e].(diff := state));
    }
  }

  lemma PublishKeepsInv(w: World, e: EventId, id: TaskId, captureFile: bool, c: Choice)
    requires Inv(w, e) && id in w.tasks && w.tasks[id].event == e
    requires w.tasks[id].DiffTask? || (captureFile && Writes(w.tasks[id]) && !IsStaged(w.tasks[id]))
    ensures var (v, ok) := WriteFinal(w, e, captureFile, c);
      && Inv(v, e) && v.tasks == w.tasks
      && (ok ==> if captureFile then HasCapture(v, e) else HasDiff(v, e))
      && (HasCapture(w, e) ==> HasCapture(v, e))
  {
    if e in w.finals {
      NoUnpublished(w, e, id);
      assert TaskOk(w, w.tasks[id]);
      var files := w.finals[e];
      GainKeepsInv(w, e, if captureFile then files.(capture := true) else files.(diff := true));
    }
  }

  lemma MakeFinalKeepsInv(w: World, e: EventId)
    requires Inv(w, e)
    ensures Inv(WithFinal(w, e), e)
  {
    if e !in w.finals { GainKeepsInv(w, e, Files(false, false)); }
  }

  // ----- what a task step keeps

  lemma TaskIsOk(w: World, e: EventId, id: TaskId)
    requires Inv(w, e) && id in w.tasks && w.tasks[id].event == e
    ensures TaskOk(w, w.tasks[id])
  {}

  lemma FetchKeepsInv(w: World, e: EventId, id: TaskId, c: Choice)
    requires Inv(w, e) && id in w.tasks && w.tasks[id].event == e && w.tasks[id].CaptureTask?
    requires w.tasks[id].phase in {Checking, Indexing, IndexRecording, CleaningStaging, MarkingFailed}
    ensures Inv(AdvanceFetch(w, id, w.tasks[id], c), e)
  {
    var t := w.tasks[id];
    TaskIsOk(w, e, id);
    hide Inv;
    match t.phase
    case Checking =>
      MoveKeepsInv(w, e, id, t.(phase := if HasCapture(w, e) then Indexing else if t.retention == Ephemeral then CleaningStaging else MakingDir));
    case Indexing =>
      MoveKeepsInv(w, e, id, t.(phase := if HasCapture(w, e) && c != Fail then IndexRecording else MarkingFailed));
    case IndexRecording =>
      if c == Fail {
        MoveKeepsInv(w, e, id, t.(phase := MarkingFailed));
      } else {
        RecordAndFinish(w, e, id, c == Go);
      }
    case CleaningStaging =>
      OnlyStagedOwner(w, e, id);
      RemoveKeepsInv(w, e, c);
      MoveKeepsInv(RemoveStaging(w, e, c), e, id, t.(phase := MakingDir));
    case MarkingFailed =>
      MarkKeepsInv(w, e, Failed);
      FinishKeepsInv(if c == Fail then w else MarkCapture(w, e, Failed), e, id);
  }

  lemma RecordAndFinish(w: World, e: EventId, id: TaskId, notify: bool)
    requires Inv(w, e) && id in w.tasks && w.tasks[id].CaptureTask? && HasCapture(w, e)
    ensures Inv(Finish(Notify(RecordCapture(w, e, w.tasks[id].wanted), w.tasks[id], notify), id), e)
  {
    hide Inv;
    var v := RecordCapture(w, e, w.tasks[id].wanted);
    RecordKeepsInv(w, e, w.tasks[id].wanted);
    NotifyKeepsInv(v, e, w.tasks[id], notify);
    FinishKeepsInv(Notify(v, w.tasks[id], notify), e, id);
  }

  lemma CollectKeepsInv(w: World, e: EventId, id: TaskId, c: Choice)
    requires Inv(w, e) && id in w.tasks && w.tasks[id].event == e && w.tasks[id].CaptureTask?
    requires w.tasks[id].phase in {MakingDir, Fetching, WritingCapture, RecordingEarly}
    ensures Inv(AdvanceFetch(w, id, w.tasks[id], c), e)
  {
    var t := w.tasks[id];
    TaskIsOk(w, e, id);
    hide Inv;
    MoveKeepsInv(w, e, id, t.(phase := MarkingFailed));
    match t.phase
    case MakingDir =>
      if c != Fail {
        if t.retention == Permanent {
          MakeFinalKeepsInv(w, e);
          MoveKeepsInv(WithFinal(w, e), e, id, t.(phase := Fetching));
        } else {
          OnlyStagedOwner(w, e, id);
          StagingKeepsInv(w, e, w.staging[e := false]);
          MoveKeepsInv(MakeStaging(w, e), e, id, t.(phase := Fetching));
        }
      }
    case Fetching => MoveKeepsInv(w, e, id, t.(phase := if c == Fail then MarkingFailed else WritingCapture));
    case WritingCapture => WriteKeepsInv(w, e, id, c, if t.retention == Permanent then RecordingEarly else PostWriting);
    case RecordingEarly =>
      if c != Fail {
        RecordKeepsInv(w, e, t.wanted);
        MoveKeepsInv(RecordCapture(w, e, t.wanted), e, id, t.(phase := PostWriting));
      }
  }

  /** Writing `capture.json` in the workspace, before or after the analysis. */
  lemma WriteKeepsInv(w: World, e: EventId, id: TaskId, c: Choice, next: Phase)
    requires Inv(w, e) && id in w.tasks && w.tasks[id].event == e && w.tasks[id].CaptureTask?
    requires w.tasks[id].phase in {WritingCapture, PostWriting}
    requires next == Deciding || next == if w.tasks[id].retention == Permanent then RecordingEarly else PostWriting
    ensures var t := w.tasks[id];
      var (v, ok) := if t.retention == Permanent then WriteFinal(w, e, true, c) else WriteStaging(w, e, c);
      Inv(Goto(v, id, t, if ok then next else MarkingFailed), e)
  {
    var t := w.tasks[id];
    TaskIsOk(w, e, id);
    hide Inv;
    if t.retention == Permanent {
      PublishKeepsInv(w, e, id, true, c);
      var (v, ok) := WriteFinal(w, e, true, c);
      MoveKeepsInv(v, e, id, t.(phase := if ok then next else MarkingFailed));
    } else {
      var (v, ok) := WriteStaging(w, e, c);
      StagingKeepsInv(w, e, w.staging[e := true]);
      MoveKeepsInv(v, e, id, t.(phase := if ok then next else MarkingFailed));
    }
  }

  lemma PostKeepsInv(w: World, e: EventId, id: TaskId, c: Choice)
    requires Inv(w, e) && id in w.tasks && w.tasks[id].event == e && w.tasks[id].CaptureTask?
    requires w.tasks[id].phase in {PostWriting, Deciding, MarkingSkipped, DroppingStaging}
    ensures Inv(AdvancePost(w, id, w.tasks[id], c), e)
  {
    var t := w.tasks[id];
    TaskIsOk(w, e, id);
    hide Inv;
    MoveKeepsInv(w, e, id, t.(phase := MarkingFailed));
    match t.phase
    case PostWriting => WriteKeepsInv(w, e, id, c, Deciding);
    case Deciding =>
      if c != Fail {
        MoveKeepsInv(w, e, id, t.(phase := if t.retention == Permanent then RecordingFinal else if c == Other && t.ask == NoDiff then MarkingSkipped else RemovingFinal));
      }
    case MarkingSkipped =>
      MarkKeepsInv(w, e, Skipped);
      MoveKeepsInv(MarkCapture(w, e, Skipped), e, id, t.(phase := DroppingStaging));
    case DroppingStaging =>
      OnlyStagedOwner(w, e, id);
      RemoveKeepsInv(w, e, c);
      FinishKeepsInv(RemoveStaging(w, e, c), e, id);
  }

  lemma PromoteKeepsInv(w: World, e: EventId, id: TaskId, c: Choice)
    requires Inv(w, e) && id in w.tasks && w.tasks[id].event == e && w.tasks[id].CaptureTask?
    requires w.tasks[id].phase in {RemovingFinal, RecordingFinal}
    ensures Inv(AdvancePost(w, id, w.tasks[id], c), e)
  {
    var t := w.tasks[id];
    TaskIsOk(w, e, id);
    hide Inv;
    MoveKeepsInv(w, e, id, t.(phase := MarkingFailed));
    if c != Fail {
      if t.phase == RemovingFinal {
        LossKeepsInv(w, e, ClearFinal(w, e, c).finals);
        MoveKeepsInv(ClearFinal(w, e, c), e, id, t.(phase := Renaming));
      } else {
        RecordAndFinish(w, e, id, c == Go);
      }
    }
  }

  /** The rename publishes the staged directory and ends its exclusive claim in one
      effect, so the proof lets the task give up its claim before the files appear. */
  lemma RenameKeepsInv(w: World, e: EventId, id: TaskId, c: Choice)
    requires Inv(w, e) && id in w.tasks && w.tasks[id].event == e && w.tasks[id].CaptureTask? && w.tasks[id].phase == Renaming
    ensures Inv(AdvancePost(w, id, w.tasks[id], c), e)
  {
    var t := w.tasks[id];
    MoveKeepsInv(w, e, id, t.(phase := MarkingFailed));
    if !(c == Fail || e !in w.staging || HasCapture(w, e) || HasDiff(w, e)) { RenamedKeepsInv(w, e, id); }
  }

  lemma RenamedKeepsInv(w: World, e: EventId, id: TaskId)
    requires Inv(w, e) && id in w.tasks && w.tasks[id].event == e && w.tasks[id].CaptureTask? && w.tasks[id].phase == Renaming
    requires e in w.staging && !HasCapture(w, e) && !HasDiff(w, e)
    ensures Inv(Goto(Publish(w, e), id, w.tasks[id], RecordingFinal), e)
  {
    var t := w.tasks[id];
    assert TaskOk(w, t);
    var given := Goto(w, id, t, MarkingFailed);
    MoveKeepsInv(w, e, id, t.(phase := MarkingFailed));
    forall i | i in given.tasks && given.tasks[i].event == e ensures !Unpublished(given.tasks[i]) {
      assert i == id || Compatible(w.tasks[i], w.tasks[id]);
    }
    MovedInKeepsInv(given, e, id);
    assert given.tasks[id := t.(phase := RecordingFinal)] == w.tasks[id := t.(phase := RecordingFinal)];
  }

  lemma MovedInKeepsInv(w: World, e: EventId, id: TaskId)
    requires Inv(w, e) && id in w.tasks && w.tasks[id].event == e && IsStaged(w.tasks[id]) && !HasDiff(w, e)
    requires forall i :: i in w.tasks && w.tasks[i].event == e ==> !Unpublished(w.tasks[i])
    ensures Inv(Goto(w.(finals := w.finals[e := Files(true, false)], staging := w.staging - {e}), id, w.tasks[id], RecordingFinal), e)
  {
    hide Inv;
    GainKeepsInv(w, e, Files(true, false));
    var published := w.(finals := w.finals[e := Files(true, false)]);
    StagingKeepsInv(published, e, w.staging - {e});
    MoveKeepsInv(published.(staging := w.staging - {e}), e, id, w.tasks[id].(phase := RecordingFinal));
  }

  lemma DiffBuildKeepsInv(w: World, e: EventId, id: TaskId, c: Choice)
    requires Inv(w, e) && id in w.tasks && w.tasks[id].event == e && w.tasks[id].DiffTask?
    requires w.tasks[id].diffPhase !in {DiffWriting, DiffRecording, ProvenanceLoading, ProvenanceWriting, ProvenanceRecording}
    ensures Inv(AdvanceDiff(w, id, w.tasks[id], c), e)
  {
    var t := w.tasks[id];
    TaskIsOk(w, e, id);
    hide Inv;
    MoveKeepsInv(w, e, id, t.(diffPhase := DiffMarkingFailed));
    match t.diffPhase
    case DiffStarting =>
      MarkKeepsInv(w, e, Skipped);
      FinishKeepsInv(MarkDiff(w, e, Skipped), e, id);
      MoveKeepsInv(w, e, id, t.(diffPhase := DiffMakingDir));
    case DiffMakingDir =>
      MakeFinalKeepsInv(w, e);
      MoveKeepsInv(WithFinal(w, e), e, id, t.(diffPhase := DiffBuilding));
    case DiffBuilding =>
      FinishKeepsInv(w, e, id);
      MoveKeepsInv(w, e, id, t.(diffPhase := ProvenanceLoading));
    case DiffMarkingFailed =>
      MarkKeepsInv(w, e, Failed);
      FinishKeepsInv(if c == Fail then w else MarkDiff(w, e, Failed), e, id);
  }

  lemma ProvenanceKeepsInv(w: World, e: EventId, id: TaskId, c: Choice)
    requires Inv(w, e) && id in w.tasks && w.tasks[id].event == e && w.tasks[id].DiffTask?
    requires w.tasks[id].diffPhase in {ProvenanceLoading, ProvenanceWriting, ProvenanceRecording}
    ensures Inv(AdvanceDiff(w, id, w.tasks[id], c), e)
  {
    var t := w.tasks[id];
    TaskIsOk(w, e, id);
    hide Inv;
    MoveKeepsInv(w, e, id, t.(diffPhase := DiffMarkingFailed));
    match t.diffPhase
    case ProvenanceLoading =>
      MoveKeepsInv(w, e, id, t.(diffPhase := ProvenanceWriting));
      MoveKeepsInv(w, e, id, t.(diffPhase := DiffWriting));
    case ProvenanceWriting =>
      PublishKeepsInv(w, e, id, true, c);
      var (v, ok) := WriteFinal(w, e, true, c);
      MoveKeepsInv(v, e, id, t.(diffPhase := if ok then ProvenanceRecording else DiffMarkingFailed));
    case ProvenanceRecording =>
      RecordKeepsInv(w, e, t.wanted);
      MoveKeepsInv(RecordCapture(w, e, t.wanted), e, id, t.(diffPhase := DiffWriting));
  }

  lemma DiffWriteKeepsInv(w: World, e: EventId, id: TaskId, c: Choice)
    requires Inv(w, e) && id in w.tasks && w.tasks[id].event == e && w.tasks[id].DiffTask?
    requires w.tasks[id].diffPhase in {DiffWriting, DiffRecording}
    ensures Inv(AdvanceDiff(w, id, w.tasks[id], c), e)
  {
    var t := w.tasks[id];
    TaskIsOk(w, e, id);
    hide Inv;
    if t.diffPhase == DiffWriting {
      PublishKeepsInv(w, e, id, false, c);
      var (v, ok) := WriteFinal(w, e, false, c);
      MoveKeepsInv(v, e, id, t.(diffPhase := if ok then DiffRecording else DiffMarkingFailed));
    } else {
      MoveKeepsInv(w, e, id, t.(diffPhase := DiffMarkingFailed));
      RecordKeepsInv(w, e, t.wanted);
      FinishKeepsInv(RecordDiff(w, e, t.wanted), e, id);
    }
  }

  /** A lineage backfill kept apart from staged captures goes on only where none is under way. */
  lemma LineageStartKeepsInv(w: World, g: Guards, e: EventId, id: TaskId, c: Choice)
    requires Inv(w, e) && g.lineageApart(e) && id in w.tasks && w.tasks[id].event == e && w.tasks[id].LineageTask?
    requires w.tasks[id].lineagePhase in {LineageFetching, LineageRecordingEvent}
    ensures Inv(AdvanceLineage(w, g, id, w.tasks[id], c), e)
  {
    var t := w.tasks[id];
    TaskIsOk(w, e, id);
    hide Inv;
    FinishKeepsInv(w, e, id);
    if t.lineagePhase == LineageFetching {
      if MayPersist(w, g, e) { ClaimKeepsInv(w, e, id, t.(lineagePhase := LineageRecordingEvent)); }
    } else {
      RecordKeepsInv(w, e, Reconstructed());
      MoveKeepsInv(Upsert(w, e, Reconstructed()), e, id, t.(lineagePhase := LineageMakingDir));
    }
  }

  lemma LineageWriteKeepsInv(w: World, g: Guards, e: EventId, id: TaskId, c: Choice)
    requires Inv(w, e) && id in w.tasks && w.tasks[id].event == e && w.tasks[id].LineageTask?
    requires w.tasks[id].lineagePhase !in {LineageFetching, LineageRecordingEvent}
    ensures Inv(AdvanceLineage(w, g, id, w.tasks[id], c), e)
  {
    var t := w.tasks[id];
    TaskIsOk(w, e, id);
    hide Inv, MayPersist;
    FinishKeepsInv(w, e, id);
    match t.lineagePhase
    case LineageMakingDir =>
      MakeFinalKeepsInv(w, e);
      FinishKeepsInv(WithFinal(w, e), e, id);
      MoveKeepsInv(WithFinal(w, e), e, id, t.(lineagePhase := LineageWriting));
    case LineageWriting =>
      PublishKeepsInv(w, e, id, true, c);
      var (v, ok) := if HasCapture(w, e) then (w, true) else WriteFinal(w, e, true, c);
      FinishKeepsInv(v, e, id);
      if ok { MoveKeepsInv(v, e, id, t.(lineagePhase := LineageRecording)); }
    case LineageRecording =>
      RecordKeepsInv(w, e, Reconstructed());
      FinishKeepsInv(RecordCapture(w, e, Reconstructed()), e, id);
  }

  lemma AdvanceKeepsInv(w: World, g: Guards, e: EventId, id: TaskId, c: Choice)
    requires Inv(w, e) && g.lineageApart(e) && id in w.tasks && w.tasks[id].event == e
    ensures Inv(AdvanceTask(w, g, id, c), e)
  {
    hide Inv, AdvanceFetch, AdvancePost, AdvanceDiff, AdvanceLineage;
    var t := w.tasks[id];
    if t.LineageTask? {
      if t.lineagePhase in {LineageFetching, LineageRecordingEvent} { LineageStartKeepsInv(w, g, e, id, c); }
      else { LineageWriteKeepsInv(w, g, e, id, c); }
    } else if t.DiffTask? {
      if t.diffPhase in {DiffWriting, DiffRecording} {
        DiffWriteKeepsInv(w, e, id, c);
      } else if t.diffPhase in {ProvenanceLoading, ProvenanceWriting, ProvenanceRecording} {
        ProvenanceKeepsInv(w, e, id, c);
      } else {
        DiffBuildKeepsInv(w, e, id, c);
      }
    } else if t.phase in {MakingDir, Fetching, WritingCapture, RecordingEarly} {
      CollectKeepsInv(w, e, id, c);
    } else if FetchPhase(t.phase) {
      FetchKeepsInv(w, e, id, c);
    } else if t.phase == Renaming {
      RenameKeepsInv(w, e, id, c);
    } else if t.phase in {RemovingFinal, RecordingFinal} {
      PromoteKeepsInv(w, e, id, c);
    } else {
      PostKeepsInv(w, e, id, c);
    }
  }

  // ----- what other events' tasks keep

  /** Disk, store and diff requests agree about `e`. */
  ghost predicate SameDisk(w: World, v: World, e: EventId) {
    && (e in w.finals <==> e in v.finals) && (e in w.finals ==> w.finals[e] == v.finals[e])
    && (e in w.staging <==> e in v.staging) && (e in w.staging ==> w.staging[e] == v.staging[e])
    && (e in w.store <==> e in v.store) && (e in w.store ==> w.store[e] == v.store[e])
    && (forall r: DiffRequest :: r.event == e ==> (r in w.diffQueue <==> r in v.diffQueue))
  }

  ghost predicate SameTasks(w: World, v: World, e: EventId) {
    && (forall id :: id in w.tasks && w.tasks[id].event == e ==> id in v.tasks && v.tasks[id] == w.tasks[id])
    && (forall id :: id in v.tasks && v.tasks[id].event == e ==> id in w.tasks && v.tasks[id] == w.tasks[id])
  }

  /** Only the stepping task moves, and it keeps its owner. */
  ghost predicate OneMoved(w: World, v: World, id: TaskId)
    requires id in w.tasks
  {
    if id in v.tasks then v.tasks == w.tasks[id := v.tasks[id]] && SameOwner(w.tasks[id], v.tasks[id])
    else v.tasks == w.tasks - {id}
  }

  ghost predicate OthersStay(w: World, v: World, id: TaskId) {
    && (forall i :: i != id ==> (i in v.tasks <==> i in w.tasks) && (i in w.tasks ==> v.tasks[i] == w.tasks[i]))
    && (id in v.tasks && id in w.tasks ==> SameOwner(w.tasks[id], v.tasks[id]))
  }

  /** An effect for the event `f`, seen from the event `e`. */
  ghost predicate EffectFor(w: World, v: World, f: EventId, e: EventId) { v.tasks == w.tasks && (f != e ==> SameDisk(w, v, e)) }

  /** A step of the task `id`, seen from the event `e`. */
  ghost predicate Stepped(w: World, v: World, id: TaskId, e: EventId)
    requires id in w.tasks
  {
    OneMoved(w, v, id) && (w.tasks[id].event != e ==> SameDisk(w, v, e))
  }

  lemma EffectsStep(w: World, id: TaskId, e: EventId)
    requires id in w.tasks
    ensures forall v, t {:trigger Become(v, id, t)} ::
      EffectFor(w, v, w.tasks[id].event, e) && SameOwner(w.tasks[id], t) ==> Stepped(w, Become(v, id, t), id, e)
    ensures forall v {:trigger Finish(v, id)} :: EffectFor(w, v, w.tasks[id].event, e) ==> Stepped(w, Finish(v, id), id, e)
    ensures EffectFor(w, w, w.tasks[id].event, e) && Stepped(w, w, id, e)
  {
    assert w.tasks[id := w.tasks[id]] == w.tasks;
  }

  lemma WriteEffects(w: World, f: EventId, captureFile: bool, c: Choice, e: EventId)
    ensures EffectFor(w, WriteFinal(w, f, captureFile, c).0, f, e) && EffectFor(w, WriteStaging(w, f, c).0, f, e)
  {}

  lemma FinalEffects(w: World, f: EventId, c: Choice, e: EventId)
    ensures EffectFor(w, WithFinal(w, f), f, e) && EffectFor(w, ClearFinal(w, f, c), f, e)
  {}

  lemma StagingEffects(w: World, f: EventId, c: Choice, e: EventId)
    ensures EffectFor(w, MakeStaging(w, f), f, e) && EffectFor(w, RemoveStaging(w, f, c), f, e)
    ensures f in w.staging ==> EffectFor(w, Publish(w, f), f, e)
  {}

  lemma RecordEffects(w: World, f: EventId, wanted: Wanted, e: EventId)
    ensures EffectFor(w, RecordCapture(w, f, wanted), f, e) && EffectFor(w, RecordDiff(w, f, wanted), f, e)
    ensures EffectFor(w, Upsert(w, f, wanted), f, e)
    ensures forall t: Task, reached :: t.CaptureTask? && t.event == f ==> EffectFor(w, Notify(RecordCapture(w, f, wanted), t, reached), f, e)
  {
    hide Upserted;
  }

  lemma MarkEffects(w: World, f: EventId, state: JobState, e: EventId)
    ensures EffectFor(w, MarkCapture(w, f, state), f, e) && EffectFor(w, MarkDiff(w, f, state), f, e)
  {}

  lemma FetchSteps(w: World, e: EventId, id: TaskId, c: Choice)
    requires id in w.tasks && w.tasks[id].CaptureTask? && FetchPhase(w.tasks[id].phase)
    ensures Stepped(w, AdvanceFetch(w, id, w.tasks[id], c), id, e)
  {
    hide EffectFor, Stepped, Become, Finish, Notify, WriteFinal, WriteStaging, WithFinal, ClearFinal, MakeStaging, RemoveStaging, Publish;
    hide RecordCapture, RecordDiff, Upsert, MarkCapture, MarkDiff, HasCapture, HasDiff;
    var t := w.tasks[id];
    EffectsStep(w, id, e);
    WriteEffects(w, t.event, true, c, e);
    FinalEffects(w, t.event, c, e);
    StagingEffects(w, t.event, c, e);
    RecordEffects(w, t.event, t.wanted, e);
    MarkEffects(w, t.event, Failed, e);
  }

  lemma PostSteps(w: World, e: EventId, id: TaskId, c: Choice)
    requires id in w.tasks && w.tasks[id].CaptureTask?
    ensures Stepped(w, AdvancePost(w, id, w.tasks[id], c), id, e)
  {
    hide EffectFor, Stepped, Become, Finish, Notify, WriteFinal, WriteStaging, WithFinal, ClearFinal, MakeStaging, RemoveStaging, Publish;
    hide RecordCapture, RecordDiff, Upsert, MarkCapture, MarkDiff, HasCapture, HasDiff;
    var t := w.tasks[id];
    EffectsStep(w, id, e);
    WriteEffects(w, t.event, true, c, e);
    FinalEffects(w, t.event, c, e);
    StagingEffects(w, t.event, c, e);
    RecordEffects(w, t.event, t.wanted, e);
    MarkEffects(w, t.event, Skipped, e);
  }

  lemma DiffSteps(w: World, e: EventId, id: TaskId, c: Choice)
    requires id in w.tasks && w.tasks[id].DiffTask?
    ensures Stepped(w, AdvanceDiff(w, id, w.tasks[id], c), id, e)
  {
    hide EffectFor, Stepped, Become, Finish, Notify, WriteFinal, WriteStaging, WithFinal, ClearFinal, MakeStaging, RemoveStaging, Publish;
    hide RecordCapture, RecordDiff, Upsert, MarkCapture, MarkDiff, HasCapture, HasDiff;
    var t := w.tasks[id];
    EffectsStep(w, id, e);
    WriteEffects(w, t.event, true, c, e);
    WriteEffects(w, t.event, false, c, e);
    FinalEffects(w, t.event, c, e);
    StagingEffects(w, t.event, c, e);
    RecordEffects(w, t.event, t.wanted, e);
    MarkEffects(w, t.event, Skipped, e);
    MarkEffects(w, t.event, Failed, e);
  }

  lemma LineageSteps(w: World, g: Guards, e: EventId, id: TaskId, c: Choice)
    requires id in w.tasks && w.tasks[id].LineageTask?
    ensures Stepped(w, AdvanceLineage(w, g, id, w.tasks[id], c), id, e)
  {
    hide EffectFor, Stepped, Become, Finish, Notify, WriteFinal, WriteStaging, WithFinal, ClearFinal, MakeStaging, RemoveStaging, Publish;
    hide RecordCapture, RecordDiff, Upsert, MarkCapture, MarkDiff, HasCapture, HasDiff, MayPersist;
    var t := w.tasks[id];
    EffectsStep(w, id, e);
    WriteEffects(w, t.event, true, c, e);
    FinalEffects(w, t.event, c, e);
    StagingEffects(w, t.event, c, e);
    RecordEffects(w, t.event, Reconstructed(), e);
  }

  lemma TaskSteps(w: World, g: Guards, e: EventId, id: TaskId, c: Choice)
    requires id in w.tasks
    ensures Stepped(w, AdvanceTask(w, g, id, c), id, e)
  {
    hide Stepped, AdvanceFetch, AdvancePost, AdvanceDiff, AdvanceLineage;
    var t := w.tasks[id];
    if t.DiffTask? { DiffSteps(w, e, id, c); }
    else if t.LineageTask? { LineageSteps(w, g, e, id, c); }
    else if FetchPhase(t.phase) { FetchSteps(w, e, id, c); }
    else { PostSteps(w, e, id, c); }
  }

  lemma MovedOthersStay(w: World, v: World, id: TaskId)
    requires id in w.tasks && OneMoved(w, v, id)
    ensures OthersStay(w, v, id)
  {}

  /** What happens at other events keeps the invariant of `e`. */
  lemma ElsewhereKeepsInv(w: World, v: World, e: EventId)
    requires Inv(w, e) && SameDisk(w, v, e) && SameTasks(w, v, e)
    ensures Inv(v, e)
  {
    forall i | i in v.tasks && v.tasks[i].event == e ensures TaskOk(v, v.tasks[i]) { assert TaskOk(w, w.tasks[i]); }
    forall i, j {:trigger v.tasks[i], v.tasks[j]} | i in v.tasks && j in v.tasks && i != j && v.tasks[i].event == e && v.tasks[j].event == e
      ensures Compatible(v.tasks[i], v.tasks[j])
    {
      assert Compatible(w.tasks[i], w.tasks[j]);
    }
  }

  // ----- every action, and every run

  lemma AdvanceElsewhereKeepsInv(w: World, g: Guards, e: EventId, id: TaskId, c: Choice)
    requires Inv(w, e) && id in w.tasks && w.tasks[id].event != e
    ensures Inv(AdvanceTask(w, g, id, c), e)
  {
    hide Inv, AdvanceTask, OneMoved, SameDisk;
    var v := AdvanceTask(w, g, id, c);
    TaskSteps(w, g, e, id, c);
    assert SameTasks(w, v, e) by { MovedOthersStay(w, v, id); }
    ElsewhereKeepsInv(w, v, e);
  }

  /** A started capture task is checking, or about to index a directory. */
  lemma StartKeepsInv(w: World, g: Guards, e: EventId, id: TaskId, t: Task)
    requires Inv(w, e) && Guarded(g, e) && t.CaptureTask? && t.phase in {Checking, Indexing}
    ensures Inv(StartCapture(w, g, id, t), e)
  {
    if id !in w.tasks && MayStart(w, g, t) {
      if t.event == e {
        ClaimKeepsInv(w, e, id, t);
      } else {
        ElsewhereKeepsInv(w, Become(w, id, t), e);
      }
    }
  }

  lemma SpawnDiffKeepsInv(w: World, g: Guards, e: EventId, a: Action)
    requires Inv(w, e) && a.SpawnDiff?
    ensures Inv(Step(w, g, a), e)
  {
    var r := a.request;
    var t := DiffTask(r.event, r.wanted, r.forced, DiffStarting);
    if a.id !in w.tasks && r in w.diffQueue {
      var v := w.(diffQueue := w.diffQueue - {r});
      UnqueueKeepsInv(w, e, r);
      if r.event == e { ClaimKeepsInv(v, e, a.id, t); } else { ElsewhereKeepsInv(v, Become(v, a.id, t), e); }
    }
  }

  lemma SpawnLineageKeepsInv(w: World, g: Guards, e: EventId, a: Action)
    requires Inv(w, e) && a.SpawnLineage?
    ensures Inv(Step(w, g, a), e)
  {
    var t := LineageTask(a.event, LineageFetching);
    if a.id !in w.tasks {
      if a.event == e { ClaimKeepsInv(w, e, a.id, t); } else { ElsewhereKeepsInv(w, Become(w, a.id, t), e); }
    }
  }

  lemma UnqueueKeepsInv(w: World, e: EventId, r: DiffRequest)
    requires Inv(w, e)
    ensures Inv(w.(diffQueue := w.diffQueue - {r}), e)
  {
    var v := w.(diffQueue := w.diffQueue - {r});
    forall i | i in v.tasks && v.tasks[i].event == e ensures TaskOk(v, v.tasks[i]) { assert TaskOk(w, w.tasks[i]); }
  }

  lemma EscalateKeepsInv(w: World, g: Guards, e: EventId, id: TaskId)
    requires Inv(w, e)
    ensures Inv(Step(w, g, Action.Escalate(id)), e)
  {
    if id in w.tasks && MayEscalate(w.tasks[id]) {
      var t := w.tasks[id].(ask := Escalated);
      if t.event == e { MoveKeepsInv(w, e, id, t); } else { ElsewhereKeepsInv(w, Become(w, id, t), e); }
    }
  }

  lemma SweepKeepsInv(w: World, g: Guards, e: EventId, f: EventId, whole: bool)
    requires Inv(w, e) && g.sweepsApart(e)
    ensures Inv(Step(w, g, Sweep(f, whole)), e)
  {
    if f != e {
      ElsewhereKeepsInv(w, Step(w, g, Sweep(f, whole)), e);
    } else if whole {
      StagingKeepsInv(w, e, w.staging - {e});
    } else if !SweepLeavesAlone(w, g, e) {
      RemoveKeepsInv(w, e, Other);
    }
  }

  lemma StoredKeepsInv(w: World, g: Guards, e: EventId, a: Action)
    requires Inv(w, e) && (a.Observe? || a.Triage? || a.Reconcile?)
    ensures Inv(Step(w, g, a), e)
  {
    if a.event != e {
      ElsewhereKeepsInv(w, Step(w, g, a), e);
    } else if a.Triage? {
      MarkKeepsInv(w, e, Skipped);
    } else {
      RecordKeepsInv(w, e, a.wanted);
    }
  }

  /** Every action, of whatever event, keeps the invariant of an event that is guarded. */
  lemma StepKeepsInv(w: World, g: Guards, a: Action, e: EventId)
    requires Inv(w, e) && Guarded(g, e)
    ensures Inv(Step(w, g, a), e)
  {
    match a
    case Observe(_, _) => StoredKeepsInv(w, g, e, a);
    case Triage(_) => StoredKeepsInv(w, g, e, a);
    case Reconcile(_, _) => StoredKeepsInv(w, g, e, a);
    case Spawn(id, f, r, wanted, notify) => StartKeepsInv(w, g, e, id, CaptureTask(f, r, wanted, AskFor(notify), Checking));
    case SpawnDiff(_, _) => SpawnDiffKeepsInv(w, g, e, a);
    case SpawnLineage(_, _, _) => SpawnLineageKeepsInv(w, g, e, a);
    case BackfillObserved(id, f, wanted) =>
      StartKeepsInv(w, g, e, id, CaptureTask(f, Permanent, wanted, AskFor(wanted.diff), Indexing));
      StartKeepsInv(w, g, e, id, CaptureTask(f, Permanent, wanted, AskFor(wanted.diff), Checking));
    case BackfillReconstructed(id, f) =>
      StartKeepsInv(w, g, e, id, CaptureTask(f, Permanent, Reconstructed(), NoDiff, Indexing));
      StartKeepsInv(w, g, e, id, CaptureTask(f, Permanent, Reconstructed(), NoDiff, Checking));
    case Advance(id, c) =>
      if id in w.tasks {
        if w.tasks[id].event == e {
          AdvanceKeepsInv(w, g, e, id, c);
        } else {
          AdvanceElsewhereKeepsInv(w, g, e, id, c);
        }
      }
    case Escalate(id) => EscalateKeepsInv(w, g, e, id);
    case Sweep(f, whole) => SweepKeepsInv(w, g, e, f, whole);
    case Crash =>
  }

  lemma {:induction false} RunKeepsInv(g: Guards, actions: seq<Action>, e: EventId)
    requires Guarded(g, e)
    ensures Inv(Run(Start, g, actions), e)
  {
    if actions != [] {
      RunKeepsInv(g, actions[..|actions| - 1], e);
      StepKeepsInv(Run(Start, g, actions[..|actions| - 1]), g, actions[|actions| - 1], e);
    }
  }

  // ----- what goes wrong otherwise

  ghost predicate AlwaysSafe(g: Guards, e: EventId) {
    forall actions :: Safe(Run(Start, g, actions), e)
  }

  lemma {:induction false} RunConcat(w: World, g: Guards, first: seq<Action>, second: seq<Action>)
    ensures Run(w, g, first + second) == Run(Run(w, g, first), g, second)
    decreases |second|
  {
    if second == [] {
      assert first + second == first;
    } else {
      var last := |second| - 1;
      RunConcat(w, g, first, second[..last]);
      assert (first + second)[..|first + second| - 1] == first + second[..last];
    }
  }

  lemma RunOne(w: World, g: Guards, a: Action)
    ensures Run(w, g, [a]) == Step(w, g, a)
  {
    assert [a][..0] == [];
  }

  lemma RunTwo(w: World, g: Guards, a: Action, b: Action)
    ensures Run(w, g, [a, b]) == Step(Step(w, g, a), g, b)
  {
    hide Step;
    RunOne(w, g, a);
    assert [a, b][..1] == [a];
  }

  function Thrice(id: TaskId): seq<Action> { [Advance(id, Go), Advance(id, Go), Advance(id, Go)] }

  lemma ThriceRuns(w: World, g: Guards, id: TaskId)
    ensures var a := Advance(id, Go);
      Run(w, g, Thrice(id)) == Step(Step(Step(w, g, a), g, a), g, a)
  {
    var a := Advance(id, Go);
    RunTwo(w, g, a, a);
    assert Thrice(id)[..2] == [a, a];
  }

  const Both := Wanted(true, true)

  function Staging(e: EventId, phase: Phase): Task { CaptureTask(e, Ephemeral, Both, Asked, phase) }

  /** A staged capture that saw no `capture.json` fetches whatever others do. */
  lemma FetchRuns(w: World, g: Guards, id: TaskId, e: EventId)
    requires id in w.tasks && w.tasks[id] == Staging(e, CleaningStaging)
    ensures Run(w, g, Thrice(id)) == w.(staging := w.staging[e := false], tasks := w.tasks[id := Staging(e, WritingCapture)])
  {
    ThriceRuns(w, g, id);
    var a := Advance(id, Go);
    var w1 := Step(w, g, a);
    var w2 := Step(w1, g, a);
    assert w2.staging == w.staging[e := false];
    assert Step(w2, g, a).tasks == w.tasks[id := Staging(e, WritingCapture)];
  }

  lemma AnalyseRuns(w: World, g: Guards, id: TaskId, e: EventId)
    requires id in w.tasks && w.tasks[id] == Staging(e, WritingCapture) && e in w.staging
    ensures Run(w, g, Thrice(id)) == w.(staging := w.staging[e := true], tasks := w.tasks[id := Staging(e, RemovingFinal)])
  {
    ThriceRuns(w, g, id);
    var a := Advance(id, Go);
    var w1 := Step(w, g, a);
    var w2 := Step(w1, g, a);
    assert w2.staging == w.staging[e := true];
    assert Step(w2, g, a).tasks == w.tasks[id := Staging(e, RemovingFinal)];
  }

  lemma StageRuns(w: World, g: Guards, id: TaskId, e: EventId)
    requires id in w.tasks && w.tasks[id] == Staging(e, CleaningStaging)
    ensures Run(w, g, Thrice(id) + Thrice(id)) == w.(staging := w.staging[e := true], tasks := w.tasks[id := Staging(e, RemovingFinal)])
  {
    RunConcat(w, g, Thrice(id), Thrice(id));
    FetchRuns(w, g, id, e);
    AnalyseRuns(Run(w, g, Thrice(id)), g, id, e);
    assert w.staging[e := false][e := true] == w.staging[e := true];
  }

  predicate ReadyAt(w: World, e: EventId) { e in w.store && w.store[e].capture == Ready }

  lemma RenameRecords(w: World, g: Guards, id: TaskId, e: EventId)
    requires id in w.tasks && w.tasks[id] == Staging(e, Renaming) && e in w.staging && e !in w.finals
    ensures var v := Step(Step(w, g, Advance(id, Go)), g, Advance(id, Go));
      ReadyAt(v, e) && (HasCapture(v, e) <==> w.staging[e]) && v.tasks == w.tasks - {id}
  {
    var w2 := Step(w, g, Advance(id, Go));
    assert w2.finals == w.finals[e := Files(w.staging[e], false)];
    assert w2.tasks == w.tasks[id := Staging(e, RecordingFinal)];
    assert w2.tasks - {id} == w.tasks - {id};
  }

  lemma PromoteRuns(w: World, g: Guards, id: TaskId, e: EventId)
    requires id in w.tasks && w.tasks[id] == Staging(e, RemovingFinal) && e in w.staging
    ensures var v := Run(w, g, Thrice(id)); ReadyAt(v, e) && v.tasks == w.tasks - {id}
  {
    ThriceRuns(w, g, id);
    var w1 := Step(w, g, Advance(id, Go));
    assert w1 == w.(finals := w.finals - {e}, tasks := w.tasks[id := Staging(e, Renaming)]);
    RenameRecords(w1, g, id, e);
    assert w1.tasks - {id} == w.tasks - {id};
  }

  function Strand(id: TaskId): seq<Action> { Thrice(id) + Thrice(id) + [Advance(id, Go), Crash] }

  /** A staged capture that started before its event became ready clears the directory,
      and a crash keeps it from publishing its own. */
  lemma StagedStrands(w: World, g: Guards, id: TaskId, e: EventId)
    requires id in w.tasks && w.tasks[id] == Staging(e, CleaningStaging) && ReadyAt(w, e)
    ensures var v := Run(w, g, Strand(id)); ReadyAt(v, e) && !HasCapture(v, e)
  {
    StageRuns(w, g, id, e);
    var v := Run(w, g, Thrice(id) + Thrice(id));
    RunConcat(w, g, Thrice(id) + Thrice(id), [Advance(id, Go), Crash]);
    RunTwo(v, g, Advance(id, Go), Crash);
  }

  // ----- two captures of one event

  function BothStart(e: EventId): seq<Action> {
    [Spawn(0, e, Ephemeral, Both, true), Spawn(1, e, Ephemeral, Both, true)] + [Advance(0, Go), Advance(1, Go)]
  }

  function Overlap(e: EventId): seq<Action> {
    BothStart(e) + (Thrice(0) + Thrice(0)) + Thrice(0) + Strand(1)
  }

  lemma BothSpawned(g: Guards, e: EventId)
    requires !g.exclusive(e)
    ensures Step(Step(Start, g, Spawn(0, e, Ephemeral, Both, true)), g, Spawn(1, e, Ephemeral, Both, true))
      == Start.(tasks := map[0 := Staging(e, Checking), 1 := Staging(e, Checking)])
  {
    var w := Step(Start, g, Spawn(0, e, Ephemeral, Both, true));
    assert w.tasks == map[0 := Staging(e, Checking)];
  }

  lemma BothChecked(g: Guards, e: EventId, w: World)
    requires w == Start.(tasks := map[0 := Staging(e, Checking), 1 := Staging(e, Checking)])
    ensures Step(Step(w, g, Advance(0, Go)), g, Advance(1, Go))
      == Start.(tasks := map[0 := Staging(e, CleaningStaging), 1 := Staging(e, CleaningStaging)])
  {
    var v := Step(w, g, Advance(0, Go));
    assert v.tasks == map[0 := Staging(e, CleaningStaging), 1 := Staging(e, Checking)];
  }

  lemma BothStarted(g: Guards, e: EventId)
    requires !g.exclusive(e)
    ensures Run(Start, g, BothStart(e)) == Start.(tasks := map[0 := Staging(e, CleaningStaging), 1 := Staging(e, CleaningStaging)])
  {
    var a, b := Spawn(0, e, Ephemeral, Both, true), Spawn(1, e, Ephemeral, Both, true);
    BothSpawned(g, e);
    var w := Step(Step(Start, g, a), g, b);
    BothChecked(g, e, w);
    hide Step;
    RunTwo(Start, g, a, b);
    RunTwo(w, g, Advance(0, Go), Advance(1, Go));
    RunConcat(Start, g, [a, b], [Advance(0, Go), Advance(1, Go)]);
  }

  /** Two captures of one event that both found no `capture.json`: the first is promoted
      and recorded, the second clears the directory, and a crash follows. */
  lemma OverlapStrands(g: Guards, e: EventId)
    requires !g.exclusive(e)
    ensures var w := Run(Start, g, Overlap(e)); ReadyAt(w, e) && !HasCapture(w, e)
  {
    var p := BothStart(e);
    BothStarted(g, e);
    var w1 := Run(Start, g, p);
    RunConcat(Start, g, p, Thrice(0) + Thrice(0));
    StageRuns(w1, g, 0, e);
    var w2 := Run(w1, g, Thrice(0) + Thrice(0));
    RunConcat(Start, g, p + (Thrice(0) + Thrice(0)), Thrice(0));
    PromoteRuns(w2, g, 0, e);
    assert w2.tasks - {0} == map[1 := Staging(e, CleaningStaging)];
    RunConcat(Start, g, p + (Thrice(0) + Thrice(0)) + Thrice(0), Strand(1));
    StagedStrands(Run(w2, g, Thrice(0)), g, 1, e);
  }

  // ----- a capture and a lineage backfill of one event

  function HostStart(e: EventId): seq<Action> { [Spawn(0, e + 1, Ephemeral, Both, true), Advance(0, Go)] }

  function HostDecides(e: EventId): seq<Action> { HostStart(e) + Thrice(0) + [Advance(0, Go), Advance(0, Go)] }

  function LineageAsked(e: EventId): seq<Action> { [SpawnLineage(1, 0, e), Spawn(2, e, Ephemeral, Both, true)] }

  function Answered(): seq<Action> { [Advance(2, Go), Advance(1, Go)] + Thrice(1) + [Advance(1, Go)] }

  function LateLineage(e: EventId): seq<Action> { HostDecides(e) + LineageAsked(e) + Answered() + Strand(2) }

  lemma HostDecided(g: Guards, e: EventId)
    ensures Run(Start, g, HostDecides(e)) == Start.(staging := map[e + 1 := true], tasks := map[0 := Staging(e + 1, Deciding)])
  {
    var a := Advance(0, Go);
    var w0 := Start.(tasks := map[0 := Staging(e + 1, CleaningStaging)]);
    RunTwo(Start, g, Spawn(0, e + 1, Ephemeral, Both, true), a);
    assert Run(Start, g, HostStart(e)) == w0;
    FetchRuns(w0, g, 0, e + 1);
    var w1 := Run(w0, g, Thrice(0));
    assert w1 == Start.(staging := map[e + 1 := false], tasks := map[0 := Staging(e + 1, WritingCapture)]);
    RunConcat(Start, g, HostStart(e), Thrice(0));
    RunConcat(Start, g, HostStart(e) + Thrice(0), [a, a]);
    HostAnalysed(g, e);
  }

  lemma HostAnalysed(g: Guards, e: EventId)
    ensures Run(Start.(staging := map[e + 1 := false], tasks := map[0 := Staging(e + 1, WritingCapture)]), g, [Advance(0, Go), Advance(0, Go)])
      == Start.(staging := map[e + 1 := true], tasks := map[0 := Staging(e + 1, Deciding)])
  {
    var a := Advance(0, Go);
    var w := Start.(staging := map[e + 1 := false], tasks := map[0 := Staging(e + 1, WritingCapture)]);
    RunTwo(w, g, a, a);
    var v := Step(w, g, a);
    assert v.tasks == map[0 := Staging(e + 1, PostWriting)] && v.staging == map[e + 1 := true];
  }

  /** A release arrives while its lineage backfill waits for the registry. */
  lemma ArrivesLate(g: Guards, e: EventId, w: World)
    requires !g.lineageApart(e) && w == Start.(staging := map[e + 1 := true], tasks := map[0 := Staging(e + 1, Deciding)])
    ensures Run(w, g, LineageAsked(e)) == w.(tasks := w.tasks[1 := LineageTask(e, LineageFetching)][2 := Staging(e, Checking)])
  {
    RunTwo(w, g, SpawnLineage(1, 0, e), Spawn(2, e, Ephemeral, Both, true));
  }

  lemma LineageWrites(w: World, g: Guards, e: EventId)
    requires 1 in w.tasks && w.tasks[1] == LineageTask(e, LineageRecordingEvent)
    ensures var a := Advance(1, Go); var v := Step(Step(Step(w, g, a), g, a), g, a);
      v.tasks == w.tasks[1 := LineageTask(e, LineageRecording)]
  {
    var a := Advance(1, Go);
    var w1 := Step(w, g, a);
    assert w1.tasks == w.tasks[1 := LineageTask(e, LineageMakingDir)];
    var w2 := Step(w1, g, a);
    assert w2.tasks == w.tasks[1 := LineageTask(e, LineageWriting)] && e in w2.finals;
    assert Step(w2, g, a).tasks == w.tasks[1 := LineageTask(e, LineageRecording)];
  }

  lemma LineageRuns(w: World, g: Guards, e: EventId)
    requires !g.lineageApart(e) && !HasCapture(w, e)
    requires 1 in w.tasks && 2 in w.tasks && w.tasks[1] == LineageTask(e, LineageFetching) && w.tasks[2] == Staging(e, Checking)
    ensures var v := Run(w, g, Answered()); ReadyAt(v, e) && 2 in v.tasks && v.tasks[2] == Staging(e, CleaningStaging)
  {
    var a := Advance(1, Go);
    RunTwo(w, g, Advance(2, Go), a);
    var w1 := Step(Step(w, g, Advance(2, Go)), g, a);
    RunConcat(w, g, [Advance(2, Go), a], Thrice(1));
    ThriceRuns(w1, g, 1);
    RunConcat(w, g, [Advance(2, Go), a] + Thrice(1), [a]);
    LineageWrites(w1, g, e);
    RunOne(Run(w1, g, Thrice(1)), g, a);
  }

  /** While a lineage backfill of an event waits for the registry, a staged capture of it
      starts; the backfill makes the event ready, the capture clears the directory, and a
      crash follows. */
  lemma LineageStrands(g: Guards, e: EventId)
    requires !g.lineageApart(e)
    ensures var w := Run(Start, g, LateLineage(e)); ReadyAt(w, e) && !HasCapture(w, e)
  {
    HostDecided(g, e);
    var w := Run(Start, g, HostDecides(e));
    RunConcat(Start, g, HostDecides(e), LineageAsked(e));
    ArrivesLate(g, e, w);
    var v := Run(w, g, LineageAsked(e));
    RunConcat(Start, g, HostDecides(e) + LineageAsked(e), Answered());
    LineageRuns(v, g, e);
    RunConcat(Start, g, HostDecides(e) + LineageAsked(e) + Answered(), Strand(2));
    StagedStrands(Run(v, g, Answered()), g, 2, e);
  }

  // ----- a capture and a half-finished sweep

  function HalfSwept(e: EventId): seq<Action> {
    [Spawn(0, e, Ephemeral, Both, true), Advance(0, Go)] + (Thrice(0) + Thrice(0)) + [Advance(0, Go), Sweep(e, false)] + [Advance(0, Go), Advance(0, Go)]
  }

  lemma SweptPublishes(w: World, g: Guards, e: EventId)
    requires !g.sweepsApart(e)
    requires 0 in w.tasks && w.tasks[0] == Staging(e, RemovingFinal) && e in w.staging && e !in w.finals
    ensures var v := Step(Step(w, g, Advance(0, Go)), g, Sweep(e, false));
      v == w.(staging := w.staging[e := false], tasks := w.tasks[0 := Staging(e, Renaming)])
  {
    assert w.finals - {e} == w.finals;
  }

  /** A sweep that has removed `capture.json` and not yet the directory: the rename
      publishes what is left, and the event is recorded ready without any crash. */
  lemma SweepStrands(g: Guards, e: EventId)
    requires !g.sweepsApart(e)
    ensures var w := Run(Start, g, HalfSwept(e)); ReadyAt(w, e) && !HasCapture(w, e)
  {
    var a := Advance(0, Go);
    var p := [Spawn(0, e, Ephemeral, Both, true), a];
    RunTwo(Start, g, Spawn(0, e, Ephemeral, Both, true), a);
    var w0 := Run(Start, g, p);
    assert w0 == Start.(tasks := map[0 := Staging(e, CleaningStaging)]);
    RunConcat(Start, g, p, Thrice(0) + Thrice(0));
    StageRuns(w0, g, 0, e);
    var w1 := Run(w0, g, Thrice(0) + Thrice(0));
    RunConcat(Start, g, p + (Thrice(0) + Thrice(0)), [a, Sweep(e, false)]);
    RunTwo(w1, g, a, Sweep(e, false));
    SweptPublishes(w1, g, e);
    var w2 := Run(w1, g, [a, Sweep(e, false)]);
    RunConcat(Start, g, p + (Thrice(0) + Thrice(0)) + [a, Sweep(e, false)], [a, a]);
    RunTwo(w2, g, a, a);
    RenameRecords(w2, g, 0, e);
  }

  /** A ready event keeps its files in every run, whatever the other events' tasks do,
      exactly when its captures exclude each other, lineage backfills stay out of its
      staged captures, and sweeps are whole. */
  lemma AlwaysSafeIff(g: Guards, e: EventId)
    ensures AlwaysSafe(g, e) <==> Guarded(g, e)
  {
    if Guarded(g, e) {
      forall actions ensures Safe(Run(Start, g, actions), e) { RunKeepsInv(g, actions, e); }
    } else if !g.exclusive(e) {
      OverlapStrands(g, e);
      assert !Safe(Run(Start, g, Overlap(e)), e);
    } else if !g.lineageApart(e) {
      LineageStrands(g, e);
      assert !Safe(Run(Start, g, LateLineage(e)), e);
    } else {
      SweepStrands(g, e);
      assert !Safe(Run(Start, g, HalfSwept(e)), e);
    }
  }

  /** The program as written keeps none of this apart, so no event is safe in all runs. */
  lemma AsWrittenNeverSafe(e: EventId)
    ensures !AlwaysSafe(AsWritten(), e)
  {
    AlwaysSafeIff(AsWritten(), e);
  }
}
