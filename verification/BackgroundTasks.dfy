/** The life of detached background tasks, as kept in their status records. */
module BackgroundTasks {
  import opened Options
  import opened Decimals

  type TaskId = string

  const MAX_EVENT_HISTORY: nat := 50
  const CANCELLED := "Cancelled by user"

  datatype Status = Running | Completed | Superseded | Failed

  datatype Source = Reported | ParsedOutput | Heuristic

  /** Progress as normalised by its sender. */
  datatype Progress = Progress(message: Option<string>, percent: Option<int>, current: Option<nat>, total: Option<nat>,
                               source: Source, otherFields: string)

  datatype EventKind =
    | ProgressMade | Checkpoint | TaskCompleted | TaskFailed | TaskSuperseded | TaskCancelled | DeliveryUpdated

  datatype EventRecord = EventRecord(kind: EventKind, message: Option<string>, status: Status, exitCode: Option<int>,
                                     progress: Option<Progress>)

  datatype TaskStatus = TaskStatus(
    status: Status,
    exitCode: Option<int>,
    error: Option<string>,
    completedAt: Option<nat>,
    pid: Option<nat>,
    detached: bool,
    notify: bool,
    wake: bool,
    progress: Option<Progress>,
    eventHistory: seq<EventRecord>)

  /** What the platform says about a task's process at the moment it is looked at. */
  datatype Probe = Probe(reaped: Option<int>, alive: bool, markerCode: Option<int>, now: nat)

  predicate Gone(p: Probe) { p.reaped.Some? || !p.alive }

  function Pushed(history: seq<EventRecord>, e: EventRecord): (r: seq<EventRecord>)
    ensures r != [] && r[|r| - 1] == e
    ensures |history| <= MAX_EVENT_HISTORY ==> |r| <= MAX_EVENT_HISTORY
  {
    var longer := history + [e];
    if |longer| > MAX_EVENT_HISTORY then longer[|longer| - MAX_EVENT_HISTORY..] else longer
  }

  function TerminalKind(status: Status, error: Option<string>): EventKind {
    match status
    case Completed => TaskCompleted
    case Superseded => TaskSuperseded
    case Failed => if error == Some(CANCELLED) then TaskCancelled else TaskFailed
    case Running => ProgressMade
  }

  /** Ends a task and records the event. */
  function Ended(t: TaskStatus, status: Status, exitCode: Option<int>, error: Option<string>, now: nat): TaskStatus {
    t.(status := status, exitCode := exitCode, error := error, completedAt := Some(now),
       eventHistory := Pushed(t.eventHistory, EventRecord(TerminalKind(status, error), error, status, exitCode, None)))
  }

  /** A detached running task whose process is gone. */
  predicate Finishes(t: TaskStatus, p: Probe) {
    t.status.Running? && t.detached && t.pid.Some? && Gone(p)
  }

  function ExitCode(p: Probe): Option<int> { if p.reaped.Some? then p.reaped else p.markerCode }

  function ExitText(code: Option<int>): Option<string> {
    if code == Some(0) then None
    else Some(if code.Some? then "Command exited with code " + Number(code.value)
              else "Detached command exited without a readable exit code")
  }

  function Number(n: int): string { if n < 0 then "-" + Print(-n) else Print(n) }

  function Finalized(t: TaskStatus, p: Probe): TaskStatus {
    if !Finishes(t, p) then t
    else Ended(t, if ExitCode(p) == Some(0) then Completed else Failed, ExitCode(p), ExitText(ExitCode(p)), p.now)
  }

  predicate Determinate(p: Progress) { p.percent.Some? || (p.total.Some? && p.total.value > 0) }

  /** Progress that says nothing new, or says less from parsed output, is ignored. */
  predicate Ignored(existing: Option<Progress>, p: Progress) {
    existing.Some? &&
    (existing.value == p || (Determinate(existing.value) && !Determinate(p) && p.source.ParsedOutput?))
  }

  function Progressed(t: TaskStatus, p: Progress, kind: EventKind): TaskStatus {
    if Ignored(t.progress, p) then t
    else t.(progress := Some(p),
            eventHistory := Pushed(t.eventHistory, EventRecord(kind, p.message, Running, None, Some(p))))
  }

  function Redelivered(t: TaskStatus, notify: bool, wake: bool): TaskStatus {
    var text := DeliveryText(notify || wake, wake);
    var event := EventRecord(DeliveryUpdated, Some(text), t.status, t.exitCode, t.progress);
    t.(notify := notify || wake, wake := wake, eventHistory := Pushed(t.eventHistory, event))
  }

  function YesNo(b: bool): string { if b then "true" else "false" }

  function DeliveryText(notify: bool, wake: bool): string { "notify=" + YesNo(notify) + ", wake=" + YesNo(wake) }

  /** Cancelling looks at the process first; only a task still running is ended by the cancel itself. */
  predicate Cancels(t: TaskStatus, p: Probe) {
    t.status.Running? && t.detached && t.pid.Some? && !Gone(p)
  }

  function Cancelled(t: TaskStatus, p: Probe): TaskStatus {
    if Cancels(t, p) then Ended(t, Failed, None, Some(CANCELLED), p.now) else Finalized(t, p)
  }

  /** Status records, and for each task how many completion events went out. */
  datatype Store = Store(files: map<TaskId, TaskStatus>, published: multiset<TaskId>)

  function Registered(pid: nat, notify: bool, wake: bool): TaskStatus {
    TaskStatus(Running, None, None, None, Some(pid), true, notify || wake, wake, None, [])
  }

  datatype Op =
    | Register(id: TaskId, pid: nat, notify: bool, wake: bool)
    | Look(id: TaskId, probe: Probe)
    | ListAll(probes: TaskId -> Probe)
    | UpdateProgress(id: TaskId, progress: Progress, checkpoint: bool)
    | UpdateDelivery(id: TaskId, notify: bool, wake: bool)
    | Cancel(id: TaskId, probe: Probe)

  function Publishes(files: map<TaskId, TaskStatus>, probes: TaskId -> Probe): set<TaskId> {
    set id | id in files && Finishes(files[id], probes(id))
  }

  function Next(s: Store, op: Op): Store {
    match op
    case Register(id, pid, notify, wake) => s.(files := s.files[id := Registered(pid, notify, wake)])
    case Look(id, p) =>
      if id !in s.files then s
      else Store(s.files[id := Finalized(s.files[id], p)],
                 s.published + if Finishes(s.files[id], p) then multiset{id} else multiset{})
    case ListAll(probes) =>
      Store(AfterLooking(s, probes), s.published + multiset(Publishes(s.files, probes)))
    case UpdateProgress(id, p, checkpoint) =>
      if id !in s.files then s
      else s.(files := s.files[id := Progressed(s.files[id], p, if checkpoint then Checkpoint else ProgressMade)])
    case UpdateDelivery(id, notify, wake) =>
      if id !in s.files then s else s.(files := s.files[id := Redelivered(s.files[id], notify, wake)])
    case Cancel(id, p) =>
      if id !in s.files then s
      else Store(s.files[id := Cancelled(s.files[id], p)],
                 s.published + if Finishes(s.files[id], p) then multiset{id} else multiset{})
  }

  /** Ids are not reused. */
  predicate Allowed(s: Store, op: Op) { op.Register? ==> op.id !in s.files && s.published[op.id] == 0 }

  predicate RunAllowed(s: Store, ops: seq<Op>)
    decreases |ops|
  {
    ops != [] ==> Allowed(s, ops[0]) && RunAllowed(Next(s, ops[0]), ops[1..])
  }

  function Run(s: Store, ops: seq<Op>): Store
    decreases |ops|
  {
    if ops == [] then s else Run(Next(s, ops[0]), ops[1..])
  }

  // ---------- one step ----------

  /** The process of `id` was looked at and found gone. */
  predicate SeenGone(op: Op, id: TaskId) {
    match op
    case Look(i, p) => i == id && Gone(p)
    case ListAll(probes) => Gone(probes(id))
    case Cancel(i, p) => i == id && Gone(p)
    case _ => false
  }

  predicate IsCancel(op: Op, id: TaskId) { op.Cancel? && op.id == id }

  /** A running detached task ends in a step exactly when its process was seen gone or it was cancelled. */
  lemma EndsIff(s: Store, op: Op, id: TaskId)
    requires id in s.files && Allowed(s, op)
    requires s.files[id].status.Running? && s.files[id].detached && s.files[id].pid.Some?
    ensures id in Next(s, op).files
    ensures !Next(s, op).files[id].status.Running? <==> SeenGone(op, id) || IsCancel(op, id)
    ensures IsCancel(op, id) && !SeenGone(op, id) ==>
      Next(s, op).files[id].status.Failed? && Next(s, op).files[id].error == Some(CANCELLED)
    ensures Next(s, op).published[id] == s.published[id] + if SeenGone(op, id) then 1 else 0
    ensures SeenGone(op, id) ==> EndedAs(Next(s, op).files[id], ProbeOf(op, id))
  {
  }

  /** How the process of `id` was found by a look, a listing or a cancel. */
  function ProbeOf(op: Op, id: TaskId): Probe
    requires SeenGone(op, id)
  {
    match op
    case Look(_, p) => p
    case ListAll(probes) => probes(id)
    case Cancel(_, p) => p
  }

  /**
   * A task whose process is gone completed exactly when its exit code is 0: the reaped one, or the one its output
   * marks when nothing was reaped. An error text is kept exactly when it did not.
   */
  predicate EndedAs(t: TaskStatus, p: Probe) {
    var code := if p.reaped.Some? then p.reaped else p.markerCode;
    && (t.status.Completed? <==> code == Some(0)) && (t.status.Failed? <==> code != Some(0))
    && t.exitCode == code && (t.error.None? <==> code == Some(0)) && t.completedAt == Some(p.now)
  }

  /** The newest event tells how the task ended: its kind, status, exit code and text are those of the end. */
  predicate RecordsEnd(t: TaskStatus) {
    && t.eventHistory != [] && var e := t.eventHistory[|t.eventHistory| - 1];
    && e.status == t.status && e.exitCode == t.exitCode && e.message == t.error
    && (e.kind.TaskCompleted? <==> t.status.Completed?)
    && (e.kind.TaskCancelled? <==> t.error == Some("Cancelled by user"))
    && (e.kind.TaskFailed? <==> t.status.Failed? && t.error != Some("Cancelled by user"))
  }

  lemma EndedRecordsEnd(t: TaskStatus, status: Status, code: Option<int>, error: Option<string>, now: nat)
    requires status.Failed? || (status.Completed? && error.None?)
    ensures RecordsEnd(Ended(t, status, code, error, now))
  {
  }

  lemma FinalizedRecordsEnd(t: TaskStatus, p: Probe)
    requires Finishes(t, p)
    ensures RecordsEnd(Finalized(t, p))
  {
    var code := ExitCode(p);
    EndedRecordsEnd(t, if code == Some(0) then Completed else Failed, code, ExitText(code), p.now);
  }

  lemma CancelledRecordsEnd(t: TaskStatus, p: Probe)
    requires t.status.Running? && !Cancelled(t, p).status.Running?
    ensures RecordsEnd(Cancelled(t, p))
  {
    if Cancels(t, p) {
      EndedRecordsEnd(t, Failed, None, Some(CANCELLED), p.now);
    } else {
      FinalizedRecordsEnd(t, p);
    }
  }

  /** However a running task ends, its newest event says so. */
  lemma EndIsRecorded(s: Store, op: Op, id: TaskId)
    requires id in s.files && Allowed(s, op) && s.files[id].status.Running?
    requires id in Next(s, op).files && !Next(s, op).files[id].status.Running?
    ensures RecordsEnd(Next(s, op).files[id])
  {
    var t := s.files[id];
    match op
    case Look(i, p) => FinalizedRecordsEnd(t, p);
    case ListAll(probes) => FinalizedRecordsEnd(t, probes(id));
    case Cancel(i, p) => CancelledRecordsEnd(t, p);
    case _ =>
  }

  /** New progress replaces the old unless it has no amount, was only parsed from output, and the old has one. */
  lemma ProgressStored(s: Store, id: TaskId, p: Progress, checkpoint: bool)
    requires id in s.files
    ensures var t := s.files[id]; var t' := Next(s, UpdateProgress(id, p, checkpoint)).files[id];
      var hasAmount := p.percent.Some? || (p.total.Some? && p.total.value > 0);
      var hadAmount := t.progress.Some? && var q := t.progress.value;
                       (q.percent.Some? || (q.total.Some? && q.total.value > 0));
      && (t'.progress == Some(p) <==> t.progress == Some(p) || !hadAmount || hasAmount || !p.source.ParsedOutput?)
      && (t'.progress != Some(p) || t.progress == Some(p) ==> t' == t)
      && Outcome(t') == Outcome(t)
  {
  }

  /** Waking includes notifying, from registration and from every later change on. */
  lemma DeliveryNormalised(s: Store, id: TaskId, pid: nat, notify: bool, wake: bool)
    ensures var t := Next(s, Register(id, pid, notify, wake)).files[id];
      t.status.Running? && t.detached && t.pid == Some(pid) && t.wake == wake && (t.notify <==> notify || wake)
    ensures id in s.files ==>
      var t := Next(s, UpdateDelivery(id, notify, wake)).files[id];
      t.wake == wake && (t.notify <==> notify || wake) && Outcome(t) == Outcome(s.files[id])
  {
  }

  /** What is final about a finished task. */
  function Outcome(t: TaskStatus): (Status, Option<int>, Option<string>, Option<nat>) {
    (t.status, t.exitCode, t.error, t.completedAt)
  }

  lemma OutcomeStays(s: Store, op: Op, id: TaskId)
    requires id in s.files && Allowed(s, op) && !s.files[id].status.Running?
    ensures id in Next(s, op).files && Outcome(Next(s, op).files[id]) == Outcome(s.files[id])
    ensures Next(s, op).published[id] == s.published[id]
  {
  }

  // ---------- runs ----------

  /** Only finished tasks have been announced, and at most once; histories are bounded. */
  ghost predicate Inv(s: Store) {
    && (forall id :: s.published[id] <= 1)
    && (forall id :: s.published[id] == 1 ==> id in s.files && !s.files[id].status.Running?)
    && (forall id :: id in s.files ==> |s.files[id].eventHistory| <= MAX_EVENT_HISTORY)
  }

  lemma NextAnnouncesOnce(s: Store, op: Op, id: TaskId)
    requires s.published[id] <= 1 && Allowed(s, op)
    requires s.published[id] == 1 ==> id in s.files && !s.files[id].status.Running?
    ensures var s' := Next(s, op);
      s'.published[id] <= 1 && (s'.published[id] == 1 ==> id in s'.files && !s'.files[id].status.Running?)
  {
    if id in s.files && !s.files[id].status.Running? {
      OutcomeStays(s, op, id);
    }
  }

  lemma NextBoundsHistory(s: Store, op: Op, id: TaskId)
    requires id in s.files ==> |s.files[id].eventHistory| <= MAX_EVENT_HISTORY
    ensures id in Next(s, op).files ==> |Next(s, op).files[id].eventHistory| <= MAX_EVENT_HISTORY
  {
  }

  lemma NextKeepsInv(s: Store, op: Op)
    requires Inv(s) && Allowed(s, op)
    ensures Inv(Next(s, op))
  {
    var s' := Next(s, op);
    forall id
      ensures s'.published[id] <= 1 && (s'.published[id] == 1 ==> id in s'.files && !s'.files[id].status.Running?)
    {
      NextAnnouncesOnce(s, op, id);
    }
    forall id | id in s'.files ensures |s'.files[id].eventHistory| <= MAX_EVENT_HISTORY {
      NextBoundsHistory(s, op, id);
    }
  }

  /** A finished task keeps its outcome for ever, and is announced at most once. */
  lemma {:induction false} FinishedForEver(s: Store, ops: seq<Op>, id: TaskId)
    requires Inv(s) && RunAllowed(s, ops)
    ensures Inv(Run(s, ops))
    ensures id in s.files && !s.files[id].status.Running? ==>
      id in Run(s, ops).files && Outcome(Run(s, ops).files[id]) == Outcome(s.files[id])
      && Run(s, ops).published[id] == s.published[id]
    decreases |ops|
  {
    if ops != [] {
      NextKeepsInv(s, ops[0]);
      if id in s.files && !s.files[id].status.Running? {
        OutcomeStays(s, ops[0], id);
      }
      FinishedForEver(Next(s, ops[0]), ops[1..], id);
    }
  }

  /** How a task was found to end is how it stays, and it is announced once more than before, for ever. */
  lemma GoneForEver(s: Store, op: Op, ops: seq<Op>, id: TaskId)
    requires Inv(s) && id in s.files && Allowed(s, op) && RunAllowed(Next(s, op), ops)
    requires s.files[id].status.Running? && s.files[id].detached && s.files[id].pid.Some? && SeenGone(op, id)
    ensures var last := Run(Next(s, op), ops);
      && id in last.files && EndedAs(last.files[id], ProbeOf(op, id))
      && last.published[id] == s.published[id] + 1
  {
    NextKeepsInv(s, op);
    EndsIff(s, op, id);
    FinishedForEver(Next(s, op), ops, id);
  }

  function Empty(): Store { Store(map[], multiset{}) }

  /** From an empty store on, every id is announced at most once, and only once its task has finished. */
  lemma AnnouncedOnce(ops: seq<Op>, id: TaskId)
    requires RunAllowed(Empty(), ops)
    ensures var s := Run(Empty(), ops);
      s.published[id] <= 1 && (s.published[id] == 1 ==> id in s.files && !s.files[id].status.Running?)
  {
    FinishedForEver(Empty(), ops, id);
  }

  predicate LeftAlone(ops: seq<Op>, id: TaskId) {
    forall i :: 0 <= i < |ops| ==> !SeenGone(ops[i], id) && !IsCancel(ops[i], id)
  }

  /** A live task runs on and stays unannounced in any run that neither sees its process gone nor cancels it. */
  lemma {:induction false} LiveRunsOn(s: Store, ops: seq<Op>, id: TaskId)
    requires id in s.files && s.files[id].status.Running? && s.files[id].detached && s.files[id].pid.Some?
    requires RunAllowed(s, ops)
    ensures LeftAlone(ops, id) <==> id in Run(s, ops).files && Run(s, ops).files[id].status.Running?
    ensures LeftAlone(ops, id) ==> Run(s, ops).published[id] == s.published[id]
    decreases |ops|
  {
    if ops != [] {
      var s' := Next(s, ops[0]);
      EndsIff(s, ops[0], id);
      assert LeftAlone(ops, id) <==> !SeenGone(ops[0], id) && !IsCancel(ops[0], id) && LeftAlone(ops[1..], id) by {
        assert forall i :: 0 < i < |ops| ==> ops[i] == ops[1..][i - 1];
      }
      if s'.files[id].status.Running? {
        StaysDetached(s, ops[0], id);
        LiveRunsOn(s', ops[1..], id);
      } else {
        StaysEnded(s', ops[1..], id);
      }
    }
  }

  lemma StaysDetached(s: Store, op: Op, id: TaskId)
    requires id in s.files && Allowed(s, op)
    ensures id in Next(s, op).files && Next(s, op).files[id].detached == s.files[id].detached
    ensures Next(s, op).files[id].pid == s.files[id].pid
  {
  }

  lemma {:induction false} StaysEnded(s: Store, ops: seq<Op>, id: TaskId)
    requires id in s.files && !s.files[id].status.Running? && RunAllowed(s, ops)
    ensures id in Run(s, ops).files && !Run(s, ops).files[id].status.Running?
    decreases |ops|
  {
    if ops != [] {
      OutcomeStays(s, ops[0], id);
      StaysEnded(Next(s, ops[0]), ops[1..], id);
    }
  }

  // ---------- listing, one record at a time ----------

  /** `ids` is split into those looked at and those left. */
  ghost predicate Parts(ids: set<TaskId>, done: set<TaskId>, left: set<TaskId>) {
    done + left == ids && done !! left
  }

  lemma MoveOne(ids: set<TaskId>, done: set<TaskId>, left: set<TaskId>, id: TaskId)
    requires Parts(ids, done, left) && id in left
    ensures id in ids && id !in done
    ensures Parts(ids, done + {id}, left - {id}) && |left - {id}| < |left|
  {
  }

  lemma NoneLeft(ids: set<TaskId>, done: set<TaskId>)
    requires Parts(ids, done, {})
    ensures done == ids
  {
  }

  /** Records as they are once looked at. */
  function AfterLooking(s: Store, probes: TaskId -> Probe): (m: map<TaskId, TaskStatus>)
    ensures m.Keys == s.files.Keys
  {
    map id | id in s.files :: Finalized(s.files[id], probes(id))
  }

  /** `now` is `s` with the records in `done` replaced and those of them in `gone` announced. */
  ghost predicate ListedSoFar(s: Store, after: map<TaskId, TaskStatus>, gone: set<TaskId>, done: set<TaskId>,
                              now: Store)
    requires after.Keys == s.files.Keys
  {
    && now.files.Keys == s.files.Keys
    && (forall id :: id in s.files ==> now.files[id] == if id in done then after[id] else s.files[id])
    && now.published == s.published + multiset(gone * done)
  }

  lemma ListOneMore(s: Store, after: map<TaskId, TaskStatus>, gone: set<TaskId>, done: set<TaskId>, id: TaskId,
                    now: Store, next: Store)
    requires after.Keys == s.files.Keys && id in s.files && id !in done
    requires ListedSoFar(s, after, gone, done, now)
    requires next == Store(now.files[id := after[id]], now.published + if id in gone then multiset{id} else multiset{})
    ensures ListedSoFar(s, after, gone, done + {id}, next)
  {
    assert gone * (done + {id}) == gone * done + if id in gone then {id} else {};
  }

  /** What looking at one record does to it, and whether that announces it. */
  lemma LookOne(now: Store, id: TaskId, p: Probe)
    requires id in now.files
    ensures Next(now, Look(id, p)) == Store(now.files[id := Finalized(now.files[id], p)],
      now.published + if Finishes(now.files[id], p) then multiset{id} else multiset{})
  {
  }

  lemma ListLook(s: Store, probes: TaskId -> Probe, after: map<TaskId, TaskStatus>, gone: set<TaskId>,
                 done: set<TaskId>, id: TaskId, now: Store, next: Store)
    requires after == AfterLooking(s, probes) && gone == Publishes(s.files, probes)
    requires id in s.files && id !in done && ListedSoFar(s, after, gone, done, now)
    requires id in now.files && next == Next(now, Look(id, probes(id)))
    ensures ListedSoFar(s, after, gone, done + {id}, next)
  {
    assert now.files[id] == s.files[id];
    LookOne(now, id, probes(id));
    ListOneMore(s, after, gone, done, id, now, next);
  }

  lemma ListedAll(s: Store, after: map<TaskId, TaskStatus>, gone: set<TaskId>, now: Store)
    requires after.Keys == s.files.Keys && gone <= s.files.Keys
    requires ListedSoFar(s, after, gone, s.files.Keys, now)
    ensures now == Store(after, s.published + multiset(gone))
  {
    assert gone * s.files.Keys == gone;
    assert now.files == after;
  }

  lemma ListedNone(s: Store, after: map<TaskId, TaskStatus>, gone: set<TaskId>)
    requires after.Keys == s.files.Keys
    ensures ListedSoFar(s, after, gone, {}, s)
  {
    assert gone * {} == {};
  }

  // ---------- the manager ----------

  class BackgroundTaskManager {
    var files: map<TaskId, TaskStatus>
    var published: multiset<TaskId>

    function View(): Store
      reads this
    {
      Store(files, published)
    }

    constructor ()
      ensures View() == Empty()
    {
      files, published := map[], multiset{};
    }

    method RegisterDetachedTask(id: TaskId, pid: nat, notify: bool, wake: bool)
      modifies this
      ensures View() == Next(old(View()), Register(id, pid, notify, wake))
    {
      files := files[id := TaskStatus(Running, None, None, None, Some(pid), true, notify || wake, wake, None, [])];
    }

    /** Writes the final record and announces it if the process is gone. */
    method FinalizeIfNeeded(id: TaskId, p: Probe) returns (t: TaskStatus)
      requires id in files
      modifies this
      ensures View() == Next(old(View()), Look(id, p)) && t == files[id]
    {
      t := files[id];
      if !t.status.Running? || !t.detached || t.pid.None? {
        assert files == files[id := t];
        return;
      }
      if p.reaped.None? && p.alive {
        assert files == files[id := t];
        return;
      }
      var code := if p.reaped.Some? then p.reaped else p.markerCode;
      var status := if code == Some(0) then Completed else Failed;
      var error := if status.Failed? then ExitText(code) else None;
      t := t.(status := status, exitCode := code, error := error, completedAt := Some(p.now));
      var event := EventRecord(TerminalKind(status, error), error, status, code, None);
      t := t.(eventHistory := Pushed(t.eventHistory, event));
      files := files[id := t];
      published := published + multiset{id};
    }

    method GetStatus(id: TaskId, p: Probe) returns (t: Option<TaskStatus>)
      modifies this
      ensures View() == Next(old(View()), Look(id, p))
      ensures t == if id in files then Some(files[id]) else None
    {
      if id !in files {
        return None;
      }
      var r := FinalizeIfNeeded(id, p);
      t := Some(r);
    }

    /** Looks at one more record of those listed. */
    method LookAt(id: TaskId, probes: TaskId -> Probe, ghost s: Store, ghost after: map<TaskId, TaskStatus>,
                  ghost gone: set<TaskId>, ghost done: set<TaskId>)
      requires after == AfterLooking(s, probes) && gone == Publishes(s.files, probes)
      requires id in s.files && id !in done && ListedSoFar(s, after, gone, done, View())
      modifies this
      ensures ListedSoFar(s, after, gone, done + {id}, View())
    {
      ghost var now := View();
      var t := FinalizeIfNeeded(id, probes(id));
      ListLook(s, probes, after, gone, done, id, now, View());
    }

    /** Looks at all records listed, in any order. */
    method LookAtAll(probes: TaskId -> Probe, ids: set<TaskId>, ghost s: Store, ghost after: map<TaskId, TaskStatus>,
                     ghost gone: set<TaskId>)
      requires after == AfterLooking(s, probes) && gone == Publishes(s.files, probes)
      requires ids == s.files.Keys && ListedSoFar(s, after, gone, {}, View())
      modifies this
      ensures ListedSoFar(s, after, gone, ids, View())
    {
      var left := ids;
      ghost var done: set<TaskId> := {};
      while left != {}
        invariant Parts(ids, done, left)
        invariant ListedSoFar(s, after, gone, done, View())
        decreases |left|
      {
        var id :| id in left;
        MoveOne(ids, done, left, id);
        LookAt(id, probes, s, after, gone, done);
        left := left - {id};
        done := done + {id};
      }
      NoneLeft(ids, done);
    }

    /** Looks at every record the directory has. */
    method List(probes: TaskId -> Probe) returns (ids: set<TaskId>)
      modifies this
      ensures View() == Next(old(View()), ListAll(probes))
      ensures ids == files.Keys
    {
      ids := files.Keys;
      ghost var s := View();
      ghost var after, gone := AfterLooking(s, probes), Publishes(s.files, probes);
      ListedNone(s, after, gone);
      LookAtAll(probes, ids, s, after, gone);
      ListedAll(s, after, gone, View());
    }

    method UpdateProgressWith(id: TaskId, p: Progress, checkpoint: bool)
      modifies this
      ensures View() == Next(old(View()), UpdateProgress(id, p, checkpoint))
    {
      if id !in files {
        return;
      }
      var t := files[id];
      var vaguer := t.progress.Some? && Determinate(t.progress.value) && !Determinate(p) && p.source.ParsedOutput?;
      if t.progress == Some(p) || vaguer {
        assert files == files[id := t];
        return;
      }
      t := t.(progress := Some(p));
      var event := EventRecord(if checkpoint then Checkpoint else ProgressMade, p.message, Running, None, Some(p));
      t := t.(eventHistory := Pushed(t.eventHistory, event));
      files := files[id := t];
    }

    method UpdateDeliveryTo(id: TaskId, notify: bool, wake: bool)
      modifies this
      ensures View() == Next(old(View()), UpdateDelivery(id, notify, wake))
    {
      if id !in files {
        return;
      }
      var t := files[id].(notify := notify || wake, wake := wake);
      var event := EventRecord(DeliveryUpdated, Some(DeliveryText(t.notify, t.wake)), t.status, t.exitCode, t.progress);
      t := t.(eventHistory := Pushed(t.eventHistory, event));
      files := files[id := t];
    }

    method CancelTask(id: TaskId, p: Probe) returns (cancelled: bool)
      modifies this
      ensures View() == Next(old(View()), Cancel(id, p))
      ensures cancelled <==> id in old(files) && Cancels(old(files)[id], p)
    {
      if id !in files {
        return false;
      }
      var t := FinalizeIfNeeded(id, p);
      if !t.status.Running? || !t.detached || t.pid.None? {
        return false;
      }
      assert !Finishes(old(files)[id], p) && t == old(files)[id];
      t := t.(status := Failed, exitCode := None, error := Some(CANCELLED), completedAt := Some(p.now));
      var event := EventRecord(TerminalKind(Failed, t.error), t.error, Failed, None, None);
      t := t.(eventHistory := Pushed(t.eventHistory, event));
      files := files[id := t];
      cancelled := true;
    }
  }
}
