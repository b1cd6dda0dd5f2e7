/** Outbox workers, operators and the shared store, as atomic steps in any order. A step is
    one store call: a worker can be overtaken between any two of them, two workers can hold
    the same item, and a worker can fail or die anywhere. */
module ReplayProtocol {
  import opened Text

  datatype JobState = PendingApproval | Scheduled | Running | Paused | Completed | Canceled

  /** What a replay job asks for: an event, an earlier delivery, or both. */
  datatype Request = Request(event: Option<nat>, delivery: Option<nat>, original: bool)

  datatype Approval = Approval(who: nat, at: int)

  /** A row of `replay_jobs`, with three history counters that no step reads: successful
      starts, resumes of a started job, and reverts of a running job to
      `Scheduled` or `Paused`. */
  datatype Job = Job(state: JobState, approvalRequired: bool, createdBy: nat, expiresAt: int, approval: Option<Approval>, request: Request,
                     starts: nat, resumes: nat, reverts: nat)

  /** Verification of an event never changes. `recovered`: the verification reason is
      provider API reconciliation. */
  datatype Event = Event(verified: bool, recovered: bool)

  datatype Kind = RouteEvent(event: nat) | RouteRecoveredEvent(event: nat) | ReplayJob(job: nat) | OtherKind

  datatype Item = Item(kind: Kind, done: bool)

  /** The fan-out pass a delivery belongs to: which start of which job. */
  datatype Pass = Pass(job: nat, start: nat)

  datatype Delivery = Delivery(event: nat, pass: Option<Pass>, worker: nat)

  /** The three ways a pass lists what to deliver. */
  datatype Part = RoutedEvent(event: nat) | CurrentEvent(event: nat) | OriginalEvent(event: nat) | ExistingDelivery(delivery: nat)

  /** Where a worker stands with the first item of its queue. */
  datatype Stage =
    | Idle
    | GotJob(job: nat, seen: JobState)
    | Fanning(pass: Option<Pass>, parts: seq<Part>, todo: seq<nat>)
    | Finished

  datatype Worker = Worker(queue: seq<nat>, stage: Stage)

  datatype State = State(jobs: seq<Job>, events: seq<Event>, items: seq<Item>, deliveries: seq<Delivery>, workers: map<nat, Worker>)

  datatype Step =
    | AddEvent(row: Event)
    | EnqueueRoute(event: nat, recovered: bool)
    | CreateReplay(approvalRequired: bool, request: Request, who: nat, at: int, expiresAt: int)
    | Approve(job: nat, who: nat, at: int) | Pause(job: nat) | Resume(job: nat) | Cancel(job: nat)
    | Claim(w: nat, items: seq<nat>)
    | Fetch(w: nat)
    | Start(w: nat)
    | List(w: nat, todo: seq<nat>)
    | Create(w: nat)
    | FinishPass(w: nat)
    | CompleteItem(w: nat)
    | Fail(w: nat)

  const INITIAL := State([], [], [], [], map[])

  // ----- operators -----

  function WithJob(s: State, j: nat, job: Job): State
    requires j < |s.jobs|
  {
    s.(jobs := s.jobs[j := job])
  }

  function NewItem(s: State, kind: Kind): State {
    s.(items := s.items + [Item(kind, false)])
  }

  /** `CreateReplay`: an approval that is required must still be possible. */
  function CreateReplayStep(s: State, approvalRequired: bool, request: Request, who: nat, at: int, expiresAt: int): Option<State> {
    if approvalRequired && expiresAt <= at then None
    else
      var job := Job(if approvalRequired then PendingApproval else Scheduled, approvalRequired, who, expiresAt, None, request, 0, 0, 0);
      var s' := s.(jobs := s.jobs + [job]);
      Some(if approvalRequired then s' else NewItem(s', ReplayJob(|s.jobs|)))
  }

  /** `ApproveReplayJob`: only from `PendingApproval`, not by who created the job, and in time;
      this is where the item is created. */
  function ApproveStep(s: State, j: nat, who: nat, at: int): Option<State> {
    if j < |s.jobs| && s.jobs[j].state == PendingApproval && s.jobs[j].approvalRequired && s.jobs[j].createdBy != who && at < s.jobs[j].expiresAt
    then Some(NewItem(WithJob(s, j, s.jobs[j].(state := Scheduled, approval := Some(Approval(who, at)))), ReplayJob(j)))
    else None
  }

  /** `updateReplayState`: from any state but `Completed` and `Canceled`, and to `Scheduled`
      not from `PendingApproval`. */
  function UpdateJobStep(s: State, j: nat, to: JobState): Option<State> {
    if j >= |s.jobs| || s.jobs[j].state in {Completed, Canceled} then None
    else if to == Scheduled && s.jobs[j].state == PendingApproval then None
    else
      var job := s.jobs[j];
      Some(WithJob(s, j, job.(state := to,
                              resumes := job.resumes + (if to == Scheduled && job.starts > 0 then 1 else 0),
                              reverts := job.reverts + (if job.state == Running && to != Canceled then 1 else 0))))
  }

  // ----- workers -----

  function WorkerOf(s: State, w: nat): Worker {
    if w in s.workers then s.workers[w] else Worker([], Idle)
  }

  function WithWorker(s: State, w: nat, worker: Worker): State {
    s.(workers := s.workers[w := worker])
  }

  function AtStage(s: State, w: nat, stage: Stage): State {
    WithWorker(s, w, WorkerOf(s, w).(stage := stage))
  }

  /** Leaves the first item: completed, or deferred and left for a later claim. */
  function NextInQueue(s: State, w: nat): State
    requires WorkerOf(s, w).queue != []
  {
    WithWorker(s, w, Worker(WorkerOf(s, w).queue[1..], Idle))
  }

  /** `ClaimOutbox`: any items not completed. A lock that expired is no obstacle. */
  function ClaimStep(s: State, w: nat, items: seq<nat>): Option<State> {
    if WorkerOf(s, w) == Worker([], Idle) && forall k | 0 <= k < |items| :: items[k] < |s.items| && !s.items[items[k]].done
    then Some(WithWorker(s, w, Worker(items, Idle)))
    else None
  }

  function EventParts(request: Request): seq<Part> {
    if request.event.None? then []
    else if request.original then [OriginalEvent(request.event.value)]
    else [CurrentEvent(request.event.value)]
  }

  function Parts(request: Request): seq<Part> {
    EventParts(request) + if request.delivery.None? then [] else [ExistingDelivery(request.delivery.value)]
  }

  /** The first read for an item: the job row, or the event to route. */
  function FetchStep(s: State, w: nat): Option<State> {
    var worker := WorkerOf(s, w);
    if worker.queue == [] || worker.stage != Idle || worker.queue[0] >= |s.items| then None
    else
      match s.items[worker.queue[0]].kind
      case ReplayJob(j) => if j < |s.jobs| then Some(AtStage(s, w, GotJob(j, s.jobs[j].state))) else None
      case RouteEvent(e) =>
        if e >= |s.events| then None
        else if s.events[e].verified then Some(AtStage(s, w, Fanning(None, [RoutedEvent(e)], [])))
        else Some(AtStage(s, w, Finished))
      case RouteRecoveredEvent(e) =>
        if e >= |s.events| then None
        else if s.events[e].verified || s.events[e].recovered then Some(AtStage(s, w, Fanning(None, [RoutedEvent(e)], [])))
        else Some(AtStage(s, w, Finished))
      case OtherKind => Some(AtStage(s, w, Finished))
  }

  /** What the worker does with the job state it has read, possibly long ago: defer, skip to
      completing the item, or try the atomic scheduled-to-running update and defer if it
      came too late. */
  function StartStep(s: State, w: nat): Option<State> {
    var worker := WorkerOf(s, w);
    if worker.queue == [] || !worker.stage.GotJob? || worker.stage.job >= |s.jobs| then None
    else
      var j := worker.stage.job;
      if worker.stage.seen in {Paused, PendingApproval} then Some(NextInQueue(s, w))
      else if worker.stage.seen != Scheduled then Some(AtStage(s, w, Finished))
      else if s.jobs[j].state != Scheduled then Some(NextInQueue(s, w))
      else
        var job := s.jobs[j].(state := Running, starts := s.jobs[j].starts + 1);
        Some(AtStage(WithJob(s, j, job), w, Fanning(Some(Pass(j, job.starts)), Parts(job.request), [])))
  }

  /** Which deliveries a part may list. Routes and subscriptions are not modelled: any number
      of targets can match. */
  predicate Listable(s: State, part: Part, todo: seq<nat>) {
    match part
    case RoutedEvent(e) => forall x | x in todo :: x == e
    case CurrentEvent(e) =>
      e < |s.events| && (forall x | x in todo :: x == e) && (!s.events[e].verified ==> todo == [])
    case OriginalEvent(e) =>
      (forall x | x in todo :: x == e) && (todo != [] ==> exists d :: d in s.deliveries && d.event == e && d.pass.None?)
    case ExistingDelivery(d) => d < |s.deliveries| && (todo == [] || todo == [s.deliveries[d].event])
  }

  function ListStep(s: State, w: nat, todo: seq<nat>): Option<State> {
    var stage := WorkerOf(s, w).stage;
    if stage.Fanning? && stage.todo == [] && stage.parts != [] && Listable(s, stage.parts[0], todo)
    then Some(AtStage(s, w, Fanning(stage.pass, stage.parts[1..], todo)))
    else None
  }

  /** `CreateDeliverySnapshot` for the next one listed. */
  function CreateStep(s: State, w: nat): Option<State> {
    var stage := WorkerOf(s, w).stage;
    if stage.Fanning? && stage.todo != [] then
      Some(AtStage(s.(deliveries := s.deliveries + [Delivery(stage.todo[0], stage.pass, w)]), w,
                   Fanning(stage.pass, stage.parts, stage.todo[1..])))
    else None
  }

  /** `CompleteReplayJob`: everything but a canceled job becomes completed. */
  function FinishPassStep(s: State, w: nat): Option<State> {
    var stage := WorkerOf(s, w).stage;
    if !stage.Fanning? || stage.todo != [] || stage.parts != [] then None
    else if stage.pass.None? then Some(AtStage(s, w, Finished))
    else if stage.pass.value.job >= |s.jobs| then None
    else
      var j := stage.pass.value.job;
      var s' := if s.jobs[j].state == Canceled then s else WithJob(s, j, s.jobs[j].(state := Completed));
      Some(AtStage(s', w, Finished))
  }

  function CompleteItemStep(s: State, w: nat): Option<State> {
    var worker := WorkerOf(s, w);
    if worker.stage == Finished && worker.queue != [] && worker.queue[0] < |s.items| then
      var i := worker.queue[0];
      Some(NextInQueue(s.(items := s.items[i := s.items[i].(done := true)]), w))
    else None
  }

  // ----- runs -----

  /** One step, or nothing where the step is refused. */
  function Next(s: State, step: Step): Option<State> {
    match step
    case AddEvent(e) => Some(s.(events := s.events + [e]))
    case EnqueueRoute(e, recovered) => Some(NewItem(s, if recovered then RouteRecoveredEvent(e) else RouteEvent(e)))
    case CreateReplay(approval, request, who, at, expires) => CreateReplayStep(s, approval, request, who, at, expires)
    case Approve(j, who, at) => ApproveStep(s, j, who, at)
    case Pause(j) => UpdateJobStep(s, j, Paused)
    case Resume(j) => UpdateJobStep(s, j, Scheduled)
    case Cancel(j) => UpdateJobStep(s, j, Canceled)
    case Claim(w, items) => ClaimStep(s, w, items)
    case Fetch(w) => FetchStep(s, w)
    case Start(w) => StartStep(s, w)
    case List(w, todo) => ListStep(s, w, todo)
    case Create(w) => CreateStep(s, w)
    case FinishPass(w) => FinishPassStep(s, w)
    case CompleteItem(w) => CompleteItemStep(s, w)
    case Fail(w) => Some(WithWorker(s, w, Worker([], Idle)))
  }

  function Run(s: State, steps: seq<Step>): Option<State>
    decreases |steps|
  {
    if steps == [] then Some(s)
    else
      var next := Next(s, steps[0]);
      if next.None? then None else Run(next.value, steps[1..])
  }

  // ----- what operators may do -----

  /** The one job is in the given state now, and but for it and its history nothing changed. */
  ghost predicate OnlyState(s: State, s': State, j: nat, state: JobState) {
    && j < |s.jobs| == |s'.jobs| && s' == s.(jobs := s'.jobs)
    && (forall i | 0 <= i < |s.jobs| && i != j :: s'.jobs[i] == s.jobs[i])
    && s'.jobs[j] == s.jobs[j].(state := state, resumes := s'.jobs[j].resumes, reverts := s'.jobs[j].reverts)
  }

  /** Operators pause and cancel any job that has not ended, and resume any that has not ended
      and is not waiting for approval, scheduled and running ones included. */
  lemma OperatorsExactly(s: State, j: nat)
    ensures Next(s, Pause(j)).Some? <==> j < |s.jobs| && s.jobs[j].state !in {Completed, Canceled}
    ensures Next(s, Cancel(j)).Some? <==> j < |s.jobs| && s.jobs[j].state !in {Completed, Canceled}
    ensures Next(s, Resume(j)).Some? <==> j < |s.jobs| && s.jobs[j].state in {Scheduled, Running, Paused}
    ensures Next(s, Pause(j)).Some? ==> OnlyState(s, Next(s, Pause(j)).value, j, Paused)
    ensures Next(s, Cancel(j)).Some? ==> OnlyState(s, Next(s, Cancel(j)).value, j, Canceled)
    ensures Next(s, Resume(j)).Some? ==> OnlyState(s, Next(s, Resume(j)).value, j, Scheduled)
  {
  }

  /** A job has its outbox item from the moment it may run: from its creation, or else from its
      approval. That takes a job that waits for one, another person than its creator, and time. */
  lemma ApprovalExactly(s: State, j: nat, required: bool, request: Request, who: nat, at: int, expiresAt: int)
    ensures Next(s, CreateReplay(required, request, who, at, expiresAt)) ==
            if required && expiresAt <= at then None
            else Some(s.(jobs := s.jobs + [Job(if required then PendingApproval else Scheduled, required, who, expiresAt, None, request, 0, 0, 0)],
                         items := s.items + (if required then [] else [Item(ReplayJob(|s.jobs|), false)])))
    ensures Next(s, Approve(j, who, at)).Some? <==>
            && j < |s.jobs| && s.jobs[j].state == PendingApproval && s.jobs[j].approvalRequired
            && who != s.jobs[j].createdBy && at < s.jobs[j].expiresAt
    ensures Next(s, Approve(j, who, at)).Some? ==>
              Next(s, Approve(j, who, at)).value ==
              s.(jobs := s.jobs[j := s.jobs[j].(state := Scheduled, approval := Some(Approval(who, at)))], items := s.items + [Item(ReplayJob(j), false)])
  {
    assert s.items + [] == s.items;
  }

  // ----- what every step keeps -----

  /** A job that got past its start, or was canceled. */
  predicate Past(state: JobState) {
    state in {Running, Completed, Canceled}
  }

  ghost predicate JobOk(job: Job) {
    && job.starts <= job.resumes + 1
    && (job.state == Scheduled ==> job.starts <= job.resumes)
    && (job.resumes > 0 ==> job.reverts > 0)
    && (job.starts > 0 && job.reverts == 0 ==> Past(job.state))
    && (job.starts > 0 ==> job.approvalRequired ==> job.approval.Some?)
    && (job.approval.Some? ==> job.approval.value.who != job.createdBy && job.approval.value.at < job.expiresAt)
    && (job.state == PendingApproval ==> job.starts == 0 && job.approval.None?)
  }

  /** An event that may be delivered. */
  predicate Deliverable(s: State, e: nat) {
    e < |s.events| && (s.events[e].verified || s.events[e].recovered)
  }

  /** Unless somebody took it back from running, the job is past its start. */
  ghost predicate PastUnlessReverted(s: State, j: nat) {
    j < |s.jobs| && (s.jobs[j].reverts == 0 ==> Past(s.jobs[j].state))
  }

  ghost predicate ItemOk(s: State, i: nat)
    requires i < |s.items|
  {
    var item := s.items[i];
    item.kind.ReplayJob? ==>
      && item.kind.job < |s.jobs|
      && (s.jobs[item.kind.job].approvalRequired ==> s.jobs[item.kind.job].approval.Some?)
      && (item.done ==> PastUnlessReverted(s, item.kind.job))
  }

  ghost predicate PassOk(s: State, pass: Pass) {
    pass.job < |s.jobs| && 1 <= pass.start <= s.jobs[pass.job].starts
  }

  ghost predicate DeliveryOk(s: State, d: Delivery) {
    Deliverable(s, d.event) && (d.pass.Some? ==> PassOk(s, d.pass.value))
  }

  ghost predicate PartOk(s: State, part: Part) {
    part.RoutedEvent? ==> Deliverable(s, part.event)
  }

  /** What a worker's stage says about the first item of its queue and about the store. */
  ghost predicate StageOk(s: State, w: nat) {
    var worker := WorkerOf(s, w);
    && (forall k | 0 <= k < |worker.queue| :: worker.queue[k] < |s.items|)
    && (worker.stage != Idle ==> worker.queue != [])
    && match worker.stage
       case Idle => true
       case GotJob(j, seen) =>
         s.items[worker.queue[0]].kind == ReplayJob(j) && j < |s.jobs| && (Past(seen) ==> PastUnlessReverted(s, j))
       case Fanning(pass, parts, todo) =>
         && (forall e | e in todo :: Deliverable(s, e)) && (forall p | p in parts :: PartOk(s, p))
         && (pass.Some? ==> s.items[worker.queue[0]].kind == ReplayJob(pass.value.job) && PassOk(s, pass.value))
         && (pass.None? ==> !s.items[worker.queue[0]].kind.ReplayJob?)
       case Finished =>
         var kind := s.items[worker.queue[0]].kind;
         kind.ReplayJob? ==> PastUnlessReverted(s, kind.job)
  }

  ghost predicate Holds(s: State, w: nat, pass: Pass) {
    WorkerOf(s, w).stage.Fanning? && WorkerOf(s, w).stage.pass == Some(pass)
  }

  /** A pass has one worker: the one that holds it made every delivery in it, and nobody
      else holds it. */
  ghost predicate OneWorkerPerPass(s: State) {
    && (forall v, w, pass | Holds(s, v, pass) && Holds(s, w, pass) :: v == w)
    && (forall w, pass, d | Holds(s, w, pass) && d in s.deliveries && d.pass == Some(pass) :: d.worker == w)
    && (forall d, d' | d in s.deliveries && d' in s.deliveries && d.pass.Some? && d.pass == d'.pass :: d.worker == d'.worker)
  }

  ghost predicate Inv(s: State) {
    && (forall j | 0 <= j < |s.jobs| :: JobOk(s.jobs[j]))
    && (forall i | 0 <= i < |s.items| :: ItemOk(s, i))
    && (forall d | d in s.deliveries :: DeliveryOk(s, d))
    && (forall w :: StageOk(s, w))
    && OneWorkerPerPass(s)
  }

  /** The store only moves forward: rows are kept, a start is never taken back, and a job
      past its start stays past it unless it is reverted. */
  ghost predicate JobMoves(a: Job, b: Job) {
    && a.starts <= b.starts && a.reverts <= b.reverts
    && a.approvalRequired == b.approvalRequired && (a.approval.Some? ==> b.approval == a.approval)
    && (Past(a.state) && b.reverts == 0 ==> Past(b.state))
  }

  ghost predicate Grows(s: State, t: State) {
    && |s.jobs| <= |t.jobs| && (forall j | 0 <= j < |s.jobs| :: JobMoves(s.jobs[j], t.jobs[j]))
    && s.events <= t.events
    && |s.items| <= |t.items| && (forall i | 0 <= i < |s.items| :: t.items[i].kind == s.items[i].kind)
  }

  lemma StageSurvives(s: State, t: State, w: nat)
    requires Grows(s, t) && StageOk(s, w) && WorkerOf(t, w) == WorkerOf(s, w)
    ensures StageOk(t, w)
  {
    var worker := WorkerOf(s, w);
    if worker.stage.Fanning? {
      forall e | e in worker.stage.todo ensures Deliverable(t, e) {
        assert Deliverable(s, e);
      }
      forall p | p in worker.stage.parts ensures PartOk(t, p) {
        assert PartOk(s, p);
      }
    }
  }

  lemma DeliveriesSurvive(s: State, t: State)
    requires Grows(s, t) && forall d | d in s.deliveries :: DeliveryOk(s, d)
    ensures forall d | d in s.deliveries :: DeliveryOk(t, d)
  {
  }

  lemma ItemSurvives(s: State, t: State, i: nat)
    requires Grows(s, t) && i < |s.items| && ItemOk(s, i)
    requires t.items[i].done ==> s.items[i].done || (t.items[i].kind.ReplayJob? ==> PastUnlessReverted(t, t.items[i].kind.job))
    ensures ItemOk(t, i)
  {
  }

  /** Frame for steps of worker `w`, or of nobody: only what the step changed is left to show. */
  lemma InvFrom(s: State, t: State, w: nat)
    requires Inv(s) && Grows(s, t)
    requires forall v | v != w :: WorkerOf(t, v) == WorkerOf(s, v)
    requires StageOk(t, w)
    requires forall j | 0 <= j < |t.jobs| :: JobOk(t.jobs[j])
    requires forall i | 0 <= i < |t.items| :: ItemOk(t, i)
    requires forall d | d in t.deliveries :: DeliveryOk(t, d)
    requires OneWorkerPerPass(t)
    ensures Inv(t)
  {
    hide StageOk, JobOk, ItemOk, DeliveryOk, OneWorkerPerPass;
    forall v ensures StageOk(t, v) {
      if v != w {
        StageSurvives(s, t, v);
      }
    }
  }

  lemma PassesKept(s: State, t: State)
    requires OneWorkerPerPass(s) && t.deliveries == s.deliveries
    requires forall v, pass | Holds(t, v, pass) :: Holds(s, v, pass)
    ensures OneWorkerPerPass(t)
  {
  }

  lemma ItemsSurvive(s: State, t: State)
    requires Grows(s, t) && (forall i | 0 <= i < |s.items| :: ItemOk(s, i))
    requires forall i | 0 <= i < |s.items| :: t.items[i] == s.items[i]
    ensures forall i | 0 <= i < |s.items| :: ItemOk(t, i)
  {
    forall i | 0 <= i < |s.items| ensures ItemOk(t, i) {
      ItemSurvives(s, t, i);
    }
  }

  /** Steps of an operator, or a new event: jobs move, items may be added. */
  lemma OperatorKeeps(s: State, step: Step)
    requires Inv(s) && Next(s, step).Some?
    requires step.AddEvent? || step.EnqueueRoute? || step.CreateReplay? || step.Approve? || step.Pause? || step.Resume? || step.Cancel?
    ensures Inv(Next(s, step).value)
  {
    var t := Next(s, step).value;
    assert Grows(s, t) && (forall j | 0 <= j < |t.jobs| :: JobOk(t.jobs[j])) by { OperatorMoves(s, step); }
    hide StageOk, JobOk, DeliveryOk, OneWorkerPerPass, Grows, ItemOk;
    ItemsSurvive(s, t);
    DeliveriesSurvive(s, t);
    assert forall v :: WorkerOf(t, v) == WorkerOf(s, v);
    assert forall i | |s.items| <= i < |t.items| :: ItemOk(t, i) by { NewItemsOk(s, step); }
    PassesKept(s, t);
    StageSurvives(s, t, 0);
    InvFrom(s, t, 0);
  }

  lemma UpdateMoves(s: State, j: nat, to: JobState)
    requires Inv(s) && UpdateJobStep(s, j, to).Some? && to in {Paused, Scheduled, Canceled}
    ensures Grows(s, UpdateJobStep(s, j, to).value)
    ensures forall i | 0 <= i < |UpdateJobStep(s, j, to).value.jobs| :: JobOk(UpdateJobStep(s, j, to).value.jobs[i])
  {
    hide StageOk, ItemOk, DeliveryOk, OneWorkerPerPass;
  }

  lemma OperatorMoves(s: State, step: Step)
    requires Inv(s) && Next(s, step).Some?
    requires step.AddEvent? || step.EnqueueRoute? || step.CreateReplay? || step.Approve? || step.Pause? || step.Resume? || step.Cancel?
    ensures Grows(s, Next(s, step).value)
    ensures forall j | 0 <= j < |Next(s, step).value.jobs| :: JobOk(Next(s, step).value.jobs[j])
  {
    hide StageOk, ItemOk, DeliveryOk, OneWorkerPerPass, ClaimStep, FetchStep, StartStep, ListStep, CreateStep, FinishPassStep, CompleteItemStep;
    if step.Pause? || step.Resume? || step.Cancel? {
      hide Inv, Grows, UpdateJobStep, JobOk;
      UpdateMoves(s, step.job, if step.Pause? then Paused else if step.Resume? then Scheduled else Canceled);
    }
  }

  lemma NewItemsOk(s: State, step: Step)
    requires Next(s, step).Some?
    requires step.AddEvent? || step.EnqueueRoute? || step.CreateReplay? || step.Approve? || step.Pause? || step.Resume? || step.Cancel?
    ensures var t := Next(s, step).value;
            && |s.items| <= |t.items| && (forall i | 0 <= i < |s.items| :: t.items[i] == s.items[i])
            && forall i | |s.items| <= i < |t.items| :: ItemOk(t, i)
  {
  }

  /** Steps that change nothing but the worker itself, and give it no pass. */
  lemma WorkerOnlyKeeps(s: State, t: State, w: nat)
    requires Inv(s) && t == s.(workers := t.workers)
    requires forall v | v != w :: WorkerOf(t, v) == WorkerOf(s, v)
    requires StageOk(t, w) && forall pass | Holds(t, w, pass) :: Holds(s, w, pass)
    ensures Inv(t)
  {
    assert Grows(s, t);
    hide StageOk, JobOk, DeliveryOk, OneWorkerPerPass, Grows, ItemOk;
    ItemsSurvive(s, t);
    DeliveriesSurvive(s, t);
    forall v, pass | Holds(t, v, pass) ensures Holds(s, v, pass) {
      assert v == w || WorkerOf(t, v) == WorkerOf(s, v);
    }
    PassesKept(s, t);
    InvFrom(s, t, w);
  }

  lemma ClaimKeeps(s: State, w: nat, items: seq<nat>)
    requires Inv(s) && ClaimStep(s, w, items).Some?
    ensures Inv(ClaimStep(s, w, items).value)
  {
    WorkerOnlyKeeps(s, ClaimStep(s, w, items).value, w);
  }

  lemma FailKeeps(s: State, w: nat)
    requires Inv(s)
    ensures Inv(WithWorker(s, w, Worker([], Idle)))
  {
    WorkerOnlyKeeps(s, WithWorker(s, w, Worker([], Idle)), w);
  }

  lemma FetchKeeps(s: State, w: nat)
    requires Inv(s) && FetchStep(s, w).Some?
    ensures Inv(FetchStep(s, w).value)
  {
    assert StageOk(s, w);
    WorkerOnlyKeeps(s, FetchStep(s, w).value, w);
  }

  lemma ListKeeps(s: State, w: nat, todo: seq<nat>)
    requires Inv(s) && ListStep(s, w, todo).Some?
    ensures Inv(ListStep(s, w, todo).value)
  {
    var t := ListStep(s, w, todo).value;
    var stage := WorkerOf(s, w).stage;
    assert StageOk(s, w) && PartOk(s, stage.parts[0]);
    forall e | e in todo ensures Deliverable(t, e) {
      match stage.parts[0]
      case RoutedEvent(_) =>
      case CurrentEvent(_) =>
      case OriginalEvent(x) =>
        var d :| d in s.deliveries && d.event == x && d.pass.None?;
        assert DeliveryOk(s, d);
      case ExistingDelivery(k) =>
        assert DeliveryOk(s, s.deliveries[k]);
    }
    forall p | p in stage.parts[1..] ensures PartOk(t, p) {
      assert p in stage.parts && PartOk(s, p);
    }
    WorkerOnlyKeeps(s, t, w);
  }

  /** A start makes a pass number nobody has used: the pass has no holder and no delivery. */
  lemma StartKeeps(s: State, w: nat)
    requires Inv(s) && StartStep(s, w).Some?
    ensures Inv(StartStep(s, w).value)
  {
    var t := StartStep(s, w).value;
    assert StageOk(s, w);
    var j, seen := WorkerOf(s, w).stage.job, WorkerOf(s, w).stage.seen;
    if seen != Scheduled || s.jobs[j].state != Scheduled {
      WorkerOnlyKeeps(s, t, w);
    } else {
      assert JobOk(s.jobs[j]) && ItemOk(s, WorkerOf(s, w).queue[0]);
      assert Grows(s, t);
      assert StageOk(t, w);
      assert forall k | 0 <= k < |t.jobs| :: JobOk(t.jobs[k]);
      NewPass(s, t, w, Pass(j, s.jobs[j].starts + 1));
      hide StageOk, JobOk, DeliveryOk, OneWorkerPerPass, Grows, ItemOk;
      ItemsSurvive(s, t);
      DeliveriesSurvive(s, t);
      InvFrom(s, t, w);
    }
  }

  lemma NewPass(s: State, t: State, w: nat, pass: Pass)
    requires Inv(s) && t.deliveries == s.deliveries && !PassOk(s, pass)
    requires Holds(t, w, pass) && forall v | v != w :: WorkerOf(t, v) == WorkerOf(s, v)
    ensures OneWorkerPerPass(t)
  {
    forall d | d in s.deliveries && d.pass.Some? ensures d.pass.value != pass {
      assert DeliveryOk(s, d);
    }
    forall v, p | Holds(s, v, p) ensures p != pass {
      assert StageOk(s, v);
    }
    forall v, p | Holds(t, v, p) && v != w ensures Holds(s, v, p) {
      assert WorkerOf(t, v) == WorkerOf(s, v);
    }
  }

  lemma CreateKeeps(s: State, w: nat)
    requires Inv(s) && CreateStep(s, w).Some?
    ensures Inv(CreateStep(s, w).value)
  {
    var t := CreateStep(s, w).value;
    var stage := WorkerOf(s, w).stage;
    assert StageOk(s, w);
    assert Grows(s, t);
    assert stage.todo[0] in stage.todo;
    assert DeliveryOk(t, Delivery(stage.todo[0], stage.pass, w));
    assert StageOk(t, w) by {
      forall e | e in stage.todo[1..] ensures Deliverable(t, e) {
        assert e in stage.todo;
      }
      forall p | p in stage.parts ensures PartOk(t, p) {
        assert PartOk(s, p);
      }
    }
    DeliveriesSurvive(s, t);
    NewDelivery(s, t, w);
    hide StageOk, JobOk, DeliveryOk, OneWorkerPerPass, Grows, ItemOk;
    ItemsSurvive(s, t);
    InvFrom(s, t, w);
  }

  lemma NewDelivery(s: State, t: State, w: nat)
    requires Inv(s) && WorkerOf(s, w).stage.Fanning?
    requires exists e :: t.deliveries == s.deliveries + [Delivery(e, WorkerOf(s, w).stage.pass, w)]
    requires WorkerOf(t, w).stage.Fanning? && WorkerOf(t, w).stage.pass == WorkerOf(s, w).stage.pass
    requires forall v | v != w :: WorkerOf(t, v) == WorkerOf(s, v)
    ensures OneWorkerPerPass(t)
  {
    forall v, pass | Holds(t, v, pass) ensures Holds(s, v, pass) {
      assert v == w || WorkerOf(t, v) == WorkerOf(s, v);
    }
    forall d | d in t.deliveries && d !in s.deliveries ensures d.worker == w && d.pass == WorkerOf(s, w).stage.pass {
    }
    forall d | d in s.deliveries && d.pass.Some? && d.pass == WorkerOf(s, w).stage.pass ensures d.worker == w {
      assert Holds(s, w, d.pass.value);
    }
    forall v, pass, d | Holds(t, v, pass) && d in t.deliveries && d.pass == Some(pass) ensures d.worker == v {
      if d !in s.deliveries {
        assert Holds(s, w, pass);
      }
    }
  }

  lemma FinishPassKeeps(s: State, w: nat)
    requires Inv(s) && FinishPassStep(s, w).Some?
    ensures Inv(FinishPassStep(s, w).value)
  {
    var t := FinishPassStep(s, w).value;
    assert StageOk(s, w);
    if WorkerOf(s, w).stage.pass.None? {
      WorkerOnlyKeeps(s, t, w);
    } else {
      var j := WorkerOf(s, w).stage.pass.value.job;
      assert JobOk(s.jobs[j]);
      assert Grows(s, t) && StageOk(t, w);
      assert forall k | 0 <= k < |t.jobs| :: JobOk(t.jobs[k]);
      forall v, pass | Holds(t, v, pass) ensures Holds(s, v, pass) {
        assert v == w || WorkerOf(t, v) == WorkerOf(s, v);
      }
      hide StageOk, JobOk, DeliveryOk, OneWorkerPerPass, Grows, ItemOk;
      PassesKept(s, t);
      ItemsSurvive(s, t);
      DeliveriesSurvive(s, t);
      InvFrom(s, t, w);
    }
  }

  lemma CompleteItemKeeps(s: State, w: nat)
    requires Inv(s) && CompleteItemStep(s, w).Some?
    ensures Inv(CompleteItemStep(s, w).value)
  {
    var t := CompleteItemStep(s, w).value;
    assert StageOk(s, w);
    assert Grows(s, t) && StageOk(t, w);
    forall i | 0 <= i < |t.items| ensures ItemOk(t, i) {
      ItemSurvives(s, t, i);
    }
    forall v, pass | Holds(t, v, pass) ensures Holds(s, v, pass) {
      assert v == w || WorkerOf(t, v) == WorkerOf(s, v);
    }
    hide StageOk, JobOk, DeliveryOk, OneWorkerPerPass, Grows, ItemOk;
    PassesKept(s, t);
    DeliveriesSurvive(s, t);
    InvFrom(s, t, w);
  }

  lemma StepKeeps(s: State, step: Step)
    requires Inv(s) && Next(s, step).Some?
    ensures Inv(Next(s, step).value)
  {
    hide Inv;
    match step
    case Claim(w, items) => ClaimKeeps(s, w, items);
    case Fetch(w) => FetchKeeps(s, w);
    case Start(w) => StartKeeps(s, w);
    case List(w, todo) => ListKeeps(s, w, todo);
    case Create(w) => CreateKeeps(s, w);
    case FinishPass(w) => FinishPassKeeps(s, w);
    case CompleteItem(w) => CompleteItemKeeps(s, w);
    case Fail(w) => FailKeeps(s, w);
    case _ => OperatorKeeps(s, step);
  }

  /** The invariant holds after every run. */
  lemma {:induction false} RunKeeps(s: State, steps: seq<Step>)
    requires Inv(s) && Run(s, steps).Some?
    ensures Inv(Run(s, steps).value)
    decreases |steps|
  {
    hide Inv;
    if steps != [] {
      StepKeeps(s, steps[0]);
      RunKeeps(Next(s, steps[0]).value, steps[1..]);
    }
  }

  lemma InitialInv()
    ensures Inv(INITIAL)
  {
  }

  lemma Reachable(steps: seq<Step>)
    requires Run(INITIAL, steps).Some?
    ensures Inv(Run(INITIAL, steps).value)
  {
    hide Inv;
    InitialInv();
    RunKeeps(INITIAL, steps);
  }

  // ----- what the protocol guarantees, in every run -----

  /** Every successful start licenses one pass, run by one worker: the deliveries of a job
      carry pass numbers up to its starts, those of one pass come from one worker, and the
      job is started at most once more than it was resumed after a start. */
  lemma OnePassPerStart(steps: seq<Step>)
    requires Run(INITIAL, steps).Some?
    ensures var s := Run(INITIAL, steps).value;
            && (forall j | 0 <= j < |s.jobs| :: s.jobs[j].starts <= s.jobs[j].resumes + 1)
            && (forall d | d in s.deliveries && d.pass.Some? ::
                  d.pass.value.job < |s.jobs| && 1 <= d.pass.value.start <= s.jobs[d.pass.value.job].starts)
            && (forall d, d' | d in s.deliveries && d' in s.deliveries && d.pass.Some? && d.pass == d'.pass :: d.worker == d'.worker)
  {
    Reachable(steps);
    var s := Run(INITIAL, steps).value;
    assert forall j | 0 <= j < |s.jobs| :: JobOk(s.jobs[j]);
    assert forall d | d in s.deliveries :: DeliveryOk(s, d);
  }

  /** So a job that nobody resumed after a start has the deliveries of a single pass. */
  lemma SinglePassUnlessResumed(steps: seq<Step>, d: Delivery, d': Delivery)
    requires Run(INITIAL, steps).Some?
    requires d in Run(INITIAL, steps).value.deliveries && d' in Run(INITIAL, steps).value.deliveries
    requires d.pass.Some? && d'.pass.Some? && d.pass.value.job == d'.pass.value.job < |Run(INITIAL, steps).value.jobs|
    requires Run(INITIAL, steps).value.jobs[d.pass.value.job].resumes == 0
    ensures d.pass == d'.pass && d.pass.value.start == 1 && d.worker == d'.worker
  {
    OnePassPerStart(steps);
    var job := Run(INITIAL, steps).value.jobs[d.pass.value.job];
    assert job.starts <= 1;
  }

  /** A job that is scheduled, paused or waiting for approval keeps its outbox item open,
      unless a running job was taken back. */
  lemma OpenJobKeepsItem(steps: seq<Step>, i: nat)
    requires Run(INITIAL, steps).Some? && i < |Run(INITIAL, steps).value.items|
    requires Run(INITIAL, steps).value.items[i].kind.ReplayJob?
    ensures var s := Run(INITIAL, steps).value; var j := s.items[i].kind.job;
            && j < |s.jobs|
            && (s.jobs[j].state in {Scheduled, Paused, PendingApproval} && s.items[i].done ==> s.jobs[j].reverts > 0)
  {
    Reachable(steps);
    assert ItemOk(Run(INITIAL, steps).value, i);
  }

  /** A job that requires approval is never started, and has no delivery, before it is
      approved: not even by pausing and resuming it, which does make it `Scheduled`. */
  lemma NothingBeforeApproval(steps: seq<Step>, j: nat)
    requires Run(INITIAL, steps).Some? && j < |Run(INITIAL, steps).value.jobs|
    requires Run(INITIAL, steps).value.jobs[j].approvalRequired && Run(INITIAL, steps).value.jobs[j].approval.None?
    ensures var s := Run(INITIAL, steps).value;
            s.jobs[j].starts == 0 && forall d | d in s.deliveries && d.pass.Some? :: d.pass.value.job != j
  {
    Reachable(steps);
    var s := Run(INITIAL, steps).value;
    assert JobOk(s.jobs[j]);
    forall d | d in s.deliveries && d.pass.Some? ensures d.pass.value.job != j {
      assert DeliveryOk(s, d);
    }
  }

  /** Four eyes: whatever was started, delivered or put into the outbox for a job that needs
      approval was approved by another person than the creator of the job, and in time. */
  lemma FourEyes(steps: seq<Step>, j: nat)
    requires Run(INITIAL, steps).Some? && j < |Run(INITIAL, steps).value.jobs|
    requires var s := Run(INITIAL, steps).value;
             && s.jobs[j].approvalRequired
             && (s.jobs[j].starts > 0 || (exists d :: d in s.deliveries && d.pass.Some? && d.pass.value.job == j)
                 || exists i :: 0 <= i < |s.items| && s.items[i].kind == ReplayJob(j))
    ensures var job := Run(INITIAL, steps).value.jobs[j];
            job.approval.Some? && job.approval.value.who != job.createdBy && job.approval.value.at < job.expiresAt
  {
    Reachable(steps);
    var s := Run(INITIAL, steps).value;
    assert JobOk(s.jobs[j]);
    hide Run;
    if i :| 0 <= i < |s.items| && s.items[i].kind == ReplayJob(j) {
      assert ItemOk(s, i);
    } else if d :| d in s.deliveries && d.pass.Some? && d.pass.value.job == j {
      assert DeliveryOk(s, d);
    }
  }

  /** Every delivery ever made, directly or through any chain of replays, belongs to an event
      that is verified or was recovered by provider reconciliation. */
  lemma DeliveriesHaveProvenance(steps: seq<Step>)
    requires Run(INITIAL, steps).Some?
    ensures var s := Run(INITIAL, steps).value;
            forall d | d in s.deliveries :: d.event < |s.events| && (s.events[d.event].verified || s.events[d.event].recovered)
  {
    Reachable(steps);
    var s := Run(INITIAL, steps).value;
    assert forall d | d in s.deliveries :: DeliveryOk(s, d);
  }

  /** `Completed` and `Canceled` are final: no later step of any run changes them. */
  lemma {:induction false} FinalStates(s: State, steps: seq<Step>, j: nat)
    requires Run(s, steps).Some? && j < |s.jobs| && s.jobs[j].state in {Completed, Canceled}
    ensures j < |Run(s, steps).value.jobs| && Run(s, steps).value.jobs[j].state == s.jobs[j].state
    decreases |steps|
  {
    if steps != [] {
      FinalStep(s, steps[0], j);
      FinalStates(Next(s, steps[0]).value, steps[1..], j);
    }
  }

  lemma FinalStep(s: State, step: Step, j: nat)
    requires Next(s, step).Some? && j < |s.jobs| && s.jobs[j].state in {Completed, Canceled}
    ensures j < |Next(s, step).value.jobs| && Next(s, step).value.jobs[j].state == s.jobs[j].state
  {
  }

  /** Operators who never pause or resume a running job. */
  predicate Careful(s: State, steps: seq<Step>)
    decreases |steps|
  {
    steps == [] ||
    (&& ((steps[0].Pause? || steps[0].Resume?) && steps[0].job < |s.jobs| ==> s.jobs[steps[0].job].state != Running)
     && (Next(s, steps[0]).Some? ==> Careful(Next(s, steps[0]).value, steps[1..])))
  }

  lemma NoRevert(s: State, step: Step)
    requires Next(s, step).Some? && forall j | 0 <= j < |s.jobs| :: s.jobs[j].reverts == 0
    requires (step.Pause? || step.Resume?) && step.job < |s.jobs| ==> s.jobs[step.job].state != Running
    ensures forall j | 0 <= j < |Next(s, step).value.jobs| :: Next(s, step).value.jobs[j].reverts == 0
  {
  }

  lemma {:induction false} CarefulRun(s: State, steps: seq<Step>)
    requires Run(s, steps).Some? && Careful(s, steps) && forall j | 0 <= j < |s.jobs| :: s.jobs[j].reverts == 0
    ensures forall j | 0 <= j < |Run(s, steps).value.jobs| :: Run(s, steps).value.jobs[j].reverts == 0
    decreases |steps|
  {
    if steps != [] {
      NoRevert(s, steps[0]);
      CarefulRun(Next(s, steps[0]).value, steps[1..]);
    }
  }

  /** Refusing to pause or resume a running job is all that is missing: in every run of
      careful operators each job is started at most once, all its deliveries come from
      that pass, and it never leaves its item behind. */
  lemma CarefulOperators(steps: seq<Step>)
    requires Run(INITIAL, steps).Some? && Careful(INITIAL, steps)
    ensures var s := Run(INITIAL, steps).value;
            && (forall j | 0 <= j < |s.jobs| :: s.jobs[j].starts <= 1)
            && (forall d | d in s.deliveries && d.pass.Some? :: d.pass.value.start == 1)
            && (forall i | 0 <= i < |s.items| && s.items[i].done && s.items[i].kind.ReplayJob? ::
                  s.items[i].kind.job < |s.jobs| && s.jobs[s.items[i].kind.job].state in {Running, Completed, Canceled})
  {
    CarefulRun(INITIAL, steps);
    Reachable(steps);
    var s := Run(INITIAL, steps).value;
    assert forall j | 0 <= j < |s.jobs| :: JobOk(s.jobs[j]);
    assert forall d | d in s.deliveries :: DeliveryOk(s, d);
    forall i | 0 <= i < |s.items| && s.items[i].done && s.items[i].kind.ReplayJob?
      ensures s.items[i].kind.job < |s.jobs| && Past(s.jobs[s.items[i].kind.job].state)
    {
      assert ItemOk(s, i);
    }
  }

  /** A job that is past scheduling and whose pass nobody holds any more, because the worker
      failed or died in the middle. */
  ghost predicate Lost(s: State, j: nat) {
    && j < |s.jobs| && s.jobs[j].state !in {Scheduled, PendingApproval}
    && forall w, pass | Holds(s, w, pass) :: pass.job != j
  }

  lemma LostStep(s: State, step: Step, j: nat)
    requires Lost(s, j) && Next(s, step).Some? && step != Resume(j)
    ensures Lost(Next(s, step).value, j)
    ensures var t := Next(s, step).value;
            s.deliveries <= t.deliveries &&
            forall k | |s.deliveries| <= k < |t.deliveries| :: t.deliveries[k].pass.Some? ==> t.deliveries[k].pass.value.job != j
  {
    var t := Next(s, step).value;
    hide Parts, Listable;
    if step.Create? {
      var stage := WorkerOf(s, step.w).stage;
      if stage.pass.Some? {
        assert Holds(s, step.w, stage.pass.value);
      }
    }
    LostJob(s, step, j);
    forall w, pass | Holds(t, w, pass)
      ensures pass.job != j
    {
      LostHolder(s, step, w, pass);
    }
  }

  lemma LostJob(s: State, step: Step, j: nat)
    requires Lost(s, j) && Next(s, step).Some? && step != Resume(j)
    ensures j < |Next(s, step).value.jobs| && Next(s, step).value.jobs[j].state !in {Scheduled, PendingApproval}
  {
    hide Parts, Listable, Holds, FetchStep, ClaimStep, ListStep, CreateStep, CompleteItemStep;
    if step.Claim? || step.Fetch? || step.List? || step.Create? || step.CompleteItem? {
      WorkersKeepJobs(s, step);
    }
  }

  lemma WorkersKeepJobs(s: State, step: Step)
    requires Next(s, step).Some? && (step.Claim? || step.Fetch? || step.List? || step.Create? || step.CompleteItem?)
    ensures Next(s, step).value.jobs == s.jobs
  {
    hide Listable;
  }

  /** A worker that holds a pass after a step held it before, or has just started it. */
  lemma LostHolder(s: State, step: Step, w: nat, pass: Pass)
    requires Next(s, step).Some? && Holds(Next(s, step).value, w, pass)
    ensures Holds(s, w, pass) || (pass.job < |s.jobs| && s.jobs[pass.job].state == Scheduled)
  {
    hide Parts, Listable;
  }

  /** A pass that broke off is never taken up again: unless somebody resumes the job, no run
      adds a delivery to it. */
  lemma {:induction false} BrokenPassStaysBroken(s: State, steps: seq<Step>, j: nat)
    requires Lost(s, j) && Run(s, steps).Some? && Resume(j) !in steps
    ensures var t := Run(s, steps).value;
            s.deliveries <= t.deliveries &&
            forall k | |s.deliveries| <= k < |t.deliveries| :: t.deliveries[k].pass.Some? ==> t.deliveries[k].pass.value.job != j
    decreases |steps|
  {
    if steps != [] {
      LostStep(s, steps[0], j);
      BrokenPassStaysBroken(Next(s, steps[0]).value, steps[1..], j);
    }
  }

  // ----- where the guarantees stop -----

  lemma {:induction false} RunConcat(s: State, a: seq<Step>, b: seq<Step>)
    requires Run(s, a).Some?
    ensures Run(s, a + b) == Run(Run(s, a).value, b)
    decreases |a|
  {
    if a == [] {
      assert a + b == b;
    } else {
      assert (a + b)[1..] == a[1..] + b;
      RunConcat(Next(s, a[0]).value, a[1..], b);
    }
  }

  /** One more step at the end of a run. */
  lemma Then(r: seq<Step>, s: State, step: Step) returns (r': seq<Step>, s': State)
    requires Run(INITIAL, r) == Some(s) && Next(s, step).Some?
    ensures Run(INITIAL, r') == Some(s') && Next(s, step) == Some(s')
  {
    hide Next;
    r', s' := r + [step], Next(s, step).value;
    RunConcat(INITIAL, r, [step]);
    assert [step][1..] == [];
    assert Run(s', []) == Some(s');
  }

  const WANTED := Request(Some(0), None, false)

  function Rows(job: Job, done: bool, deliveries: seq<Delivery>, workers: map<nat, Worker>): State {
    State([job], [Event(true, false)], [Item(ReplayJob(0), done)], deliveries, workers)
  }

  function TheJob(state: JobState, starts: nat, resumes: nat, reverts: nat): Job {
    Job(state, false, 0, 0, None, WANTED, starts, resumes, reverts)
  }

  function Fan(start: nat, parts: seq<Part>, todo: seq<nat>): Worker {
    Worker([0], Fanning(Some(Pass(0, start)), parts, todo))
  }

  lemma ReplayCreated() returns (r: seq<Step>, s: State)
    ensures Run(INITIAL, r) == Some(s)
    ensures s == Rows(TheJob(Scheduled, 0, 0, 0), false, [], map[])
  {
    hide Run, StartStep, FetchStep, ClaimStep, ListStep, CreateStep, FinishPassStep, UpdateJobStep, CompleteItemStep;
    EmptyRun(INITIAL);
    r, s := Then([], INITIAL, AddEvent(Event(true, false)));
    assert s == State([], [Event(true, false)], [], [], map[]);
    r, s := Then(r, s, CreateReplay(false, WANTED, 0, 0, 0));
  }

  /** A verified event, a replay of it, and worker 1 through its start. */
  lemma Opening() returns (r: seq<Step>, s: State)
    ensures Run(INITIAL, r) == Some(s)
    ensures s == Rows(TheJob(Running, 1, 0, 0), false, [], map[1 := Fan(1, [CurrentEvent(0)], [])])
  {
    hide Run, ListStep, CreateStep, FinishPassStep, UpdateJobStep, CompleteItemStep;
    r, s := ReplayCreated();
    r, s := Then(r, s, Claim(1, [0]));
    assert s == Rows(TheJob(Scheduled, 0, 0, 0), false, [], map[1 := Worker([0], Idle)]);
    r, s := Then(r, s, Fetch(1));
    assert s == Rows(TheJob(Scheduled, 0, 0, 0), false, [], map[1 := Worker([0], GotJob(0, Scheduled))]);
    r, s := Then(r, s, Start(1));
    assert Parts(WANTED) == [CurrentEvent(0)];
  }

  lemma EmptyRun(s: State)
    ensures Run(s, []) == Some(s)
  {
  }

  const FIRST := Delivery(0, Some(Pass(0, 1)), 1)
  const SECOND := Delivery(0, Some(Pass(0, 2)), 2)

  lemma FirstDelivery() returns (r: seq<Step>, s: State)
    ensures Run(INITIAL, r) == Some(s)
    ensures s == Rows(TheJob(Running, 1, 0, 0), false, [FIRST], map[1 := Fan(1, [], [])])
  {
    hide Run, StartStep, FetchStep, ClaimStep, FinishPassStep, CompleteItemStep, UpdateJobStep, ApproveStep, CreateReplayStep;
    r, s := Opening();
    assert [CurrentEvent(0)][1..] == [] && [0 as nat][1..] == [];
    r, s := Then(r, s, List(1, [0]));
    assert s == Rows(TheJob(Running, 1, 0, 0), false, [], map[1 := Fan(1, [], [0])]);
    r, s := Then(r, s, Create(1));
  }

  lemma FirstPass() returns (r: seq<Step>, s: State)
    ensures Run(INITIAL, r) == Some(s)
    ensures s == Rows(TheJob(Scheduled, 1, 1, 1), false, [FIRST], map[1 := Fan(1, [], [])])
  {
    hide Run, StartStep, FetchStep, ClaimStep, ListStep, CreateStep, FinishPassStep, CompleteItemStep, ApproveStep, CreateReplayStep;
    r, s := FirstDelivery();
    r, s := Then(r, s, Resume(0));
  }

  lemma SecondClaim() returns (r: seq<Step>, s: State)
    ensures Run(INITIAL, r) == Some(s)
    ensures s == Rows(TheJob(Scheduled, 1, 1, 1), false, [FIRST], map[1 := Fan(1, [], []), 2 := Worker([0], GotJob(0, Scheduled))])
  {
    hide Run, StartStep, ListStep, CreateStep, FinishPassStep, CompleteItemStep, UpdateJobStep, ApproveStep, CreateReplayStep;
    r, s := FirstPass();
    r, s := Then(r, s, Claim(2, [0]));
    assert s == Rows(TheJob(Scheduled, 1, 1, 1), false, [FIRST], map[1 := Fan(1, [], []), 2 := Worker([0], Idle)]);
    r, s := Then(r, s, Fetch(2));
  }

  lemma SecondStart() returns (r: seq<Step>, s: State)
    ensures Run(INITIAL, r) == Some(s)
    ensures s == Rows(TheJob(Running, 2, 1, 1), false, [FIRST], map[1 := Fan(1, [], []), 2 := Fan(2, [CurrentEvent(0)], [])])
  {
    hide Run, FetchStep, ClaimStep, ListStep, CreateStep, FinishPassStep, CompleteItemStep, UpdateJobStep, ApproveStep, CreateReplayStep;
    r, s := SecondClaim();
    r, s := Then(r, s, Start(2));
    assert Parts(WANTED) == [CurrentEvent(0)];
  }

  /** One resume after a start is enough for the same event to be delivered twice. */
  lemma ResumedJobDeliversTwice() returns (steps: seq<Step>)
    ensures Run(INITIAL, steps).Some?
    ensures var s := Run(INITIAL, steps).value;
            |s.jobs| == 1 && s.jobs[0].resumes == 1 && s.deliveries == [FIRST, SECOND]
  {
    hide Run, StartStep, FetchStep, ClaimStep, FinishPassStep, CompleteItemStep, UpdateJobStep;
    var r, s := SecondStart();
    var fan1 := Fan(1, [], []);
    assert [CurrentEvent(0)][1..] == [] && [0 as nat][1..] == [];
    r, s := Then(r, s, List(2, [0]));
    assert s == Rows(TheJob(Running, 2, 1, 1), false, [FIRST], map[1 := fan1, 2 := Fan(2, [], [0])]);
    r, s := Then(r, s, Create(2));
    assert s == Rows(TheJob(Running, 2, 1, 1), false, [FIRST, SECOND], map[1 := fan1, 2 := Fan(2, [], [])]);
    steps := r;
  }

  lemma BystanderSkips() returns (r: seq<Step>, s: State)
    ensures Run(INITIAL, r) == Some(s)
    ensures s == Rows(TheJob(Running, 1, 0, 0), false, [], map[1 := Fan(1, [CurrentEvent(0)], []), 2 := Worker([0], Finished)])
  {
    hide Run, FetchStep, ClaimStep, ListStep, CreateStep, FinishPassStep, UpdateJobStep, CompleteItemStep, ApproveStep, CreateReplayStep;
    r, s := BystanderLooks();
    r, s := Then(r, s, Start(2));
  }

  lemma BystanderLooks() returns (r: seq<Step>, s: State)
    ensures Run(INITIAL, r) == Some(s)
    ensures s == Rows(TheJob(Running, 1, 0, 0), false, [], map[1 := Fan(1, [CurrentEvent(0)], []), 2 := Worker([0], GotJob(0, Running))])
  {
    hide Run, StartStep, ListStep, CreateStep, FinishPassStep, UpdateJobStep, CompleteItemStep, ApproveStep, CreateReplayStep;
    r, s := Opening();
    r, s := Then(r, s, Claim(2, [0]));
    assert s == Rows(TheJob(Running, 1, 0, 0), false, [], map[1 := Fan(1, [CurrentEvent(0)], []), 2 := Worker([0], Idle)]);
    r, s := Then(r, s, Fetch(2));
  }

  lemma ItemCompletedByBystander() returns (r: seq<Step>, s: State)
    ensures Run(INITIAL, r) == Some(s)
    ensures s == Rows(TheJob(Running, 1, 0, 0), true, [], map[1 := Fan(1, [CurrentEvent(0)], []), 2 := Worker([], Idle)])
  {
    hide Run, StartStep, FetchStep, ClaimStep, ListStep, CreateStep, FinishPassStep, UpdateJobStep;
    r, s := BystanderSkips();
    assert [0 as nat][1..] == [];
    r, s := Then(r, s, CompleteItem(2));
    assert s.items == [Item(ReplayJob(0), true)];
  }

  /** Taking back a running job can strand it: it is scheduled again, but its only outbox
      item is completed, every worker is idle, and nothing was delivered. */
  lemma RevertedJobStranded() returns (steps: seq<Step>)
    ensures Run(INITIAL, steps).Some?
    ensures var s := Run(INITIAL, steps).value;
            && |s.jobs| == |s.items| == 1 && s.jobs[0].state == Scheduled && s.jobs[0].reverts == 1
            && s.items[0] == Item(ReplayJob(0), true) && s.deliveries == []
            && forall w :: WorkerOf(s, w) == Worker([], Idle)
  {
    hide Run, StartStep, FetchStep, ClaimStep, ListStep, CreateStep, FinishPassStep, CompleteItemStep;
    var r, s := ItemCompletedByBystander();
    var idle := map[1 := Worker([], Idle), 2 := Worker([], Idle)];
    r, s := Then(r, s, Fail(1));
    assert s == Rows(TheJob(Running, 1, 0, 0), true, [], idle);
    r, s := Then(r, s, Pause(0));
    assert s == Rows(TheJob(Paused, 1, 0, 1), true, [], idle);
    r, s := Then(r, s, Resume(0));
    assert s == Rows(TheJob(Scheduled, 1, 1, 1), true, [], idle);
    steps := r;
  }
}
