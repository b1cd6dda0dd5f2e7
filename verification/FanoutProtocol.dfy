/** The fan-out service takes the steps of a worker: whatever `CreateReplayDeliveries` leaves in
    the store, an uninterrupted run of one worker of `ReplayProtocol` leaves there too. So what
    is proved of all interleavings of such workers is about this service. */
module FanoutProtocol {
  import opened Text
  import F = Fanout
  import opened ReplayProtocol

  // ----- one store seen twice -----

  /** The service names rows, the protocol numbers them. */
  datatype Names = Names(job: string -> nat, event: string -> nat, delivery: string -> nat)

  datatype Tables = Tables(jobs: map<string, F.Job>, events: map<string, F.EventRow>, created: seq<F.Snapshot>,
                           originals: string -> seq<F.Source>, sources: string -> Option<F.Source>)

  function Wanted(n: Names, job: F.Job): Request {
    Request(if job.request.eventId == "" then None else Some(n.event(job.request.eventId)),
            if job.request.deliveryId == "" then None else Some(n.delivery(job.request.deliveryId)),
            F.ConfigMode(job) == F.ORIGINAL)
  }

  ghost predicate JobsMatch(n: Names, jobs: map<string, F.Job>, rows: seq<Job>) {
    && (forall id | id in jobs :: n.job(id) < |rows| && rows[n.job(id)].state == jobs[id].state && rows[n.job(id)].request == Wanted(n, jobs[id]))
    && (forall a, b | a in jobs && b in jobs && a != b :: n.job(a) != n.job(b))
  }

  ghost predicate EventsMatch(n: Names, events: map<string, F.EventRow>, rows: seq<Event>) {
    forall id | id in events ::
      n.event(id) < |rows| && rows[n.event(id)] == Event(events[id].verified, events[id].verifyReason == F.RECOVERED_REASON)
  }

  /** A delivery of the service and its row. */
  predicate SameDelivery(n: Names, x: F.Snapshot, row: Delivery) {
    && row.event == n.event(x.eventId) && (row.pass.None? <==> x.replayJobId == "")
    && (row.pass.Some? ==> row.pass.value.job == n.job(x.replayJobId))
  }

  /** The rows from `base` on are those the service made. */
  ghost predicate DeliveriesMatch(n: Names, base: nat, created: seq<F.Snapshot>, rows: seq<Delivery>) {
    |rows| == base + |created| && forall k | 0 <= k < |created| :: SameDelivery(n, created[k], rows[base + k])
  }

  /** What the service reads back of earlier deliveries is in the rows. */
  ghost predicate EarlierMatch(n: Names, t: Tables, rows: seq<Delivery>) {
    && (forall id | t.sources(id).Some? :: n.delivery(id) < |rows| && rows[n.delivery(id)].event == n.event(t.sources(id).value.eventId))
    && (forall id | t.originals(id) != [] :: exists d :: d in rows && d.event == n.event(id) && d.pass.None?)
    && (forall id, i | 0 <= i < |t.originals(id)| :: t.originals(id)[i].eventId == id)
  }

  ghost predicate Matches(n: Names, base: nat, t: Tables, s: State) {
    && JobsMatch(n, t.jobs, s.jobs) && EventsMatch(n, t.events, s.events)
    && DeliveriesMatch(n, base, t.created, s.deliveries) && EarlierMatch(n, t, s.deliveries)
  }

  // ----- runs of one worker -----

  predicate OfWorker(step: Step, w: nat) {
    match step
    case Fetch(v) => v == w
    case Start(v) => v == w
    case List(v, _) => v == w
    case Create(v) => v == w
    case FinishPass(v) => v == w
    case Fail(v) => v == w
    case _ => false
  }

  ghost predicate Reaches(s: State, w: nat, t: State) {
    exists steps :: Run(s, steps) == Some(t) && forall i | 0 <= i < |steps| :: OfWorker(steps[i], w)
  }

  lemma ReachesSelf(s: State, w: nat)
    ensures Reaches(s, w, s)
  {
    assert Run(s, []) == Some(s);
  }

  lemma ReachesStep(s: State, w: nat, step: Step)
    requires OfWorker(step, w) && Next(s, step).Some?
    ensures Reaches(s, w, Next(s, step).value)
  {
    hide Next;
    assert [step][1..] == [];
    assert Run(Next(s, step).value, []) == Some(Next(s, step).value);
    assert Run(s, [step]) == Some(Next(s, step).value);
  }

  lemma ReachesTrans(s: State, w: nat, t: State, u: State)
    requires Reaches(s, w, t) && Reaches(t, w, u)
    ensures Reaches(s, w, u)
  {
    hide Run;
    var a :| Run(s, a) == Some(t) && forall i | 0 <= i < |a| :: OfWorker(a[i], w);
    var b :| Run(t, b) == Some(u) && forall i | 0 <= i < |b| :: OfWorker(b[i], w);
    RunConcat(s, a, b);
    assert forall i | 0 <= i < |a + b| :: OfWorker((a + b)[i], w);
  }

  // ----- a pass -----

  function Made(events: seq<nat>, pass: Option<Pass>, w: nat): (rows: seq<Delivery>)
    ensures |rows| == |events| && forall i | 0 <= i < |rows| :: rows[i] == Delivery(events[i], pass, w)
  {
    seq(|events|, i requires 0 <= i < |events| => Delivery(events[i], pass, w))
  }

  /** The worker at a point of its pass, with more deliveries stored. */
  function Point(s: State, w: nat, pass: Option<Pass>, parts: seq<Part>, todo: seq<nat>, made: seq<Delivery>): State {
    s.(deliveries := s.deliveries + made, workers := s.workers[w := Worker(WorkerOf(s, w).queue, Fanning(pass, parts, todo))])
  }

  lemma CreatesOne(s: State, w: nat, pass: Option<Pass>, parts: seq<Part>, todo: seq<nat>, made: seq<Delivery>)
    requires todo != []
    ensures Reaches(Point(s, w, pass, parts, todo, made), w, Point(s, w, pass, parts, todo[1..], made + [Delivery(todo[0], pass, w)]))
  {
    var here := Point(s, w, pass, parts, todo, made);
    var row := Delivery(todo[0], pass, w);
    var next := Point(s, w, pass, parts, todo[1..], made + [row]);
    assert s.deliveries + made + [row] == s.deliveries + (made + [row]);
    assert here.workers[w := next.workers[w]] == next.workers;
    assert Next(here, Create(w)) == Some(next);
    hide Reaches, Next;
    ReachesStep(here, w, Create(w));
  }

  lemma {:induction false} Creates(s: State, w: nat, pass: Option<Pass>, parts: seq<Part>, todo: seq<nat>, made: seq<Delivery>)
    ensures Reaches(Point(s, w, pass, parts, todo, made), w, Point(s, w, pass, parts, [], made + Made(todo, pass, w)))
    decreases |todo|
  {
    var here := Point(s, w, pass, parts, todo, made);
    if todo == [] {
      assert made + Made(todo, pass, w) == made;
      ReachesSelf(here, w);
    } else {
      var row := Delivery(todo[0], pass, w);
      var next := Point(s, w, pass, parts, todo[1..], made + [row]);
      CreatesOne(s, w, pass, parts, todo, made);
      hide Reaches, Point;
      Creates(s, w, pass, parts, todo[1..], made + [row]);
      assert made + Made(todo, pass, w) == made + [row] + Made(todo[1..], pass, w);
      ReachesTrans(here, w, next, Point(s, w, pass, parts, [], made + Made(todo, pass, w)));
    }
  }

  /** Listing a part and creating what it lists. */
  lemma PartRun(s: State, w: nat, pass: Option<Pass>, parts: seq<Part>, todo: seq<nat>, made: seq<Delivery>)
    requires parts != [] && Listable(Point(s, w, pass, parts, [], made), parts[0], todo)
    ensures Reaches(Point(s, w, pass, parts, [], made), w, Point(s, w, pass, parts[1..], [], made + Made(todo, pass, w)))
  {
    var here := Point(s, w, pass, parts, [], made);
    var listed := Point(s, w, pass, parts[1..], todo, made);
    assert here.workers[w := listed.workers[w]] == listed.workers;
    assert Next(here, List(w, todo)) == Some(listed);
    ReachesStep(here, w, List(w, todo));
    hide Reaches, Next;
    Creates(s, w, pass, parts[1..], todo, made);
    ReachesTrans(here, w, listed, Point(s, w, pass, parts[1..], [], made + Made(todo, pass, w)));
  }

  function DeliveryParts(request: Request): seq<Part> {
    if request.delivery.None? then [] else [ExistingDelivery(request.delivery.value)]
  }

  function Repeat(e: nat, count: nat): (events: seq<nat>)
    ensures |events| == count && forall i | 0 <= i < count :: events[i] == e
  {
    seq(count, _ => e)
  }

  /** The event half: a clone needs an original delivery, a new delivery a verified event. */
  lemma EventPartRun(n: Names, base: nat, t: Tables, s: State, w: nat, pass: Option<Pass>, work: F.Job, made: seq<F.Snapshot>)
    requires Matches(n, base, t, s) && F.EventPartMade(work, t.events, t.originals, made) && F.EventFound(work, t.events)
    ensures Reaches(Point(s, w, pass, Parts(Wanted(n, work)), [], []), w,
                    Point(s, w, pass, DeliveryParts(Wanted(n, work)), [], Made(Repeat(n.event(work.request.eventId), |made|), pass, w)))
  {
    var request := Wanted(n, work);
    var e := n.event(work.request.eventId);
    var here := Point(s, w, pass, Parts(request), [], []);
    if work.request.eventId == "" {
      assert Made(Repeat(e, |made|), pass, w) == [];
      assert Parts(request) == DeliveryParts(request);
      ReachesSelf(here, w);
    } else {
      var parts := Parts(request);
      assert parts[1..] == DeliveryParts(request);
      assert here.deliveries == s.deliveries;
      assert Listable(here, parts[0], Repeat(e, |made|));
      hide Reaches, Listable, Matches, Parts;
      PartRun(s, w, pass, parts, Repeat(e, |made|), []);
      assert [] + Made(Repeat(e, |made|), pass, w) == Made(Repeat(e, |made|), pass, w);
    }
  }

  /** The delivery half: it repeats the delivery asked for, or skips it. */
  lemma DeliveryPartRun(n: Names, base: nat, t: Tables, s: State, w: nat, pass: Option<Pass>, work: F.Job, count: nat, made: seq<Delivery>)
    requires Matches(n, base, t, s) && count <= 1
    requires work.request.deliveryId != "" && t.sources(work.request.deliveryId).Some?
    ensures Reaches(Point(s, w, pass, DeliveryParts(Wanted(n, work)), [], made), w,
                    Point(s, w, pass, [], [], made + Made(Repeat(n.event(t.sources(work.request.deliveryId).value.eventId), count), pass, w)))
  {
    var parts := DeliveryParts(Wanted(n, work));
    var e := n.event(t.sources(work.request.deliveryId).value.eventId);
    var here := Point(s, w, pass, parts, [], made);
    var d := n.delivery(work.request.deliveryId);
    assert here.deliveries[d] == s.deliveries[d];
    assert Repeat(e, 1) == [e] && Repeat(e, 0) == [];
    assert Listable(here, parts[0], Repeat(e, count));
    assert parts[1..] == [];
    hide Reaches, Listable, Matches;
    PartRun(s, w, pass, parts, Repeat(e, count), made);
  }

  // ----- serving a job -----

  /** A worker about to process the item of a job. */
  predicate AtItem(s: State, w: nat, j: nat) {
    var worker := WorkerOf(s, w);
    worker.stage == Idle && worker.queue != [] && worker.queue[0] < |s.items| && s.items[worker.queue[0]].kind == ReplayJob(j)
  }

  /** How the worker stands with the item after the service returned. */
  predicate Left(s: State, s': State, w: nat, r: F.Outcome) {
    WorkerOf(s', w) == match r
                       case Done => Worker(WorkerOf(s, w).queue, Finished)
                       case Deferred => Worker(if WorkerOf(s, w).queue == [] then [] else WorkerOf(s, w).queue[1..], Idle)
                       case Failed => Worker([], Idle)
  }

  /** Only the workers, or only the state of one job, changed. */
  lemma MatchesElsewhere(n: Names, base: nat, t: Tables, s: State, workers: map<nat, Worker>)
    requires Matches(n, base, t, s)
    ensures Matches(n, base, t, s.(workers := workers))
  {
  }

  lemma MatchesJob(n: Names, base: nat, t: Tables, s: State, jobId: string, row: Job, job: F.Job)
    requires Matches(n, base, t, s) && jobId in t.jobs && row.state == job.state
    requires row.request == s.jobs[n.job(jobId)].request && Wanted(n, job) == Wanted(n, t.jobs[jobId])
    ensures Matches(n, base, t.(jobs := t.jobs[jobId := job]), s.(jobs := s.jobs[n.job(jobId) := row]))
  {
    hide EventsMatch, DeliveriesMatch;
  }

  lemma EarlierGrows(n: Names, t: Tables, t': Tables, rows: seq<Delivery>, more: seq<Delivery>)
    requires EarlierMatch(n, t, rows) && t'.sources == t.sources && t'.originals == t.originals
    ensures EarlierMatch(n, t', rows + more)
  {
    forall id | t'.originals(id) != []
      ensures exists d :: d in rows + more && d.event == n.event(id) && d.pass.None?
    {
      var d :| d in rows && d.event == n.event(id) && d.pass.None?;
      assert d in rows + more;
    }
  }

  /** The rows of what a pass made. */
  function PassRows(n: Names, sources: string -> Option<F.Source>, work: F.Job, first: nat, second: int, pass: Option<Pass>, w: nat): seq<Delivery> {
    Made(Repeat(n.event(work.request.eventId), first), pass, w)
    + if second <= 0 || sources(work.request.deliveryId).None? then []
      else Made(Repeat(n.event(sources(work.request.deliveryId).value.eventId), second), pass, w)
  }

  lemma PassRowsMatch(n: Names, base: nat, t: Tables, t': Tables, s: State, jobId: string, work: F.Job, first: nat, start: nat, w: nat)
    requires Matches(n, base, t, s) && jobId != "" && t' == t.(created := t'.created)
    requires F.PassMade(jobId, work, t.events, t.originals, t.sources, t.created, t'.created, first)
    ensures var second := |t'.created| - |t.created| - first;
            Matches(n, base, t', s.(deliveries := s.deliveries + PassRows(n, t.sources, work, first, second, Some(Pass(n.job(jobId), start)), w)))
  {
    var second := |t'.created| - |t.created| - first;
    var rows := PassRows(n, t.sources, work, first, second, Some(Pass(n.job(jobId), start)), w);
    EarlierGrows(n, t, t', s.deliveries, rows);
    hide JobsMatch, EventsMatch;
    var all := s.deliveries + rows;
    forall k | 0 <= k < |t'.created|
      ensures SameDelivery(n, t'.created[k], all[base + k])
    {
      if k < |t.created| {
        assert t'.created[k] == t.created[k] && all[base + k] == s.deliveries[base + k];
      } else if k < |t.created| + first {
        assert t'.created[|t.created|..][..first][k - |t.created|] == t'.created[k];
      }
    }
  }

  lemma FetchRun(s: State, w: nat, j: nat)
    requires AtItem(s, w, j) && j < |s.jobs|
    ensures Reaches(s, w, AtStage(s, w, GotJob(j, s.jobs[j].state)))
  {
    assert Next(s, Fetch(w)) == Some(AtStage(s, w, GotJob(j, s.jobs[j].state)));
    ReachesStep(s, w, Fetch(w));
  }

  function Started(s: State, j: nat): State
    requires j < |s.jobs|
  {
    WithJob(s, j, s.jobs[j].(state := Running, starts := s.jobs[j].starts + 1))
  }

  /** Fetching a scheduled job and starting it. */
  lemma StartRun(s: State, w: nat, j: nat)
    requires AtItem(s, w, j) && j < |s.jobs| && s.jobs[j].state == Scheduled
    ensures Reaches(s, w, Point(Started(s, j), w, Some(Pass(j, s.jobs[j].starts + 1)), Parts(s.jobs[j].request), [], []))
  {
    var fetched := AtStage(s, w, GotJob(j, Scheduled));
    FetchRun(s, w, j);
    var started := Point(Started(s, j), w, Some(Pass(j, s.jobs[j].starts + 1)), Parts(s.jobs[j].request), [], []);
    assert fetched.workers[w := started.workers[w]] == started.workers;
    assert started.deliveries == s.deliveries;
    hide Parts;
    assert Next(fetched, Start(w)) == Some(started);
    hide Reaches, Next;
    ReachesStep(fetched, w, Start(w));
    ReachesTrans(s, w, fetched, started);
  }

  lemma FailRun(s: State, w: nat)
    ensures Reaches(s, w, s.(workers := s.workers[w := Worker([], Idle)]))
  {
    ReachesStep(s, w, Fail(w));
  }

  /** The end of a pass: the job is completed. */
  lemma FinishRun(s: State, w: nat, j: nat, start: nat, made: seq<Delivery>)
    requires j < |s.jobs| && s.jobs[j].state == Running
    ensures Reaches(Point(s, w, Some(Pass(j, start)), [], [], made), w,
                    s.(jobs := s.jobs[j := s.jobs[j].(state := Completed)], deliveries := s.deliveries + made,
                       workers := s.workers[w := Worker(WorkerOf(s, w).queue, Finished)]))
  {
    var here := Point(s, w, Some(Pass(j, start)), [], [], made);
    assert here.workers[w := Worker(WorkerOf(s, w).queue, Finished)] == s.workers[w := Worker(WorkerOf(s, w).queue, Finished)];
    ReachesStep(here, w, FinishPass(w));
  }

  /** From the start of a pass to what it made: all of it, or up to where it breaks off. */
  lemma PassRun(n: Names, base: nat, t: Tables, s: State, w: nat, pass: Option<Pass>, jobId: string, work: F.Job,
                before: seq<F.Snapshot>, after: seq<F.Snapshot>, first: nat, done: bool) returns (parts: seq<Part>)
    requires Matches(n, base, t, s) && F.PassMade(jobId, work, t.events, t.originals, t.sources, before, after, first)
    requires done ==> F.AllFound(work, t.events, t.sources)
    ensures Reaches(Point(s, w, pass, Parts(Wanted(n, work)), [], []), w,
                    Point(s, w, pass, parts, [], PassRows(n, t.sources, work, first, |after| - |before| - first, pass, w)))
    ensures done ==> parts == []
  {
    var second := |after| - |before| - first;
    var made := after[|before|..][..first];
    var e := n.event(work.request.eventId);
    var here := Point(s, w, pass, Parts(Wanted(n, work)), [], []);
    var rows := Made(Repeat(e, first), pass, w);
    if F.EventFound(work, t.events) || first > 0 {
      EventPartRun(n, base, t, s, w, pass, work, made);
      parts := DeliveryParts(Wanted(n, work));
      var half := Point(s, w, pass, parts, [], rows);
      hide Reaches, Matches, F.EventPartMade, F.EventFound, Parts;
      if work.request.deliveryId != "" && t.sources(work.request.deliveryId).Some? {
        DeliveryPartRun(n, base, t, s, w, pass, work, second, rows);
        parts := [];
        var all := PassRows(n, t.sources, work, first, second, pass, w);
        assert all == rows + Made(Repeat(n.event(t.sources(work.request.deliveryId).value.eventId), second), pass, w);
        ReachesTrans(here, w, half, Point(s, w, pass, [], [], all));
      } else {
        assert PassRows(n, t.sources, work, first, second, pass, w) == rows;
      }
    } else {
      parts := Parts(Wanted(n, work));
      assert PassRows(n, t.sources, work, first, second, pass, w) == [];
      ReachesSelf(here, w);
    }
  }

  /** A job that is not scheduled is skipped or deferred. */
  lemma SkipRun(s: State, w: nat, j: nat) returns (s': State)
    requires AtItem(s, w, j) && j < |s.jobs| && F.Gate(s.jobs[j].state).Some?
    ensures Reaches(s, w, s') && s' == s.(workers := s'.workers) && Left(s, s', w, F.Gate(s.jobs[j].state).value)
  {
    var fetched := AtStage(s, w, GotJob(j, s.jobs[j].state));
    FetchRun(s, w, j);
    hide Reaches;
    s' := Next(fetched, Start(w)).value;
    ReachesStep(fetched, w, Start(w));
    ReachesTrans(s, w, fetched, s');
  }

  /** A job that is not worked on: skipped or deferred, or the call failed before. */
  lemma GateRun(n: Names, base: nat, t: Tables, s: State, w: nat, jobId: string, r: F.Outcome) returns (s': State)
    requires Matches(n, base, t, s) && jobId in t.jobs && AtItem(s, w, n.job(jobId))
    requires r == F.Failed || F.Gate(t.jobs[jobId].state) == Some(r)
    ensures Reaches(s, w, s') && Matches(n, base, t, s') && Left(s, s', w, r)
  {
    assert n.job(jobId) < |s.jobs| && s.jobs[n.job(jobId)].state == t.jobs[jobId].state;
    hide Reaches, Matches, AtItem;
    if r == F.Failed {
      FailRun(s, w);
      s' := s.(workers := s.workers[w := Worker([], Idle)]);
    } else {
      s' := SkipRun(s, w, n.job(jobId));
    }
    MatchesElsewhere(n, base, t, s, s'.workers);
  }

  lemma StartedMatches(n: Names, base: nat, t: Tables, s: State, jobId: string)
    requires Matches(n, base, t, s) && jobId in t.jobs
    ensures n.job(jobId) < |s.jobs| && s.jobs[n.job(jobId)].request == Wanted(n, t.jobs[jobId])
    ensures s.jobs[n.job(jobId)].state == t.jobs[jobId].state
    ensures Matches(n, base, t.(jobs := t.jobs[jobId := t.jobs[jobId].(state := Running)]), Started(s, n.job(jobId)))
  {
    var j := n.job(jobId);
    MatchesJob(n, base, t, s, jobId, s.jobs[j].(state := Running, starts := s.jobs[j].starts + 1), t.jobs[jobId].(state := Running));
  }

  lemma CompletedMatches(n: Names, base: nat, t: Tables, s: State, jobId: string, processed: nat)
    requires Matches(n, base, t, s) && jobId in t.jobs
    ensures var j := n.job(jobId);
            j < |s.jobs|
            && Matches(n, base, t.(jobs := t.jobs[jobId := t.jobs[jobId].(state := Completed, processed := processed)]),
                       s.(jobs := s.jobs[j := s.jobs[j].(state := Completed)]))
  {
    var j := n.job(jobId);
    MatchesJob(n, base, t, s, jobId, s.jobs[j].(state := Completed), t.jobs[jobId].(state := Completed, processed := processed));
  }

  /** The pass of a started job, from the fetch to its last delivery. */
  lemma MadeRun(n: Names, base: nat, t: Tables, after: seq<F.Snapshot>, s: State, w: nat, jobId: string, first: nat, done: bool)
    returns (parts: seq<Part>, rows: seq<Delivery>)
    requires jobId != "" && jobId in t.jobs && t.jobs[jobId].state == Scheduled && Matches(n, base, t, s) && AtItem(s, w, n.job(jobId))
    requires F.PassMade(jobId, t.jobs[jobId], t.events, t.originals, t.sources, t.created, after, first)
    requires done ==> F.AllFound(t.jobs[jobId], t.events, t.sources)
    ensures n.job(jobId) < |s.jobs| && (done ==> parts == [])
    ensures var j := n.job(jobId);
            var s1 := Started(s, j);
            && Reaches(s, w, Point(s1, w, Some(Pass(j, s.jobs[j].starts + 1)), parts, [], rows))
            && Matches(n, base, t.(jobs := t.jobs[jobId := t.jobs[jobId].(state := Running)], created := after),
                       s1.(deliveries := s1.deliveries + rows))
  {
    hide Reaches, Matches, F.PassMade, F.AllFound, Parts, Started, AtItem, Point, PassRows, Wanted;
    var j, work := n.job(jobId), t.jobs[jobId];
    StartedMatches(n, base, t, s, jobId);
    StartRun(s, w, j);
    var start := s.jobs[j].starts + 1;
    var pass := Some(Pass(j, start));
    var s1, t1 := Started(s, j), t.(jobs := t.jobs[jobId := work.(state := Running)]);
    var second := |after| - |t.created| - first;
    parts := PassRun(n, base, t1, s1, w, pass, jobId, work, t.created, after, first, done);
    rows := PassRows(n, t1.sources, work, first, second, pass, w);
    ReachesTrans(s, w, Point(s1, w, pass, Parts(Wanted(n, work)), [], []), Point(s1, w, pass, parts, [], rows));
    PassRowsMatch(n, base, t1, t1.(created := after), s1, jobId, work, first, start, w);
  }

  lemma StartedKeeps(s: State, w: nat, j: nat)
    requires j < |s.jobs|
    ensures WorkerOf(Started(s, j), w) == WorkerOf(s, w) && j < |Started(s, j).jobs| && Started(s, j).jobs[j].state == Running
  {
  }

  /** A pass that breaks off. */
  lemma BrokenRun(n: Names, base: nat, t: Tables, after: seq<F.Snapshot>, s: State, w: nat, jobId: string, first: nat) returns (s': State)
    requires jobId != "" && jobId in t.jobs && t.jobs[jobId].state == Scheduled && Matches(n, base, t, s) && AtItem(s, w, n.job(jobId))
    requires F.PassMade(jobId, t.jobs[jobId], t.events, t.originals, t.sources, t.created, after, first)
    ensures Reaches(s, w, s') && Left(s, s', w, F.Failed)
    ensures Matches(n, base, t.(jobs := t.jobs[jobId := t.jobs[jobId].(state := Running)], created := after), s')
  {
    hide Reaches, Matches, F.PassMade, Started, AtItem;
    var parts, rows := MadeRun(n, base, t, after, s, w, jobId, first, false);
    var j := n.job(jobId);
    var s1 := Started(s, j);
    var made := Point(s1, w, Some(Pass(j, s.jobs[j].starts + 1)), parts, [], rows);
    FailRun(made, w);
    s' := made.(workers := made.workers[w := Worker([], Idle)]);
    ReachesTrans(s, w, made, s');
    MatchesElsewhere(n, base, t.(jobs := t.jobs[jobId := t.jobs[jobId].(state := Running)], created := after),
                     s1.(deliveries := s1.deliveries + rows), s'.workers);
  }

  /** A pass that gets to its end. */
  lemma CompleteRun(n: Names, base: nat, t: Tables, after: seq<F.Snapshot>, s: State, w: nat, jobId: string, first: nat, processed: nat)
    returns (s': State)
    requires jobId != "" && jobId in t.jobs && t.jobs[jobId].state == Scheduled && Matches(n, base, t, s) && AtItem(s, w, n.job(jobId))
    requires F.PassMade(jobId, t.jobs[jobId], t.events, t.originals, t.sources, t.created, after, first)
    requires F.AllFound(t.jobs[jobId], t.events, t.sources)
    ensures Reaches(s, w, s') && Left(s, s', w, F.Done)
    ensures Matches(n, base, t.(jobs := t.jobs[jobId := t.jobs[jobId].(state := Completed, processed := processed)], created := after), s')
  {
    hide Reaches, Matches, F.PassMade, F.AllFound, Started, AtItem;
    var parts, rows := MadeRun(n, base, t, after, s, w, jobId, first, true);
    var j := n.job(jobId);
    var s1 := Started(s, j);
    StartedKeeps(s, w, j);
    FinishRun(s1, w, j, s.jobs[j].starts + 1, rows);
    var t1 := t.(jobs := t.jobs[jobId := t.jobs[jobId].(state := Running)], created := after);
    var s2 := s1.(deliveries := s1.deliveries + rows);
    CompletedMatches(n, base, t1, s2, jobId, processed);
    var s3 := s2.(jobs := s2.jobs[j := s2.jobs[j].(state := Completed)]);
    s' := s3.(workers := s1.workers[w := Worker(WorkerOf(s1, w).queue, Finished)]);
    assert t1.jobs[jobId := t1.jobs[jobId].(state := Completed, processed := processed)]
        == t.jobs[jobId := t.jobs[jobId].(state := Completed, processed := processed)];
    ReachesTrans(s, w, Point(s1, w, Some(Pass(j, s.jobs[j].starts + 1)), [], [], rows), s');
    MatchesElsewhere(n, base, t1.(jobs := t.jobs[jobId := t.jobs[jobId].(state := Completed, processed := processed)]), s3, s'.workers);
  }

  /** What the service leaves in the store when it serves a job, a run of one worker leaves in
      the protocol's store: the same jobs, the same deliveries, and the worker as far with its
      item as the outcome says. */
  lemma ServiceTakesWorkerSteps(n: Names, base: nat, t: Tables, t': Tables, s: State, w: nat, jobId: string, r: F.Outcome, first: nat)
    returns (s': State)
    requires jobId != "" && jobId in t.jobs && Matches(n, base, t, s) && AtItem(s, w, n.job(jobId))
    requires t' == t.(jobs := t'.jobs, created := t'.created)
    requires F.Served(jobId, t.jobs[jobId], r, t.jobs, t'.jobs, t.events, t.originals, t.sources, t.created, t'.created, first)
    ensures Reaches(s, w, s') && Matches(n, base, t', s') && Left(s, s', w, r)
  {
    hide Reaches, Matches, F.AllFound, AtItem;
    assert |t.created| <= |t'.created|;
    hide F.PassMade;
    if F.Gate(t.jobs[jobId].state).Some? || (r == F.Failed && t'.jobs == t.jobs && t'.created == t.created) {
      s' := GateRun(n, base, t, s, w, jobId, r);
    } else if r == F.Done {
      s' := CompleteRun(n, base, t, t'.created, s, w, jobId, first, |t'.created| - |t.created|);
    } else {
      s' := BrokenRun(n, base, t, t'.created, s, w, jobId, first);
    }
  }
}
