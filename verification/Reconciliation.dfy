/** Provider reconciliation: per scanned object a lookup, a capture and a redelivery request,
    inside jobs that can fail, be cancelled or be cut off at any call. Whatever the outside
    world answers comes in as an argument; `Cut` means the process stops at that call. */
module Reconciliation {
  import opened Text

  type Id = string

  // ----- what the outside answers -----

  /** A provider object. `deliveryId` is the printed form of its metadata member of that name. */
  datatype Object = Object(
    id: Id,
    objectType: string,
    failed: bool,
    redeliverable: bool,
    recoverable: bool,
    body: string,
    deliveryId: Option<string>)

  datatype Reply = Fine | Broken(text: string) | Cut

  datatype EvidenceReply = Stored(id: Id) | NotStored(text: string) | EvidenceCut

  datatype LookupResult = LookedUp(found: Object) | Unsupported | LookupError(text: string)

  /** A capture commits before it asks for routing, so it can commit and still report an error. */
  datatype CaptureReply = Committed(event: Id) | CommittedLate(event: Id, text: string) | NotCommitted(text: string) | CaptureCut

  datatype RedeliveryReply = Accepted | Rejected(text: string) | RedeliveryCut

  datatype Answers = Answers(
    find: Reply,
    lookup: LookupResult,
    lookupEvidence: seq<EvidenceReply>,
    capture: CaptureReply,
    redelivery: RedeliveryReply,
    redeliveryEvidence: seq<EvidenceReply>,
    insert: Reply,
    itemId: Id,
    attach: Reply)

  datatype Scan = Scanned(objects: seq<(Object, Answers)>, nextCursor: string) | ScanError(text: string)

  datatype JobAnswers = JobAnswers(
    get: Reply,
    adapterKnown: bool,
    start: Reply,
    canScan: bool,
    limitations: string,
    capabilityId: Id,
    capabilityItemId: Id,
    capabilityInsert: Reply,
    scanEvidence: seq<EvidenceReply>,
    scan: Scan,
    cursor: Reply,
    canceledMeanwhile: bool,
    finish: Reply)

  // ----- what is stored -----

  datatype Outcome = Matched | Missing | Captured | Unrecoverable | Failed | RedeliveryRequested

  datatype Item = Item(
    id: Id,
    jobId: Id,
    objectId: Id,
    objectType: string,
    outcome: Outcome,
    localEvent: Id,
    recoveredEvent: Id,
    evidence: Id,
    redeliveryRequested: bool,
    error: string)

  datatype JobState = JobScheduled | JobRunning | JobCompleted | JobFailed | JobCanceled

  datatype Counts = Counts(total: nat, matched: nat, missing: nat, captured: nat, redelivered: nat, unrecoverable: nat, failed: nat)

  const NO_COUNTS := Counts(0, 0, 0, 0, 0, 0, 0)

  datatype Flags = Flags(captureMissing: bool, redeliverFailed: bool)

  /** `scanned` remembers, for no code to read, which objects the job's scan returned. */
  datatype Job = Job(state: JobState, flags: Flags, cursor: string, error: string, counts: Counts, scanned: seq<Id>)

  /** `events` maps a provider object to its first local event; `captures` and `redeliveries`
      list the calls that took effect, in order. */
  datatype World = World(
    events: map<Id, Id>,
    captures: seq<Id>,
    redeliveries: seq<Id>,
    evidence: seq<Id>,
    attached: seq<(Id, Id)>,
    items: seq<Item>,
    jobs: map<Id, Job>)

  const NO_PAYLOAD := "provider does not expose recoverable payload evidence for this object"
  const NO_BODY := "provider API did not include a recoverable payload body"
  const UNSUPPORTED_PROVIDER := "unsupported"

  datatype Status = Going | Errored(text: string) | CutOff

  // ----- one object -----

  /** `providerLookupID`. */
  function LookupId(obj: Object): Id {
    if obj.deliveryId.Some? && obj.deliveryId.value != "" then obj.deliveryId.value else obj.id
  }

  /** Stores evidence until a call fails; `last` is the id stored last. */
  function Store(w: World, replies: seq<EvidenceReply>, last: Id): (r: (World, Status, Id))
    ensures r.0 == w.(evidence := r.0.evidence)
    decreases |replies|
  {
    if replies == [] then (w, Going, last)
    else
      match replies[0]
      case NotStored(text) => (w, Errored(text), last)
      case EvidenceCut => (w, CutOff, last)
      case Stored(id) => Store(w.(evidence := w.evidence + [id]), replies[1..], id)
  }

  /** The variables of `reconcileProviderObject`. */
  datatype Progress = Progress(w: World, status: Status, outcome: Outcome, error: string, evidence: Id, recovered: Id)

  predicate Ready(obj: Object) {
    obj.body != "" && obj.recoverable
  }

  /** The object whose payload is captured, and what became of it so far. */
  function Examined(obj: Object, a: Answers): (Object, Outcome, string) {
    if Ready(obj) then (obj, Missing, "")
    else
      match a.lookup
      case LookedUp(found) => (found, Missing, "")
      case Unsupported => (obj, Unrecoverable, NO_PAYLOAD)
      case LookupError(text) => (obj, Failed, text)
  }

  function Commit(w: World, obj: Id, event: Id): World {
    w.(events := if obj in w.events then w.events else w.events[obj := event], captures := w.captures + [obj])
  }

  function CapturePayload(p: Progress, target: Object, a: Answers): (r: Progress)
    ensures r.w == p.w.(events := r.w.events, captures := r.w.captures)
    ensures p.outcome != RedeliveryRequested ==> r.outcome != RedeliveryRequested
  {
    if p.outcome != Missing then p
    else if !Ready(target) then p.(outcome := Unrecoverable, error := NO_BODY)
    else
      match a.capture
      case Committed(event) => p.(w := Commit(p.w, target.id, event), outcome := Captured, recovered := event)
      case CommittedLate(event, text) => p.(w := Commit(p.w, target.id, event), outcome := Failed, error := text)
      case NotCommitted(text) => p.(outcome := Failed, error := text)
      case CaptureCut => p.(status := CutOff)
  }

  /** The attempt to recover an object without a local event. */
  function Recover(p: Progress, obj: Object, a: Answers): (r: Progress)
    ensures r.w == p.w.(events := r.w.events, captures := r.w.captures, evidence := r.w.evidence) && r.outcome != RedeliveryRequested
  {
    var (target, outcome, error) := Examined(obj, a);
    var (w, status, last) := Store(p.w, if Ready(obj) then [] else a.lookupEvidence, "");
    var p' := p.(w := w, status := status, outcome := outcome, error := error, evidence := last);
    if status != Going then p' else CapturePayload(p', target, a)
  }

  /** The redelivery request, which overrides what was found before. */
  function Redeliver(p: Progress, obj: Object, a: Answers): (r: Progress)
    ensures r.w == p.w.(redeliveries := r.w.redeliveries, evidence := r.w.evidence)
  {
    if a.redelivery == RedeliveryCut then p.(status := CutOff)
    else
      var asked := if a.redelivery == Accepted then p.w.(redeliveries := p.w.redeliveries + [LookupId(obj)]) else p.w;
      var (w, status, last) := Store(asked, a.redeliveryEvidence, p.evidence);
      var p' := p.(w := w, status := status, evidence := last);
      if status != Going then p'
      else if a.redelivery == Accepted then p'.(outcome := RedeliveryRequested)
      else p'.(outcome := Failed, error := a.redelivery.text)
  }

  predicate WantsRedelivery(flags: Flags, obj: Object) {
    flags.redeliverFailed && obj.failed && obj.redeliverable
  }

  function LocalEvent(w: World, obj: Id): Id {
    if obj in w.events then w.events[obj] else ""
  }

  /** Up to the redelivery request. */
  function FindOrRecover(w: World, flags: Flags, obj: Object, a: Answers): (r: Progress)
    ensures r.w.items == w.items && r.w.jobs == w.jobs && r.outcome != RedeliveryRequested
  {
    var p := Progress(w, Going, if obj.id in w.events then Matched else Missing, "", "", "");
    if obj.id !in w.events && flags.captureMissing then Recover(p, obj, a) else p
  }

  function Examine(w: World, flags: Flags, obj: Object, a: Answers): (r: Progress)
    ensures r.w.items == w.items && r.w.jobs == w.jobs
  {
    var p := FindOrRecover(w, flags, obj, a);
    if p.status != Going || !WantsRedelivery(flags, obj) then p else Redeliver(p, obj, a)
  }

  function ItemFor(jobId: Id, obj: Object, a: Answers, localEvent: Id, p: Progress): Item {
    Item(a.itemId, jobId, obj.id, obj.objectType, p.outcome, localEvent, p.recovered, p.evidence, p.outcome == RedeliveryRequested, p.error)
  }

  function After(reply: Reply): Status {
    match reply
    case Fine => Going
    case Broken(text) => Errored(text)
    case Cut => CutOff
  }

  /** `reconcileProviderObject`. */
  function Reconciled(w: World, jobId: Id, flags: Flags, obj: Object, a: Answers): (r: (World, Status))
    ensures r.0.jobs == w.jobs
  {
    if a.find != Fine then (w, After(a.find))
    else
      var p := Examine(w, flags, obj, a);
      if p.status != Going then (p.w, p.status)
      else if a.insert != Fine then (p.w, After(a.insert))
      else
        var w' := p.w.(items := p.w.items + [ItemFor(jobId, obj, a, LocalEvent(w, obj.id), p)]);
        if p.evidence == "" then (w', Going)
        else if a.attach != Fine then (w', After(a.attach))
        else (w'.(attached := w'.attached + [(a.itemId, p.evidence)]), Going)
  }

  // ----- jobs -----

  function ItemsOf(items: seq<Item>, jobId: Id): seq<Item>
    decreases |items|
  {
    if items == [] then []
    else
      var before := ItemsOf(items[..|items| - 1], jobId);
      if items[|items| - 1].jobId == jobId then before + [items[|items| - 1]] else before
  }

  function CountOf(items: seq<Item>, outcome: Outcome): (n: nat)
    ensures n <= |items|
    decreases |items|
  {
    if items == [] then 0
    else CountOf(items[..|items| - 1], outcome) + if items[|items| - 1].outcome == outcome then 1 else 0
  }

  function CountAll(items: seq<Item>): Counts {
    Counts(|items|, CountOf(items, Matched), CountOf(items, Missing), CountOf(items, Captured), CountOf(items, RedeliveryRequested),
           CountOf(items, Unrecoverable), CountOf(items, Failed))
  }

  function SetState(w: World, jobId: Id, state: JobState): World
    requires jobId in w.jobs
  {
    w.(jobs := w.jobs[jobId := w.jobs[jobId].(state := state)])
  }

  /** Nothing but the job's own row changes, and of that neither flags nor scan. */
  ghost predicate OnlyRow(w: World, w': World, jobId: Id) {
    && jobId in w.jobs && jobId in w'.jobs && w' == w.(jobs := w.jobs[jobId := w'.jobs[jobId]])
    && w'.jobs[jobId].flags == w.jobs[jobId].flags && w'.jobs[jobId].scanned == w.jobs[jobId].scanned
  }

  /** `FailReconciliationJob`: a cancelled job stays cancelled. */
  function Fail(w: World, jobId: Id, text: string, reply: Reply): (r: World)
    requires jobId in w.jobs
    ensures OnlyRow(w, r, jobId) && r.jobs[jobId].state in {w.jobs[jobId].state, JobFailed}
  {
    if reply != Fine || w.jobs[jobId].state == JobCanceled then w
    else w.(jobs := w.jobs[jobId := w.jobs[jobId].(state := JobFailed, error := text)])
  }

  /** `CompleteReconciliationJob`: the counters are taken from the job's items. */
  function Complete(w: World, jobId: Id, reply: Reply): (r: World)
    requires jobId in w.jobs
    ensures OnlyRow(w, r, jobId) && r.jobs[jobId].state in {w.jobs[jobId].state, JobCompleted}
    ensures w.jobs[jobId].state != JobCompleted && r.jobs[jobId].state == JobCompleted ==>
              r.jobs[jobId].counts == CountAll(ItemsOf(w.items, jobId))
  {
    if reply != Fine || w.jobs[jobId].state == JobCanceled then w
    else w.(jobs := w.jobs[jobId := w.jobs[jobId].(state := JobCompleted, counts := CountAll(ItemsOf(w.items, jobId)))])
  }

  function ReconcileAll(w: World, jobId: Id, flags: Flags, objects: seq<(Object, Answers)>): (r: (World, Status))
    ensures r.0.jobs == w.jobs
    decreases |objects|
  {
    if objects == [] then (w, Going)
    else
      var (w', status) := Reconciled(w, jobId, flags, objects[0].0, objects[0].1);
      if status != Going then (w', status) else ReconcileAll(w', jobId, flags, objects[1..])
  }

  function Ids(objects: seq<(Object, Answers)>): (ids: seq<Id>)
    ensures |ids| == |objects| && forall i | 0 <= i < |ids| :: ids[i] == objects[i].0.id
  {
    seq(|objects|, i requires 0 <= i < |objects| => objects[i].0.id)
  }

  function CapabilityItem(jobId: Id, a: JobAnswers): Item {
    Item(a.capabilityItemId, jobId, a.capabilityId, "capability", Unrecoverable, "", "", "", false, a.limitations)
  }

  function Remember(w: World, jobId: Id, ids: seq<Id>): World
    requires jobId in w.jobs
  {
    w.(jobs := w.jobs[jobId := w.jobs[jobId].(scanned := ids)])
  }

  function Meanwhile(w: World, jobId: Id, canceled: bool): (r: World)
    requires jobId in w.jobs
    ensures OnlyRow(w, r, jobId) && r.jobs[jobId].state in {w.jobs[jobId].state, JobCanceled}
  {
    if canceled then SetState(w, jobId, JobCanceled) else w
  }

  function Advance(w: World, jobId: Id, cursor: string): (r: World)
    requires jobId in w.jobs
    ensures OnlyRow(w, r, jobId) && r.jobs[jobId].state == w.jobs[jobId].state
  {
    if cursor == "" then w else w.(jobs := w.jobs[jobId := w.jobs[jobId].(cursor := cursor)])
  }

  /** The end of a job whose scan succeeded. */
  function Settle(w: World, status: Status, jobId: Id, nextCursor: string, a: JobAnswers): (r: World)
    requires jobId in w.jobs
    ensures OnlyRow(w, r, jobId)
    ensures w.jobs[jobId].state == JobRunning ==>
              && r.jobs[jobId].state != JobScheduled
              && (r.jobs[jobId].state == JobCompleted ==> status == Going && r.jobs[jobId].counts == CountAll(ItemsOf(w.items, jobId)))
  {
    var w1 := Meanwhile(w, jobId, a.canceledMeanwhile);
    if status == CutOff then w1
    else if status.Errored? then Fail(w1, jobId, status.text, a.finish)
    else if nextCursor != "" && a.cursor != Fine then w1
    else Complete(Advance(w1, jobId, nextCursor), jobId, a.finish)
  }

  /** The part of `RunReconciliationJob` after the job is running. */
  function RunStarted(w: World, jobId: Id, flags: Flags, a: JobAnswers): World
    requires jobId in w.jobs
  {
    if !a.canScan then
      var w' := Meanwhile(Remember(w, jobId, [a.capabilityId]), jobId, a.canceledMeanwhile);
      if a.capabilityInsert != Fine then w'
      else Complete(w'.(items := w'.items + [CapabilityItem(jobId, a)]), jobId, a.finish)
    else
      var (w1, status, _) := Store(w, a.scanEvidence, "");
      if status != Going then w1
      else if a.scan.ScanError? then Fail(Meanwhile(w1, jobId, a.canceledMeanwhile), jobId, a.scan.text, a.finish)
      else
        var (w2, status2) := ReconcileAll(Remember(w1, jobId, Ids(a.scan.objects)), jobId, flags, a.scan.objects);
        Settle(w2, status2, jobId, a.scan.nextCursor, a)
  }

  /** `RunReconciliationJob`. Starting is a test-and-set from scheduled to running. */
  function RunJob(w: World, jobId: Id, a: JobAnswers): World {
    if a.get != Fine || jobId !in w.jobs then w
    else
      var job := w.jobs[jobId];
      if job.state == JobCanceled || job.state == JobCompleted then w
      else if !a.adapterKnown then Fail(w, jobId, UNSUPPORTED_PROVIDER, a.finish)
      else if a.start != Fine || job.state != JobScheduled then w
      else RunStarted(SetState(w, jobId, JobRunning), jobId, job.flags, a)
  }

  // ----- what one object's reconciliation does -----

  predicate AllStored(replies: seq<EvidenceReply>) {
    forall i | 0 <= i < |replies| :: replies[i].Stored?
  }

  function AsReply(e: EvidenceReply): Reply {
    match e
    case Stored(_) => Fine
    case NotStored(text) => Broken(text)
    case EvidenceCut => Cut
  }

  function Replies(es: seq<EvidenceReply>): (calls: seq<Reply>)
    ensures |calls| == |es| && forall i | 0 <= i < |es| :: calls[i] == AsReply(es[i])
  {
    seq(|es|, i requires 0 <= i < |es| => AsReply(es[i]))
  }

  ghost predicate AllFine(calls: seq<Reply>) {
    forall i | 0 <= i < |calls| :: calls[i] == Fine
  }

  /** A chain of calls goes through, or stops at the first that fails and reports that one. */
  ghost predicate Stops(calls: seq<Reply>, status: Status) {
    || (status == Going && AllFine(calls))
    || exists k | 0 <= k < |calls| ::
         AllFine(calls[..k]) && ((calls[k].Broken? && status == Errored(calls[k].text)) || (calls[k] == Cut && status == CutOff))
  }

  lemma StopsEarlier(calls: seq<Reply>, more: seq<Reply>, status: Status)
    requires Stops(calls, status) && status != Going
    ensures Stops(calls + more, status) && !AllFine(calls + more) && !AllFine(calls)
  {
    var k :| 0 <= k < |calls| && AllFine(calls[..k]) &&
             ((calls[k].Broken? && status == Errored(calls[k].text)) || (calls[k] == Cut && status == CutOff));
    assert (calls + more)[..k] == calls[..k] && (calls + more)[k] == calls[k] != Fine;
  }

  lemma StopsLater(calls: seq<Reply>, more: seq<Reply>, status: Status)
    requires AllFine(calls) && Stops(more, status)
    ensures Stops(calls + more, status)
    ensures AllFine(calls + more) <==> AllFine(more)
  {
    if !(status == Going && AllFine(more)) {
      var k :| 0 <= k < |more| && AllFine(more[..k]) &&
               ((more[k].Broken? && status == Errored(more[k].text)) || (more[k] == Cut && status == CutOff));
      var n := |calls| + k;
      assert (calls + more)[..n] == calls + more[..k] && (calls + more)[n] == more[k] != Fine;
    }
    if AllFine(calls + more) {
      assert forall i | 0 <= i < |more| :: more[i] == (calls + more)[|calls| + i];
    }
  }

  lemma StopsGoing(calls: seq<Reply>, status: Status)
    requires Stops(calls, status)
    ensures status == Going <==> AllFine(calls)
  {
  }

  lemma StopsAt(reply: Reply)
    ensures Stops([reply], After(reply))
  {
    assert AllFine([reply][..0]) && [reply][0] == reply;
  }

  /** The evidence stored before a call failed. */
  ghost function StoredIds(replies: seq<EvidenceReply>): (ids: seq<Id>)
    ensures |ids| <= |replies| && forall i | 0 <= i < |ids| :: replies[i] == Stored(ids[i])
    ensures |ids| < |replies| ==> !replies[|ids|].Stored?
    decreases |replies|
  {
    if replies == [] || !replies[0].Stored? then [] else [replies[0].id] + StoredIds(replies[1..])
  }

  ghost function LastStored(replies: seq<EvidenceReply>, none: Id): Id {
    var ids := StoredIds(replies);
    if ids == [] then none else ids[|ids| - 1]
  }

  lemma {:induction false} StoreKeeps(w: World, replies: seq<EvidenceReply>, last: Id)
    ensures var (w', status, id) := Store(w, replies, last);
            w' == w.(evidence := w.evidence + StoredIds(replies)) && id == LastStored(replies, last)
    decreases |replies|
  {
    hide StoredIds, LastStored;
    if replies != [] && replies[0].Stored? {
      var id := replies[0].id;
      StoreKeeps(w.(evidence := w.evidence + [id]), replies[1..], id);
      StoredCons(replies, last);
      assert w.evidence + [id] + StoredIds(replies[1..]) == w.evidence + ([id] + StoredIds(replies[1..]));
    } else {
      StoredNone(replies, last);
      assert w.evidence + [] == w.evidence;
    }
  }

  lemma StoredNone(replies: seq<EvidenceReply>, last: Id)
    requires replies == [] || !replies[0].Stored?
    ensures StoredIds(replies) == [] && LastStored(replies, last) == last
  {
  }

  lemma StoredCons(replies: seq<EvidenceReply>, last: Id)
    requires replies != [] && replies[0].Stored?
    ensures StoredIds(replies) == [replies[0].id] + StoredIds(replies[1..])
    ensures LastStored(replies, last) == LastStored(replies[1..], replies[0].id)
  {
  }

  lemma RepliesCons(replies: seq<EvidenceReply>)
    requires replies != []
    ensures Replies(replies) == [AsReply(replies[0])] + Replies(replies[1..])
    ensures AllStored(replies) <==> replies[0].Stored? && AllStored(replies[1..])
  {
    assert forall i | 0 < i < |replies| :: replies[i] == replies[1..][i - 1];
  }

  lemma {:induction false} StoreStops(w: World, replies: seq<EvidenceReply>, last: Id)
    ensures Stops(Replies(replies), Store(w, replies, last).1)
    ensures Store(w, replies, last).1 == Going <==> AllStored(replies)
    decreases |replies|
  {
    if replies == [] {
      StopsNone();
    } else {
      RepliesCons(replies);
      StopsAt(AsReply(replies[0]));
      hide Stops, AllFine, AllStored;
      if replies[0].Stored? {
        StoreStops(w.(evidence := w.evidence + [replies[0].id]), replies[1..], replies[0].id);
        OneFine();
        StopsLater([Fine], Replies(replies[1..]), Store(w, replies, last).1);
      } else {
        StopsEarlier([AsReply(replies[0])], Replies(replies[1..]), Store(w, replies, last).1);
      }
    }
  }

  lemma OneFine()
    ensures AllFine([Fine])
  {
  }

  lemma StopsNone()
    ensures Stops([], Going)
  {
  }

  /** The object whose payload a capture takes. */
  function Payload(obj: Object, a: Answers): Object {
    if Ready(obj) || !a.lookup.LookedUp? then obj else a.lookup.found
  }

  predicate CaptureTakesEffect(a: Answers) {
    a.capture.Committed? || a.capture.CommittedLate?
  }

  /** Exactly when an object's reconciliation captures. */
  predicate Captures(w: World, flags: Flags, obj: Object, a: Answers) {
    && a.find == Fine && obj.id !in w.events && flags.captureMissing
    && (Ready(obj) || (AllStored(a.lookupEvidence) && a.lookup.LookedUp? && Ready(a.lookup.found)))
    && CaptureTakesEffect(a)
  }

  /** From w to w', captures and events change as `Captures` says and no other way. */
  ghost predicate CapturesExactly(w: World, flags: Flags, obj: Object, a: Answers, w': World) {
    if Captures(w, flags, obj, a)
    then
      && w'.captures == w.captures + [Payload(obj, a).id]
      && w'.events == if Payload(obj, a).id in w.events then w.events else w.events[Payload(obj, a).id := a.capture.event]
    else w'.captures == w.captures && w'.events == w.events
  }

  // ----- what is reported about it -----

  /** Which calls are made, and what comes back, up to the redelivery request. */
  predicate LooksUp(w: World, flags: Flags, obj: Object) {
    obj.id !in w.events && flags.captureMissing && (obj.body == "" || !obj.recoverable)
  }

  predicate TriesCapture(w: World, flags: Flags, obj: Object, a: Answers) {
    && obj.id !in w.events && flags.captureMissing
    && ((obj.body != "" && obj.recoverable) || (a.lookup.LookedUp? && a.lookup.found.body != "" && a.lookup.found.recoverable))
  }

  ghost function CallsToRecover(w: World, flags: Flags, obj: Object, a: Answers): seq<Reply> {
    [a.find]
    + ((if LooksUp(w, flags, obj) then Replies(a.lookupEvidence) else [])
       + (if TriesCapture(w, flags, obj, a) then [if a.capture.CaptureCut? then Cut else Fine] else []))
  }

  ghost predicate RedeliveryWanted(flags: Flags, obj: Object) {
    flags.redeliverFailed && obj.failed && obj.redeliverable
  }

  ghost function CallsToRedeliver(flags: Flags, obj: Object, a: Answers): seq<Reply> {
    if RedeliveryWanted(flags, obj) then [if a.redelivery.RedeliveryCut? then Cut else Fine] + Replies(a.redeliveryEvidence) else []
  }

  ghost predicate FromCapture(capture: CaptureReply, outcome: Outcome, error: string, recovered: Id) {
    match capture
    case Committed(event) => outcome == Captured && error == "" && recovered == event
    case CommittedLate(_, text) => outcome == Failed && error == text && recovered == ""
    case NotCommitted(text) => outcome == Failed && error == text && recovered == ""
    case CaptureCut => false
  }

  /** What is found out about an object: a table of the stored events, the flags and the answers. */
  ghost predicate Found(w: World, flags: Flags, obj: Object, a: Answers, outcome: Outcome, error: string, recovered: Id) {
    if obj.id in w.events then outcome == Matched && error == "" && recovered == ""
    else if !flags.captureMissing then outcome == Missing && error == "" && recovered == ""
    else if obj.body != "" && obj.recoverable then FromCapture(a.capture, outcome, error, recovered)
    else
      match a.lookup
      case Unsupported =>
        outcome == Unrecoverable && error == "provider does not expose recoverable payload evidence for this object" && recovered == ""
      case LookupError(text) => outcome == Failed && error == text && recovered == ""
      case LookedUp(found) =>
        if found.body != "" && found.recoverable then FromCapture(a.capture, outcome, error, recovered)
        else outcome == Unrecoverable && error == "provider API did not include a recoverable payload body" && recovered == ""
  }

  /** What an item reports: what was found out, unless a redelivery was wanted; then whether it
      was accepted. An accepted one keeps the error found before. */
  ghost predicate Outcomes(w: World, flags: Flags, obj: Object, a: Answers, outcome: Outcome, error: string, recovered: Id) {
    if !RedeliveryWanted(flags, obj) then Found(w, flags, obj, a, outcome, error, recovered)
    else
      exists o, e ::
        && Found(w, flags, obj, a, o, e, recovered)
        && match a.redelivery
           case Accepted => outcome == RedeliveryRequested && error == e
           case Rejected(text) => outcome == Failed && error == text
           case RedeliveryCut => false
  }

  /** The inserted item, member by member. */
  ghost predicate Tells(w: World, jobId: Id, flags: Flags, obj: Object, a: Answers, x: Item) {
    && x.id == a.itemId && x.jobId == jobId && x.objectId == obj.id && x.objectType == obj.objectType
    && x.localEvent == (if obj.id in w.events then w.events[obj.id] else "")
    && x.evidence == LastStored(if RedeliveryWanted(flags, obj) then a.redeliveryEvidence else [],
                                LastStored(if LooksUp(w, flags, obj) then a.lookupEvidence else [], ""))
    && (x.redeliveryRequested <==> x.outcome == RedeliveryRequested)
    && Outcomes(w, flags, obj, a, x.outcome, x.error, x.recoveredEvent)
  }

  /** Where `FindOrRecover` gets to. */
  ghost predicate FoundOut(w: World, flags: Flags, obj: Object, a: Answers, p: Progress) {
    && Stops(CallsToRecover(w, flags, obj, a), p.status)
    && CapturesExactly(w, flags, obj, a, p.w)
    && p.w == w.(events := p.w.events, captures := p.w.captures,
                 evidence := w.evidence + StoredIds(if LooksUp(w, flags, obj) then a.lookupEvidence else []))
    && (p.status == Going ==>
          && Found(w, flags, obj, a, p.outcome, p.error, p.recovered)
          && p.evidence == LastStored(if LooksUp(w, flags, obj) then a.lookupEvidence else [], ""))
  }

  lemma CaptureLaw(p: Progress, a: Answers, target: Object)
    requires p.status == Going && p.recovered == "" && p.error == "" && p.outcome == Missing
    ensures var r := CapturePayload(p, target, a);
            && (Ready(target) ==> Stops([if a.capture.CaptureCut? then Cut else Fine], r.status)
                                  && (r.status == Going ==> FromCapture(a.capture, r.outcome, r.error, r.recovered)))
            && (!Ready(target) ==> r.status == Going && r.w == p.w && r.outcome == Unrecoverable && r.error == NO_BODY && r.recovered == "")
            && r.evidence == p.evidence && r.w == p.w.(events := r.w.events, captures := r.w.captures)
  {
    StopsAt(if a.capture.CaptureCut? then Cut else Fine);
  }

  /** The calls of a recovery: the search for the event, the evidence of a lookup, the capture. */
  lemma RecoveryCalls(w: World, flags: Flags, obj: Object, a: Answers, evidence: Status, capture: Status)
    requires a.find == Fine
    requires Stops(if LooksUp(w, flags, obj) then Replies(a.lookupEvidence) else [], evidence)
    requires evidence == Going ==>
               Stops(if TriesCapture(w, flags, obj, a) then [if a.capture.CaptureCut? then Cut else Fine] else [], capture)
    ensures Stops(CallsToRecover(w, flags, obj, a), if evidence == Going then capture else evidence)
  {
    var asked := if LooksUp(w, flags, obj) then Replies(a.lookupEvidence) else [];
    var tail := if TriesCapture(w, flags, obj, a) then [if a.capture.CaptureCut? then Cut else Fine] else [];
    OneFine();
    hide Stops, AllFine, LooksUp, TriesCapture, Replies;
    if evidence == Going {
      StopsGoing(asked, evidence);
      StopsLater(asked, tail, capture);
      StopsLater([a.find], asked + tail, capture);
    } else {
      StopsEarlier(asked, tail, evidence);
      StopsLater([a.find], asked + tail, evidence);
    }
  }

  lemma RecoverCaptures(p: Progress, flags: Flags, obj: Object, a: Answers)
    requires p.status == Going && a.find == Fine && flags.captureMissing && obj.id !in p.w.events
    ensures CapturesExactly(p.w, flags, obj, a, Recover(p, obj, a).w)
  {
    StoreStops(p.w, if Ready(obj) then [] else a.lookupEvidence, "");
    hide Store, Stops, Replies;
  }

  /** Look up, record, capture: for an object without an event, when capturing was asked for. */
  lemma RecoverLaw(p: Progress, flags: Flags, obj: Object, a: Answers)
    requires p.status == Going && p.outcome == Missing && p.recovered == "" && p.error == "" && p.evidence == ""
    requires a.find == Fine && flags.captureMissing && obj.id !in p.w.events
    ensures FoundOut(p.w, flags, obj, a, Recover(p, obj, a))
  {
    RecoverCaptures(p, flags, obj, a);
    var asked := if Ready(obj) then [] else a.lookupEvidence;
    StoreKeeps(p.w, asked, "");
    StoreStops(p.w, asked, "");
    assert Replies([]) == [];
    hide Store, Stops, StoredIds, LastStored, Replies, CallsToRecover, CapturesExactly, AllStored, Commit;
    var (w, status, last) := Store(p.w, asked, "");
    var (target, outcome, error) := Examined(obj, a);
    var p' := p.(w := w, status := status, outcome := outcome, error := error, evidence := last);
    var r := Recover(p, obj, a);
    if status != Going {
      RecoveryCalls(p.w, flags, obj, a, status, Going);
    } else if outcome != Missing {
      StopsNone();
      RecoveryCalls(p.w, flags, obj, a, Going, Going);
    } else {
      CaptureLaw(p', a, target);
      StopsNone();
      hide FromCapture, CapturePayload;
      RecoveryCalls(p.w, flags, obj, a, Going, r.status);
    }
  }

  lemma FindOrRecoverLaw(w: World, flags: Flags, obj: Object, a: Answers)
    requires a.find == Fine
    ensures FoundOut(w, flags, obj, a, FindOrRecover(w, flags, obj, a))
  {
    if obj.id !in w.events && flags.captureMissing {
      RecoverLaw(Progress(w, Going, Missing, "", "", ""), flags, obj, a);
      hide Recover, FoundOut;
    } else {
      assert CallsToRecover(w, flags, obj, a) == [Fine];
      StopsAt(Fine);
      assert w.evidence + [] == w.evidence;
    }
  }

  /** The object's reconciliation up to the item. */
  ghost predicate Examines(w: World, flags: Flags, obj: Object, a: Answers, p: Progress) {
    && Stops(CallsToRecover(w, flags, obj, a) + CallsToRedeliver(flags, obj, a), p.status)
    && CapturesExactly(w, flags, obj, a, p.w)
    && Asks(w, flags, obj, a, p.w) && Keeps(w, flags, obj, a, p.w)
    && p.w == w.(events := p.w.events, captures := p.w.captures, evidence := p.w.evidence, redeliveries := p.w.redeliveries)
    && (p.status == Going ==>
          && Outcomes(w, flags, obj, a, p.outcome, p.error, p.recovered)
          && p.evidence == LastStored(if RedeliveryWanted(flags, obj) then a.redeliveryEvidence else [],
                                      LastStored(if LooksUp(w, flags, obj) then a.lookupEvidence else [], "")))
  }

  ghost predicate RequestMade(w: World, flags: Flags, obj: Object, a: Answers) {
    AllFine(CallsToRecover(w, flags, obj, a)) && RedeliveryWanted(flags, obj) && !a.redelivery.RedeliveryCut?
  }

  /** A redelivery is asked for exactly when it is wanted and everything before went through, by
      the delivery id the provider gave, else by the object's. */
  ghost predicate Asks(w: World, flags: Flags, obj: Object, a: Answers, w': World) {
    w'.redeliveries == w.redeliveries
    + (if RequestMade(w, flags, obj, a) && a.redelivery == Accepted
       then [if obj.deliveryId.Some? && obj.deliveryId.value != "" then obj.deliveryId.value else obj.id]
       else [])
  }

  /** The evidence that is kept, of the lookup and of the request. */
  ghost predicate Keeps(w: World, flags: Flags, obj: Object, a: Answers, w': World) {
    w'.evidence == w.evidence + StoredIds(if a.find == Fine && LooksUp(w, flags, obj) then a.lookupEvidence else [])
                   + StoredIds(if RequestMade(w, flags, obj, a) then a.redeliveryEvidence else [])
  }

  lemma RedeliveryCalls(w: World, flags: Flags, obj: Object, a: Answers, status: Status)
    requires RedeliveryWanted(flags, obj) && AllFine(CallsToRecover(w, flags, obj, a))
    requires if a.redelivery.RedeliveryCut? then status == CutOff else Stops(Replies(a.redeliveryEvidence), status)
    ensures Stops(CallsToRecover(w, flags, obj, a) + CallsToRedeliver(flags, obj, a), status)
  {
    var cut := if a.redelivery.RedeliveryCut? then Cut else Fine;
    StopsAt(cut);
    OneFine();
    hide Stops, AllFine, Replies, CallsToRecover;
    if a.redelivery.RedeliveryCut? {
      StopsEarlier([cut], Replies(a.redeliveryEvidence), status);
    } else {
      StopsLater([cut], Replies(a.redeliveryEvidence), status);
    }
    StopsLater(CallsToRecover(w, flags, obj, a), CallsToRedeliver(flags, obj, a), status);
  }

  lemma RedeliverAsks(w: World, flags: Flags, obj: Object, a: Answers, p: Progress)
    requires AllFine(CallsToRecover(w, flags, obj, a)) && RedeliveryWanted(flags, obj) && p.w.redeliveries == w.redeliveries
    ensures Asks(w, flags, obj, a, Redeliver(p, obj, a).w)
  {
    hide AllFine, CallsToRecover, Store;
    assert w.redeliveries + [] == w.redeliveries;
  }

  lemma RedeliverKeeps(w: World, flags: Flags, obj: Object, a: Answers, p: Progress)
    requires AllFine(CallsToRecover(w, flags, obj, a)) && RedeliveryWanted(flags, obj) && a.find == Fine
    requires p.w.evidence == w.evidence + StoredIds(if LooksUp(w, flags, obj) then a.lookupEvidence else [])
    ensures Keeps(w, flags, obj, a, Redeliver(p, obj, a).w)
  {
    RedeliverEvidence(p, obj, a);
    StoredNone([], "");
    hide AllFine, CallsToRecover, Redeliver, StoredIds, LooksUp;
    assert p.w.evidence + [] == p.w.evidence;
  }

  lemma RedeliverEvidence(p: Progress, obj: Object, a: Answers)
    ensures Redeliver(p, obj, a).w.evidence == if a.redelivery.RedeliveryCut? then p.w.evidence else p.w.evidence + StoredIds(a.redeliveryEvidence)
  {
    var asked := if a.redelivery == Accepted then p.w.(redeliveries := p.w.redeliveries + [LookupId(obj)]) else p.w;
    StoreKeeps(asked, a.redeliveryEvidence, p.evidence);
    hide Store, StoredIds, LastStored, LookupId;
  }

  lemma RedeliverOutcomes(w: World, flags: Flags, obj: Object, a: Answers, p: Progress)
    requires a.find == Fine && p.status == Going && RedeliveryWanted(flags, obj) && FoundOut(w, flags, obj, a, p)
    ensures var r := Redeliver(p, obj, a);
            r.status == Going ==>
              && Outcomes(w, flags, obj, a, r.outcome, r.error, r.recovered)
              && r.evidence == LastStored(a.redeliveryEvidence, LastStored(if LooksUp(w, flags, obj) then a.lookupEvidence else [], ""))
  {
    var asked := if a.redelivery == Accepted then p.w.(redeliveries := p.w.redeliveries + [LookupId(obj)]) else p.w;
    StoreKeeps(asked, a.redeliveryEvidence, p.evidence);
    hide Store, Stops, StoredIds, LastStored, CallsToRecover, CapturesExactly, Found, LooksUp, LookupId;
  }

  lemma RedeliverLaw(w: World, flags: Flags, obj: Object, a: Answers, p: Progress)
    requires a.find == Fine && p.status == Going && RedeliveryWanted(flags, obj) && FoundOut(w, flags, obj, a, p)
    ensures Examines(w, flags, obj, a, Redeliver(p, obj, a))
  {
    StopsGoing(CallsToRecover(w, flags, obj, a), p.status);
    RedeliverAsks(w, flags, obj, a, p);
    RedeliverKeeps(w, flags, obj, a, p);
    RedeliverOutcomes(w, flags, obj, a, p);
    var asked := if a.redelivery == Accepted then p.w.(redeliveries := p.w.redeliveries + [LookupId(obj)]) else p.w;
    StoreStops(asked, a.redeliveryEvidence, p.evidence);
    hide Store, Stops, AllFine, StoredIds, LastStored, Replies, CallsToRecover, CallsToRedeliver, CapturesExactly, Outcomes, Asks, Keeps, LooksUp, LookupId, Found;
    RedeliveryCalls(w, flags, obj, a, Redeliver(p, obj, a).status);
    SameCaptures(w, flags, obj, a, p.w, Redeliver(p, obj, a).w);
  }

  lemma SameCaptures(w: World, flags: Flags, obj: Object, a: Answers, x: World, y: World)
    requires CapturesExactly(w, flags, obj, a, x) && y.captures == x.captures && y.events == x.events
    ensures CapturesExactly(w, flags, obj, a, y)
  {
  }

  lemma NotRedelivered(w: World, flags: Flags, obj: Object, a: Answers, p: Progress)
    requires a.find == Fine && FoundOut(w, flags, obj, a, p) && (p.status != Going || !RedeliveryWanted(flags, obj))
    ensures Examines(w, flags, obj, a, p)
  {
    var before := CallsToRecover(w, flags, obj, a);
    StopsGoing(before, p.status);
    assert StoredIds([]) == [];
    hide Stops, AllFine, StoredIds, LastStored, Replies, CallsToRecover, CapturesExactly, Found, LooksUp;
    if p.status != Going {
      StopsEarlier(before, CallsToRedeliver(flags, obj, a), p.status);
    } else {
      assert before + CallsToRedeliver(flags, obj, a) == before;
    }
    assert w.redeliveries + [] == w.redeliveries && p.w.evidence + [] == p.w.evidence;
  }

  lemma ExamineLaw(w: World, flags: Flags, obj: Object, a: Answers)
    requires a.find == Fine
    ensures Examines(w, flags, obj, a, Examine(w, flags, obj, a))
  {
    FindOrRecoverLaw(w, flags, obj, a);
    hide FoundOut, Examines, FindOrRecover, Redeliver;
    var p := FindOrRecover(w, flags, obj, a);
    if p.status == Going && WantsRedelivery(flags, obj) {
      RedeliverLaw(w, flags, obj, a, p);
    } else {
      NotRedelivered(w, flags, obj, a, p);
    }
  }

  /** Every call up to the item went through. */
  ghost predicate ItemReached(w: World, flags: Flags, obj: Object, a: Answers) {
    AllFine(CallsToRecover(w, flags, obj, a) + CallsToRedeliver(flags, obj, a) + [a.insert])
  }

  /** What one object's reconciliation does. It captures exactly when `Captures` holds, under the
      id of the payload's object, and loses no event. It asks for a redelivery exactly when one
      is wanted and nothing failed before. It inserts one item exactly when all calls up to that
      went through, and the item tells what happened. It attaches the evidence kept last to the
      item, and it stops at the first call that fails, with that error. */
  ghost predicate Happened(w: World, jobId: Id, flags: Flags, obj: Object, a: Answers, w': World, status: Status) {
    && CapturesExactly(w, flags, obj, a, w') && Asks(w, flags, obj, a, w') && Keeps(w, flags, obj, a, w') && w'.jobs == w.jobs
    && (if ItemReached(w, flags, obj, a) then
          && |w'.items| == |w.items| + 1 && w'.items[..|w.items|] == w.items
          && var x := w'.items[|w.items|];
             && Tells(w, jobId, flags, obj, a, x)
             && w'.attached == w.attached + (if x.evidence != "" && a.attach == Fine then [(x.id, x.evidence)] else [])
             && Stops(if x.evidence != "" then [a.attach] else [], status)
        else
          && w'.items == w.items && w'.attached == w.attached
          && Stops(CallsToRecover(w, flags, obj, a) + CallsToRedeliver(flags, obj, a) + [a.insert], status))
  }

  lemma ItemTells(w: World, jobId: Id, flags: Flags, obj: Object, a: Answers, p: Progress)
    requires p.status == Going && Examines(w, flags, obj, a, p)
    ensures Tells(w, jobId, flags, obj, a, ItemFor(jobId, obj, a, LocalEvent(w, obj.id), p))
  {
    hide Outcomes, Asks, Keeps, CapturesExactly, Stops, LastStored;
  }

  lemma NotFound(w: World, jobId: Id, flags: Flags, obj: Object, a: Answers)
    requires a.find != Fine
    ensures Happened(w, jobId, flags, obj, a, w, After(a.find))
  {
    var rest := CallsToRecover(w, flags, obj, a)[1..] + CallsToRedeliver(flags, obj, a) + [a.insert];
    var all := CallsToRecover(w, flags, obj, a) + CallsToRedeliver(flags, obj, a) + [a.insert];
    StopsAt(a.find);
    assert all == [a.find] + rest && CallsToRecover(w, flags, obj, a)[0] == a.find;
    StopsEarlier([a.find], rest, After(a.find));
    assert w.redeliveries + [] == w.redeliveries && w.evidence + [] + [] == w.evidence;
  }

  lemma NotInserted(w: World, jobId: Id, flags: Flags, obj: Object, a: Answers, p: Progress, status: Status)
    requires Examines(w, flags, obj, a, p) && p.w.items == w.items && p.w.attached == w.attached && p.w.jobs == w.jobs
    requires if p.status != Going then status == p.status else a.insert != Fine && status == After(a.insert)
    ensures Happened(w, jobId, flags, obj, a, p.w, status)
  {
    var calls := CallsToRecover(w, flags, obj, a) + CallsToRedeliver(flags, obj, a);
    StopsAt(a.insert);
    StopsGoing(calls, p.status);
    hide CapturesExactly, Asks, Keeps, Outcomes, Stops, AllFine, CallsToRecover, CallsToRedeliver, LastStored;
    if p.status != Going {
      StopsEarlier(calls, [a.insert], status);
    } else {
      StopsLater(calls, [a.insert], status);
      StopsGoing(calls + [a.insert], status);
    }
  }

  lemma Inserted(w: World, flags: Flags, obj: Object, a: Answers, p: Progress)
    requires Examines(w, flags, obj, a, p) && p.status == Going && a.insert == Fine
    ensures ItemReached(w, flags, obj, a)
  {
    var calls := CallsToRecover(w, flags, obj, a) + CallsToRedeliver(flags, obj, a);
    StopsGoing(calls, p.status);
    hide CallsToRecover, CallsToRedeliver;
  }

  lemma ReconciledLaw(w: World, jobId: Id, flags: Flags, obj: Object, a: Answers)
    ensures Happened(w, jobId, flags, obj, a, Reconciled(w, jobId, flags, obj, a).0, Reconciled(w, jobId, flags, obj, a).1)
  {
    if a.find != Fine {
      NotFound(w, jobId, flags, obj, a);
      hide Happened;
    } else {
      ExamineLaw(w, flags, obj, a);
      var p := Examine(w, flags, obj, a);
      assert p.w.items == w.items && p.w.attached == w.attached && p.w.jobs == w.jobs;
      hide Examines, Examine;
      if p.status != Going || a.insert != Fine {
        NotInserted(w, jobId, flags, obj, a, p, Reconciled(w, jobId, flags, obj, a).1);
        hide Happened;
      } else {
        Inserted(w, flags, obj, a, p);
        ItemTells(w, jobId, flags, obj, a, p);
        ItemHappened(w, jobId, flags, obj, a, p);
      }
    }
  }

  lemma SameAll(w: World, flags: Flags, obj: Object, a: Answers, x: World, y: World)
    requires CapturesExactly(w, flags, obj, a, x) && Asks(w, flags, obj, a, x) && Keeps(w, flags, obj, a, x)
    requires y.captures == x.captures && y.events == x.events && y.redeliveries == x.redeliveries && y.evidence == x.evidence
    ensures CapturesExactly(w, flags, obj, a, y) && Asks(w, flags, obj, a, y) && Keeps(w, flags, obj, a, y)
  {
  }

  lemma ItemHappened(w: World, jobId: Id, flags: Flags, obj: Object, a: Answers, p: Progress)
    requires Examines(w, flags, obj, a, p) && p.w.items == w.items && p.w.attached == w.attached && p.w.jobs == w.jobs
    requires ItemReached(w, flags, obj, a) && p.evidence == ItemFor(jobId, obj, a, LocalEvent(w, obj.id), p).evidence
    requires Tells(w, jobId, flags, obj, a, ItemFor(jobId, obj, a, LocalEvent(w, obj.id), p))
    ensures var x := ItemFor(jobId, obj, a, LocalEvent(w, obj.id), p);
            var w' := p.w.(items := p.w.items + [x]);
            && (p.evidence == "" ==> Happened(w, jobId, flags, obj, a, w', Going))
            && (p.evidence != "" && a.attach != Fine ==> Happened(w, jobId, flags, obj, a, w', After(a.attach)))
            && (p.evidence != "" && a.attach == Fine ==>
                  Happened(w, jobId, flags, obj, a, w'.(attached := w'.attached + [(a.itemId, p.evidence)]), Going))
  {
    StopsAt(a.attach);
    StopsNone();
    var x := ItemFor(jobId, obj, a, LocalEvent(w, obj.id), p);
    var w' := p.w.(items := p.w.items + [x]);
    assert x.id == a.itemId;
    assert w'.items[..|w.items|] == w.items && w'.items[|w.items|] == x && w.attached + [] == w.attached;
    SameAll(w, flags, obj, a, p.w, w');
    SameAll(w, flags, obj, a, p.w, w'.(attached := w'.attached + [(a.itemId, p.evidence)]));
    hide Tells, ItemReached, Stops, ItemFor, Captures, Payload, Commit, AllFine, StoredIds, CallsToRecover, CallsToRedeliver, LookupId, LastStored, Outcomes, LocalEvent, Asks, Keeps, CapturesExactly;
  }

  // ----- what running a job does -----

  /** The objects of a scan one after another, up to the first whose reconciliation stops. */
  ghost predicate Processed(w: World, jobId: Id, flags: Flags, objects: seq<(Object, Answers)>, w': World, status: Status)
    decreases |objects|
  {
    if objects == [] then w' == w && status == Going
    else
      exists w1, s ::
        && Happened(w, jobId, flags, objects[0].0, objects[0].1, w1, s)
        && if s != Going then w' == w1 && status == s else Processed(w1, jobId, flags, objects[1..], w', status)
  }

  lemma {:induction false} AllProcessed(w: World, jobId: Id, flags: Flags, objects: seq<(Object, Answers)>)
    ensures Processed(w, jobId, flags, objects, ReconcileAll(w, jobId, flags, objects).0, ReconcileAll(w, jobId, flags, objects).1)
    decreases |objects|
  {
    if objects != [] {
      ReconciledLaw(w, jobId, flags, objects[0].0, objects[0].1);
      var (w1, s) := Reconciled(w, jobId, flags, objects[0].0, objects[0].1);
      hide Reconciled, Happened;
      if s == Going {
        AllProcessed(w1, jobId, flags, objects[1..]);
      }
    }
  }

  /** How a job that was started ends: cancelled if it was meanwhile; else as the run decided,
      if that can be stored; else still running. */
  ghost predicate EndsAs(job: Job, job': Job, scanned: seq<Id>, cursor: string, canceled: bool, verdict: Option<Status>, stored: bool, own: seq<Item>) {
    && job'.flags == job.flags && job'.scanned == scanned && job'.cursor == cursor
    && if canceled then job'.state == JobCanceled && job'.error == job.error && job'.counts == job.counts
       else if verdict.None? || !stored then job'.state == JobRunning && job'.error == job.error && job'.counts == job.counts
       else if verdict.value.Errored? then job'.state == JobFailed && job'.error == verdict.value.text && job'.counts == job.counts
       else job'.state == JobCompleted && job'.error == job.error && job'.counts == CountAll(own)
  }

  /** What becomes of the job's row when the run fails, or completes, with a cancellation in
      between. */
  lemma FailRow(w: World, jobId: Id, text: string, canceled: bool, finish: Reply)
    requires jobId in w.jobs && w.jobs[jobId].state == JobRunning
    ensures var job, w' := w.jobs[jobId], Fail(Meanwhile(w, jobId, canceled), jobId, text, finish);
            && w' == w.(jobs := w.jobs[jobId := w'.jobs[jobId]])
            && EndsAs(job, w'.jobs[jobId], job.scanned, job.cursor, canceled, Some(Errored(text)), finish == Fine, [])
  {
  }

  lemma CompleteRow(w: World, jobId: Id, finish: Reply, from: Job)
    requires jobId in w.jobs && w.jobs[jobId].state in {JobRunning, JobCanceled}
    requires w.jobs[jobId].flags == from.flags && w.jobs[jobId].error == from.error && w.jobs[jobId].counts == from.counts
    ensures var job, w' := w.jobs[jobId], Complete(w, jobId, finish);
            && w' == w.(jobs := w.jobs[jobId := w'.jobs[jobId]])
            && EndsAs(from, w'.jobs[jobId], job.scanned, job.cursor, job.state == JobCanceled, Some(Going), finish == Fine, ItemsOf(w.items, jobId))
  {
    hide ItemsOf, CountAll;
  }

  /** A job that is started runs from this world on. */
  lemma StartedFrom(w: World, jobId: Id, a: JobAnswers) returns (w0: World)
    requires a.get == Fine && jobId in w.jobs && w.jobs[jobId].state == JobScheduled && a.adapterKnown && a.start == Fine
    ensures w0 == w.(jobs := w.jobs[jobId := w.jobs[jobId].(state := JobRunning)])
    ensures RunJob(w, jobId, a) == RunStarted(w0, jobId, w.jobs[jobId].flags, a)
  {
    hide RunStarted;
    w0 := SetState(w, jobId, JobRunning);
  }

  lemma ScanStored(w0: World, jobId: Id, flags: Flags, a: JobAnswers) returns (w1: World)
    requires jobId in w0.jobs && a.canScan
    ensures w1 == w0.(evidence := w0.evidence + StoredIds(a.scanEvidence))
    ensures RunStarted(w0, jobId, flags, a) ==
            if !AllStored(a.scanEvidence) then w1
            else if a.scan.ScanError? then Fail(Meanwhile(w1, jobId, a.canceledMeanwhile), jobId, a.scan.text, a.finish)
            else
              var (w2, status) := ReconcileAll(Remember(w1, jobId, Ids(a.scan.objects)), jobId, flags, a.scan.objects);
              Settle(w2, status, jobId, a.scan.nextCursor, a)
  {
    StoreKeeps(w0, a.scanEvidence, "");
    StoreStops(w0, a.scanEvidence, "");
    hide Store, Stops, StoredIds, LastStored, AllStored, Replies, Fail, Meanwhile, ReconcileAll, Settle, Ids, Remember;
    w1 := Store(w0, a.scanEvidence, "").0;
  }

  /** The run of a job whose scan came back: its objects are processed under the job's flags; a
      cut leaves it running, an error fails it with its text, and if all went through the cursor
      moves and the job completes with the counts of its items. */
  lemma ScannedRun(w: World, jobId: Id, a: JobAnswers) returns (mid: World, status: Status)
    requires a.get == Fine && jobId in w.jobs && w.jobs[jobId].state == JobScheduled && a.adapterKnown && a.start == Fine
    requires a.canScan && AllStored(a.scanEvidence) && a.scan.Scanned?
    ensures var job, w' := w.jobs[jobId], RunJob(w, jobId, a);
            && Processed(w.(jobs := w.jobs[jobId := job.(state := JobRunning, scanned := Ids(a.scan.objects))],
                            evidence := w.evidence + StoredIds(a.scanEvidence)),
                         jobId, job.flags, a.scan.objects, mid, status)
            && jobId in w'.jobs && w' == mid.(jobs := w.jobs[jobId := w'.jobs[jobId]])
            && var moved := status == Going && a.scan.nextCursor != "" && a.cursor == Fine;
               EndsAs(job, w'.jobs[jobId], Ids(a.scan.objects), if moved then a.scan.nextCursor else job.cursor, a.canceledMeanwhile,
                      if status == CutOff || (status == Going && a.scan.nextCursor != "" && !moved) then None else Some(status),
                      a.finish == Fine, ItemsOf(mid.items, jobId))
  {
    var job := w.jobs[jobId];
    var w0 := StartedFrom(w, jobId, a);
    var w1 := ScanStored(w0, jobId, job.flags, a);
    hide RunJob, RunStarted, Settle, Ids, ItemsOf, EndsAs, AllStored, StoredIds;
    var w2 := Remember(w1, jobId, Ids(a.scan.objects));
    assert w2.jobs == w.jobs[jobId := job.(state := JobRunning, scanned := Ids(a.scan.objects))];
    AllProcessed(w2, jobId, job.flags, a.scan.objects);
    hide Processed;
    mid, status := ReconcileAll(w2, jobId, job.flags, a.scan.objects).0, ReconcileAll(w2, jobId, job.flags, a.scan.objects).1;
    hide ReconcileAll;
    SettledRow(w, mid, status, jobId, a);
  }

  lemma SettledRow(w: World, mid: World, status: Status, jobId: Id, a: JobAnswers)
    requires a.scan.Scanned? && jobId in w.jobs
    requires mid.jobs == w.jobs[jobId := w.jobs[jobId].(state := JobRunning, scanned := Ids(a.scan.objects))]
    ensures var job, w' := w.jobs[jobId], Settle(mid, status, jobId, a.scan.nextCursor, a);
            && w' == mid.(jobs := w.jobs[jobId := w'.jobs[jobId]])
            && var moved := status == Going && a.scan.nextCursor != "" && a.cursor == Fine;
               EndsAs(job, w'.jobs[jobId], Ids(a.scan.objects), if moved then a.scan.nextCursor else job.cursor, a.canceledMeanwhile,
                      if status == CutOff || (status == Going && a.scan.nextCursor != "" && !moved) then None else Some(status),
                      a.finish == Fine, ItemsOf(mid.items, jobId))
  {
    hide Ids, ItemsOf, CountAll;
    var w' := Settle(mid, status, jobId, a.scan.nextCursor, a);
    assert w'.jobs == w.jobs[jobId := w'.jobs[jobId]];
  }

  /** Nothing happens to a job that is missing, has ended or is running; without an adapter it
      fails. */
  lemma RunNotStarted(w: World, jobId: Id, a: JobAnswers)
    requires a.get != Fine || jobId !in w.jobs || w.jobs[jobId].state != JobScheduled || !a.adapterKnown || a.start != Fine
    ensures RunJob(w, jobId, a) ==
            if a.get == Fine && jobId in w.jobs && w.jobs[jobId].state in {JobScheduled, JobRunning, JobFailed} && !a.adapterKnown && a.finish == Fine
            then w.(jobs := w.jobs[jobId := w.jobs[jobId].(state := JobFailed, error := "unsupported")])
            else w
  {
    hide RunStarted;
  }

  /** When the provider cannot be scanned, one item says so and the job completes; an item that
      cannot be inserted leaves it running. */
  lemma CapabilityRun(w: World, jobId: Id, a: JobAnswers)
    requires a.get == Fine && jobId in w.jobs && w.jobs[jobId].state == JobScheduled && a.adapterKnown && a.start == Fine
    requires !a.canScan && a.capabilityInsert == Fine
    ensures var job, w' := w.jobs[jobId], RunJob(w, jobId, a);
            var item := Item(a.capabilityItemId, jobId, a.capabilityId, "capability", Unrecoverable, "", "", "", false, a.limitations);
            && jobId in w'.jobs && w' == w.(jobs := w.jobs[jobId := w'.jobs[jobId]], items := w.items + [item])
            && EndsAs(job, w'.jobs[jobId], [a.capabilityId], job.cursor, a.canceledMeanwhile, Some(Going), a.finish == Fine,
                      ItemsOf(w.items + [item], jobId))
  {
    var job := w.jobs[jobId];
    var w0 := StartedFrom(w, jobId, a);
    var row := job.(state := if a.canceledMeanwhile then JobCanceled else JobRunning, scanned := [a.capabilityId]);
    var w1 := CapabilityStarted(w0, jobId, job.flags, a, row);
    var w2 := w1.(items := w1.items + [CapabilityItem(jobId, a)]);
    CompleteRow(w2, jobId, a.finish, job);
    hide RunJob, RunStarted, ItemsOf, CountAll, Complete, EndsAs;
    var row' := RunJob(w, jobId, a).jobs[jobId];
    assert w2.jobs[jobId := row'] == w.jobs[jobId := row'];
  }

  lemma CapabilityNotInserted(w: World, jobId: Id, a: JobAnswers)
    requires a.get == Fine && jobId in w.jobs && w.jobs[jobId].state == JobScheduled && a.adapterKnown && a.start == Fine
    requires !a.canScan && a.capabilityInsert != Fine
    ensures var job := w.jobs[jobId];
            RunJob(w, jobId, a) ==
            w.(jobs := w.jobs[jobId := job.(state := if a.canceledMeanwhile then JobCanceled else JobRunning, scanned := [a.capabilityId])])
  {
    var job := w.jobs[jobId];
    var w0 := StartedFrom(w, jobId, a);
    var row := job.(state := if a.canceledMeanwhile then JobCanceled else JobRunning, scanned := [a.capabilityId]);
    var w1 := CapabilityStarted(w0, jobId, job.flags, a, row);
    hide RunJob, RunStarted;
    assert w0.jobs[jobId := row] == w.jobs[jobId := row];
  }

  lemma CapabilityStarted(w0: World, jobId: Id, flags: Flags, a: JobAnswers, row: Job) returns (w1: World)
    requires jobId in w0.jobs && w0.jobs[jobId].state == JobRunning && !a.canScan
    requires row == w0.jobs[jobId].(state := if a.canceledMeanwhile then JobCanceled else JobRunning, scanned := [a.capabilityId])
    ensures w1 == w0.(jobs := w0.jobs[jobId := row])
    ensures RunStarted(w0, jobId, flags, a) ==
            if a.capabilityInsert != Fine then w1 else Complete(w1.(items := w1.items + [CapabilityItem(jobId, a)]), jobId, a.finish)
  {
    hide Complete;
    w1 := Meanwhile(Remember(w0, jobId, [a.capabilityId]), jobId, a.canceledMeanwhile);
    assert w1.jobs == w0.jobs[jobId := row];
  }

  /** A scan error fails the job with its text; evidence that cannot be stored leaves it running. */
  lemma ScanFailed(w: World, jobId: Id, a: JobAnswers)
    requires a.get == Fine && jobId in w.jobs && w.jobs[jobId].state == JobScheduled && a.adapterKnown && a.start == Fine
    requires a.canScan && (AllStored(a.scanEvidence) ==> a.scan.ScanError?)
    ensures var job, w' := w.jobs[jobId], RunJob(w, jobId, a);
            && jobId in w'.jobs
            && w' == w.(jobs := w.jobs[jobId := w'.jobs[jobId]], evidence := w.evidence + StoredIds(a.scanEvidence))
            && EndsAs(job, w'.jobs[jobId], job.scanned, job.cursor, AllStored(a.scanEvidence) && a.canceledMeanwhile,
                      if AllStored(a.scanEvidence) then Some(Errored(a.scan.text)) else None, a.finish == Fine, [])
  {
    var w0 := StartedFrom(w, jobId, a);
    var w1 := ScanStored(w0, jobId, w.jobs[jobId].flags, a);
    var w' := RunJob(w, jobId, a);
    hide RunJob, RunStarted, StoredIds, AllStored;
    if AllStored(a.scanEvidence) {
      FailRow(w1, jobId, a.scan.text, a.canceledMeanwhile, a.finish);
      hide Fail, Meanwhile;
    }
    assert w'.jobs == w.jobs[jobId := w'.jobs[jobId]];
  }

  // ----- runs -----

  /** `CancelReconciliationJob` looks at the state first and writes unconditionally after; a
      late write meets a job that has ended in between. */
  datatype Step =
    | Ingest(obj: Id, event: Id)
    | CreateJob(jobId: Id, flags: Flags)
    | CancelJob(jobId: Id, late: bool)
    | Run(jobId: Id, answers: JobAnswers)

  function Next(w: World, step: Step): World {
    match step
    case Ingest(obj, event) => if obj in w.events then w else w.(events := w.events[obj := event])
    case CreateJob(jobId, flags) =>
      if jobId in w.jobs then w else w.(jobs := w.jobs[jobId := Job(JobScheduled, flags, "", "", NO_COUNTS, [])])
    case CancelJob(jobId, late) =>
      if jobId !in w.jobs || (!late && w.jobs[jobId].state in {JobCompleted, JobFailed, JobCanceled}) then w
      else SetState(w, jobId, JobCanceled)
    case Run(jobId, a) => RunJob(w, jobId, a)
  }

  function Trace(w: World, steps: seq<Step>): World
    decreases |steps|
  {
    if steps == [] then w else Trace(Next(w, steps[0]), steps[1..])
  }

  const NOTHING := World(map[], [], [], [], [], [], map[])

  /** The provider answers a lookup with the object asked for. */
  ghost predicate KeepsIds(objects: seq<(Object, Answers)>) {
    forall i | 0 <= i < |objects| :: objects[i].1.lookup.LookedUp? ==> objects[i].1.lookup.found.id == objects[i].0.id
  }

  ghost predicate Faithful(steps: seq<Step>) {
    forall i | 0 <= i < |steps| :: steps[i].Run? && steps[i].answers.scan.Scanned? ==> KeepsIds(steps[i].answers.scan.objects)
  }

  ghost predicate CapturedOnce(w: World) {
    && (forall i, j | 0 <= i < j < |w.captures| :: w.captures[i] != w.captures[j])
    && (forall i | 0 <= i < |w.captures| :: w.captures[i] in w.events)
  }

  /** What every stored item says, in terms of the tables alone. */
  ghost predicate Sound(w: World, x: Item) {
    && x.jobId in w.jobs
    && (x.outcome == Matched ==> x.objectId in w.events && x.localEvent == w.events[x.objectId])
    && (x.outcome == Missing ==> !w.jobs[x.jobId].flags.captureMissing)
    && (x.outcome == Captured ==> w.jobs[x.jobId].flags.captureMissing && x.objectId in w.captures)
    && (x.redeliveryRequested <==> x.outcome == RedeliveryRequested)
    && (x.outcome == RedeliveryRequested ==> w.jobs[x.jobId].flags.redeliverFailed)
  }

  ghost predicate ItemsSound(w: World) {
    forall k | 0 <= k < |w.items| :: Sound(w, w.items[k])
  }

  /** Everything recorded so far is still so. */
  ghost predicate Grows(a: World, b: World) {
    && (forall o | o in a.events :: o in b.events && b.events[o] == a.events[o])
    && a.captures <= b.captures && a.items <= b.items
    && (forall j | j in a.jobs :: j in b.jobs && b.jobs[j].flags == a.jobs[j].flags)
  }

  /** No new captures but of objects that had no event, each once. */
  ghost predicate Fresh(a: World, b: World) {
    && a.captures <= b.captures
    && (forall i | |a.captures| <= i < |b.captures| :: b.captures[i] !in a.events)
  }

  lemma GrowsTransitive(a: World, b: World, c: World)
    requires Grows(a, b) && Grows(b, c)
    ensures Grows(a, c)
  {
  }

  lemma SoundStays(a: World, b: World, x: Item)
    requires Grows(a, b) && Sound(a, x)
    ensures Sound(b, x)
  {
    if x.objectId in a.captures {
      var i :| 0 <= i < |a.captures| && a.captures[i] == x.objectId;
      assert b.captures[i] == x.objectId;
    }
  }

  lemma ItemsStaySound(a: World, b: World)
    requires Grows(a, b) && ItemsSound(a)
    requires forall k | |a.items| <= k < |b.items| :: Sound(b, b.items[k])
    ensures ItemsSound(b)
  {
    forall k | 0 <= k < |b.items|
      ensures Sound(b, b.items[k])
    {
      if k < |a.items| {
        SoundStays(a, b, a.items[k]);
      }
    }
  }

  lemma CapturesOnce(w: World, flags: Flags, obj: Object, a: Answers, w': World)
    requires CapturedOnce(w) && CapturesExactly(w, flags, obj, a, w')
    requires a.lookup.LookedUp? ==> a.lookup.found.id == obj.id
    ensures CapturedOnce(w') && Fresh(w, w')
    ensures w.captures <= w'.captures && (forall o | o in w.events :: o in w'.events && w'.events[o] == w.events[o])
    ensures Captures(w, flags, obj, a) ==> obj.id in w'.captures
  {
    if Captures(w, flags, obj, a) {
      assert Payload(obj, a).id == obj.id && obj.id !in w.events;
      assert w'.captures[|w.captures|] == obj.id;
      hide Captures, Payload;
    }
  }

  lemma TellsSound(w: World, jobId: Id, flags: Flags, obj: Object, a: Answers, w': World, x: Item)
    requires Tells(w, jobId, flags, obj, a, x) && ItemReached(w, flags, obj, a)
    requires jobId in w'.jobs && w'.jobs[jobId].flags == flags
    requires forall o | o in w.events :: o in w'.events && w'.events[o] == w.events[o]
    requires Captures(w, flags, obj, a) ==> obj.id in w'.captures
    ensures Sound(w', x)
  {
    hide Captures, ItemReached;
    if x.outcome == Captured {
      CapturedByItem(w, jobId, flags, obj, a, x);
    }
  }

  lemma RecoveryWentThrough(w: World, flags: Flags, obj: Object, a: Answers)
    requires ItemReached(w, flags, obj, a)
    ensures a.find == Fine && (LooksUp(w, flags, obj) ==> AllStored(a.lookupEvidence))
  {
    var calls := CallsToRecover(w, flags, obj, a);
    var all := calls + CallsToRedeliver(flags, obj, a) + [a.insert];
    assert calls[0] == all[0];
    hide CallsToRedeliver, LooksUp, TriesCapture;
    if LooksUp(w, flags, obj) {
      forall i | 0 <= i < |a.lookupEvidence|
        ensures a.lookupEvidence[i].Stored?
      {
        assert AsReply(a.lookupEvidence[i]) == calls[1 + i] == all[1 + i];
      }
    }
  }

  /** A captured item was captured. */
  lemma CapturedByItem(w: World, jobId: Id, flags: Flags, obj: Object, a: Answers, x: Item)
    requires Tells(w, jobId, flags, obj, a, x) && ItemReached(w, flags, obj, a) && x.outcome == Captured
    ensures Captures(w, flags, obj, a) && flags.captureMissing && !RedeliveryWanted(flags, obj)
  {
    RecoveryWentThrough(w, flags, obj, a);
    hide ItemReached, LastStored, AllStored;
  }

  lemma ObjectKeeps(w: World, jobId: Id, flags: Flags, obj: Object, a: Answers)
    requires CapturedOnce(w) && ItemsSound(w)
    requires jobId in w.jobs && w.jobs[jobId].flags == flags
    requires a.lookup.LookedUp? ==> a.lookup.found.id == obj.id
    ensures var w' := Reconciled(w, jobId, flags, obj, a).0;
            CapturedOnce(w') && ItemsSound(w') && Grows(w, w') && Fresh(w, w')
  {
    ReconciledLaw(w, jobId, flags, obj, a);
    var w' := Reconciled(w, jobId, flags, obj, a).0;
    hide Reconciled, Captures, CapturesExactly, CapturedOnce, Tells, Sound;
    CapturesOnce(w, flags, obj, a, w');
    if w'.items != w.items {
      TellsSound(w, jobId, flags, obj, a, w', w'.items[|w.items|]);
    }
    ItemsStaySound(w, w');
  }

  lemma {:induction false} ObjectsKeep(w: World, jobId: Id, flags: Flags, objects: seq<(Object, Answers)>)
    requires CapturedOnce(w) && ItemsSound(w)
    requires jobId in w.jobs && w.jobs[jobId].flags == flags && KeepsIds(objects)
    ensures var w' := ReconcileAll(w, jobId, flags, objects).0;
            CapturedOnce(w') && ItemsSound(w') && Grows(w, w') && Fresh(w, w')
    decreases |objects|
  {
    if objects != [] {
      ObjectKeeps(w, jobId, flags, objects[0].0, objects[0].1);
      var (w1, status) := Reconciled(w, jobId, flags, objects[0].0, objects[0].1);
      hide Reconciled, CapturedOnce, ItemsSound;
      if status == Going {
        assert KeepsIds(objects[1..]);
        ObjectsKeep(w1, jobId, flags, objects[1..]);
        GrowsTransitive(w, w1, ReconcileAll(w1, jobId, flags, objects[1..]).0);
      }
    }
  }

  function ObjectIds(items: seq<Item>): (ids: seq<Id>)
    ensures |ids| == |items| && forall i | 0 <= i < |ids| :: ids[i] == items[i].objectId
  {
    seq(|items|, i requires 0 <= i < |items| => items[i].objectId)
  }

  ghost predicate AllOf(items: seq<Item>, jobId: Id) {
    forall i | 0 <= i < |items| :: items[i].jobId == jobId
  }

  lemma {:induction false} ItemsOfAppend(items: seq<Item>, more: seq<Item>, own: Id, jobId: Id)
    requires AllOf(more, own)
    ensures ItemsOf(items + more, jobId) == if jobId == own then ItemsOf(items, jobId) + more else ItemsOf(items, jobId)
    decreases |more|
  {
    if more == [] {
      assert items + more == items;
    } else {
      var front := more[..|more| - 1];
      ItemsOfAppend(items, front, own, jobId);
      assert (items + more)[..|items + more| - 1] == items + front;
      assert front + [more[|more| - 1]] == more;
    }
  }

  lemma ObjectItem(w: World, jobId: Id, flags: Flags, obj: Object, a: Answers) returns (more: seq<Item>)
    ensures var (w', status) := Reconciled(w, jobId, flags, obj, a);
            && w'.items == w.items + more && AllOf(more, jobId)
            && ((more == [] && status != Going) || (|more| == 1 && more[0].objectId == obj.id))
  {
    ReconciledLaw(w, jobId, flags, obj, a);
    var w' := Reconciled(w, jobId, flags, obj, a).0;
    hide Reconciled, CapturesExactly;
    more := if w'.items == w.items then [] else [w'.items[|w.items|]];
  }

  /** From a to b, the items of a run over the objects were appended in scan order, up to where
      the run stopped. */
  ghost predicate Follow(a: seq<Item>, b: seq<Item>, more: seq<Item>, jobId: Id, objects: seq<(Object, Answers)>, status: Status) {
    && b == a + more && AllOf(more, jobId) && ObjectIds(more) <= Ids(objects)
    && (status == Going ==> ObjectIds(more) == Ids(objects))
  }

  lemma FollowFirst(a: seq<Item>, b: seq<Item>, more: seq<Item>, jobId: Id, objects: seq<(Object, Answers)>, status: Status)
    requires objects != [] && status != Going && b == a + more && AllOf(more, jobId)
    requires more == [] || (|more| == 1 && more[0].objectId == objects[0].0.id)
    ensures Follow(a, b, more, jobId, objects, status)
  {
  }

  lemma IdsCons(first: Item, rest: seq<Item>, objects: seq<(Object, Answers)>)
    requires objects != [] && first.objectId == objects[0].0.id
    ensures Ids(objects) == [first.objectId] + Ids(objects[1..])
    ensures ObjectIds([first] + rest) == [first.objectId] + ObjectIds(rest)
  {
  }

  lemma PrefixCons(x: Id, s: seq<Id>, t: seq<Id>)
    requires s <= t
    ensures [x] + s <= [x] + t
  {
  }

  lemma AllOfCons(first: Item, rest: seq<Item>, jobId: Id)
    requires first.jobId == jobId && AllOf(rest, jobId)
    ensures AllOf([first] + rest, jobId)
  {
  }

  lemma FollowRest(a: seq<Item>, b: seq<Item>, c: seq<Item>, first: Item, rest: seq<Item>, jobId: Id,
                   objects: seq<(Object, Answers)>, status: Status)
    requires objects != [] && b == a + [first] && first.jobId == jobId && first.objectId == objects[0].0.id
    requires Follow(b, c, rest, jobId, objects[1..], status)
    ensures Follow(a, c, [first] + rest, jobId, objects, status)
  {
    hide Ids, ObjectIds, AllOf;
    assert a + [first] + rest == a + ([first] + rest);
    IdsCons(first, rest, objects);
    PrefixCons(first.objectId, ObjectIds(rest), Ids(objects[1..]));
    AllOfCons(first, rest, jobId);
  }

  lemma {:induction false} ObjectsItems(w: World, jobId: Id, flags: Flags, objects: seq<(Object, Answers)>) returns (more: seq<Item>)
    ensures var (w', status) := ReconcileAll(w, jobId, flags, objects);
            Follow(w.items, w'.items, more, jobId, objects, status)
    decreases |objects|
  {
    more := [];
    if objects != [] {
      more := ObjectItem(w, jobId, flags, objects[0].0, objects[0].1);
      var (w1, status) := Reconciled(w, jobId, flags, objects[0].0, objects[0].1);
      hide Reconciled, Follow;
      if status == Going {
        var rest := ObjectsItems(w1, jobId, flags, objects[1..]);
        var (w2, status2) := ReconcileAll(w1, jobId, flags, objects[1..]);
        assert more == [more[0]];
        FollowRest(w.items, w1.items, w2.items, more[0], rest, jobId, objects, status2);
        more := more + rest;
      } else {
        FollowFirst(w.items, w1.items, more, jobId, objects, status);
      }
    }
  }

  /** A job's items against its scan: none before it starts, all of them in order once it is
      completed, and the counters add them up. */
  ghost predicate JobSound(w: World, jobId: Id)
    requires jobId in w.jobs
  {
    var job := w.jobs[jobId];
    var own := ItemsOf(w.items, jobId);
    && (job.state == JobScheduled ==> own == [] && job.scanned == [])
    && (job.state == JobCompleted ==> ObjectIds(own) == job.scanned && job.counts == CountAll(own))
    && ObjectIds(own) <= job.scanned
  }

  ghost predicate JobsSound(w: World) {
    && (forall j | j in w.jobs :: JobSound(w, j))
    && (forall k | 0 <= k < |w.items| :: w.items[k].jobId in w.jobs)
  }

  /** What running a job does to the job and the items. */
  ghost predicate Ran(w: World, w': World, jobId: Id, more: seq<Item>)
    requires jobId in w.jobs
  {
    && w'.items == w.items + more && AllOf(more, jobId)
    && jobId in w'.jobs && w'.jobs[jobId].flags == w.jobs[jobId].flags
    && w'.jobs == w.jobs[jobId := w'.jobs[jobId]]
    && w'.jobs[jobId].state != JobScheduled
    && ObjectIds(more) <= w'.jobs[jobId].scanned
    && (w'.jobs[jobId].state == JobCompleted ==>
          ObjectIds(more) == w'.jobs[jobId].scanned && w'.jobs[jobId].counts == CountAll(ItemsOf(w'.items, jobId)))
  }

  lemma CapabilityRan(w: World, jobId: Id, flags: Flags, a: JobAnswers) returns (more: seq<Item>)
    requires jobId in w.jobs && w.jobs[jobId].state == JobRunning && w.jobs[jobId].scanned == [] && !a.canScan
    ensures Ran(w, RunStarted(w, jobId, flags, a), jobId, more)
  {
    more := if a.capabilityInsert != Fine then [] else [CapabilityItem(jobId, a)];
    hide CountAll, ItemsOf;
    assert ObjectIds(more) <= [a.capabilityId];
    assert more != [] ==> ObjectIds(more) == [a.capabilityId];
  }

  lemma ScanRan(w: World, jobId: Id, flags: Flags, a: JobAnswers) returns (more: seq<Item>)
    requires jobId in w.jobs && w.jobs[jobId].state == JobRunning && w.jobs[jobId].scanned == [] && a.canScan
    ensures Ran(w, RunStarted(w, jobId, flags, a), jobId, more)
  {
    more := [];
    var (w1, status, last) := Store(w, a.scanEvidence, "");
    if status == Going && a.scan.Scanned? {
      more := ObjectsItems(Remember(w1, jobId, Ids(a.scan.objects)), jobId, flags, a.scan.objects);
    }
    hide CountAll, ItemsOf, ReconcileAll, Store, Settle, Fail, Meanwhile, Ids;
    assert w.items + [] == w.items;
  }

  lemma JobRan(w: World, jobId: Id, a: JobAnswers) returns (more: seq<Item>)
    requires jobId in w.jobs && JobSound(w, jobId)
    ensures (RunJob(w, jobId, a).jobs == w.jobs && RunJob(w, jobId, a).items == w.items && more == [])
            || (w.jobs[jobId].state == JobScheduled && Ran(w, RunJob(w, jobId, a), jobId, more))
            || (more == [] && RunJob(w, jobId, a) == Fail(w, jobId, UNSUPPORTED_PROVIDER, Fine))
  {
    more := [];
    hide RunStarted, Ran, JobSound;
    if a.get == Fine && w.jobs[jobId].state == JobScheduled && a.adapterKnown && a.start == Fine {
      assert w.jobs[jobId].scanned == [] by { JobSoundScheduled(w, jobId); }
      var w1 := SetState(w, jobId, JobRunning);
      if a.canScan {
        more := ScanRan(w1, jobId, w.jobs[jobId].flags, a);
      } else {
        more := CapabilityRan(w1, jobId, w.jobs[jobId].flags, a);
      }
      RanFrom(w, w1, RunStarted(w1, jobId, w.jobs[jobId].flags, a), jobId, more);
    }
  }

  lemma JobSoundScheduled(w: World, jobId: Id)
    requires jobId in w.jobs && JobSound(w, jobId) && w.jobs[jobId].state == JobScheduled
    ensures w.jobs[jobId].scanned == []
  {
  }

  lemma RanFrom(w: World, w1: World, w': World, jobId: Id, more: seq<Item>)
    requires jobId in w.jobs && w1 == SetState(w, jobId, JobRunning) && Ran(w1, w', jobId, more)
    ensures Ran(w, w', jobId, more)
  {
    hide CountAll, ItemsOf;
  }

  lemma RanKeepsJobs(w: World, w': World, jobId: Id, more: seq<Item>)
    requires jobId in w.jobs && w.jobs[jobId].state == JobScheduled && JobsSound(w) && Ran(w, w', jobId, more)
    ensures JobsSound(w')
  {
    hide ItemsOf, CountAll, AllOf, ObjectIds;
    forall j | j in w'.jobs
      ensures JobSound(w', j)
    {
      assert JobSound(w, j);
      ItemsOfAppend(w.items, more, jobId, j);
      if j == jobId {
        assert [] + more == more;
      }
    }
    forall k | 0 <= k < |w'.items|
      ensures w'.items[k].jobId in w'.jobs
    {
      assert k >= |w.items| ==> w'.items[k] == more[k - |w.items|];
      OwnedBy(more, jobId);
    }
  }

  lemma OwnedBy(items: seq<Item>, jobId: Id)
    requires AllOf(items, jobId)
    ensures forall i | 0 <= i < |items| :: items[i].jobId == jobId
  {
  }

  lemma {:induction false} NoItemsOf(items: seq<Item>, jobId: Id)
    requires forall k | 0 <= k < |items| :: items[k].jobId != jobId
    ensures ItemsOf(items, jobId) == []
    decreases |items|
  {
    if items != [] {
      NoItemsOf(items[..|items| - 1], jobId);
    }
  }

  lemma RowKeepsJobs(w: World, w': World, jobId: Id)
    requires JobsSound(w) && OnlyRow(w, w', jobId)
    requires w'.jobs[jobId].state in {w.jobs[jobId].state, JobFailed, JobCanceled} && w'.jobs[jobId].counts == w.jobs[jobId].counts
    ensures JobsSound(w')
  {
    hide ItemsOf, CountAll;
    forall j | j in w'.jobs
      ensures JobSound(w', j)
    {
      assert JobSound(w, j);
    }
  }

  lemma CreateKeepsJobs(w: World, jobId: Id, flags: Flags)
    requires JobsSound(w) && jobId !in w.jobs
    ensures JobsSound(Next(w, CreateJob(jobId, flags)))
  {
    NoItemsOf(w.items, jobId);
    var w' := Next(w, CreateJob(jobId, flags));
    hide ItemsOf, CountAll;
    forall j | j in w'.jobs
      ensures JobSound(w', j)
    {
      assert j in w.jobs ==> JobSound(w, j);
    }
  }

  lemma SameJobsSound(w: World, w': World)
    requires JobsSound(w) && w'.jobs == w.jobs && w'.items == w.items
    ensures JobsSound(w')
  {
    forall j | j in w'.jobs
      ensures JobSound(w', j)
    {
      assert JobSound(w, j);
    }
  }

  lemma StepKeepsJobs(w: World, step: Step)
    requires JobsSound(w)
    ensures JobsSound(Next(w, step))
  {
    var w' := Next(w, step);
    match step
    case Ingest(obj, event) =>
      hide JobsSound;
      SameJobsSound(w, w');
    case CreateJob(jobId, flags) =>
      if jobId !in w.jobs {
        CreateKeepsJobs(w, jobId, flags);
      }
    case CancelJob(jobId, late) =>
      hide JobsSound;
      if w' != w {
        RowKeepsJobs(w, w', jobId);
      }
    case Run(jobId, a) =>
      if jobId in w.jobs {
        assert JobSound(w, jobId);
        var more := JobRan(w, jobId, a);
        hide JobsSound, RunJob, Ran;
        if w'.jobs == w.jobs && w'.items == w.items {
          SameJobsSound(w, w');
        } else if w.jobs[jobId].state == JobScheduled && Ran(w, w', jobId, more) {
          RanKeepsJobs(w, w', jobId, more);
        } else {
          RowKeepsJobs(w, w', jobId);
        }
      }
  }

  // ----- captures over whole runs -----

  /** No capture, no event and no item is added; jobs keep their flags. */
  ghost predicate SameRecords(a: World, b: World) {
    && b.events == a.events && b.captures == a.captures && b.items == a.items
    && (forall j | j in a.jobs :: j in b.jobs && b.jobs[j].flags == a.jobs[j].flags)
  }

  ghost predicate Orderly(w: World) {
    CapturedOnce(w) && ItemsSound(w)
  }

  /** An orderly step forward. */
  ghost predicate Forward(a: World, b: World) {
    Orderly(b) && Grows(a, b) && Fresh(a, b)
  }

  lemma SameRecordsForward(a: World, b: World)
    requires Orderly(a) && SameRecords(a, b)
    ensures Forward(a, b)
  {
    hide Sound;
    ItemsStaySound(a, b);
  }

  lemma ForwardTransitive(a: World, b: World, c: World)
    requires Forward(a, b) && Forward(b, c)
    ensures Forward(a, c)
  {
    hide Orderly;
  }

  lemma CapabilityForward(w: World, jobId: Id, flags: Flags, a: JobAnswers)
    requires Orderly(w) && jobId in w.jobs && !a.canScan
    ensures Forward(w, RunStarted(w, jobId, flags, a))
  {
    var w1 := Meanwhile(Remember(w, jobId, [a.capabilityId]), jobId, a.canceledMeanwhile);
    SameRecordsForward(w, w1);
    if a.capabilityInsert == Fine {
      var w2 := w1.(items := w1.items + [CapabilityItem(jobId, a)]);
      assert Sound(w2, w2.items[|w1.items|]);
      ItemsStaySound(w1, w2);
      assert Forward(w1, w2);
      hide Orderly, Grows, Fresh, Complete;
      SameRecordsForward(w2, Complete(w2, jobId, a.finish));
      ForwardTransitive(w1, w2, Complete(w2, jobId, a.finish));
      ForwardTransitive(w, w1, Complete(w2, jobId, a.finish));
    }
  }

  lemma ScanForward(w: World, jobId: Id, flags: Flags, a: JobAnswers)
    requires Orderly(w) && jobId in w.jobs && w.jobs[jobId].flags == flags && a.canScan
    requires a.scan.Scanned? ==> KeepsIds(a.scan.objects)
    ensures Forward(w, RunStarted(w, jobId, flags, a))
  {
    var (w1, status, last) := Store(w, a.scanEvidence, "");
    if status == Going && a.scan.Scanned? {
      var w2 := Remember(w1, jobId, Ids(a.scan.objects));
      SameRecordsForward(w, w2);
      ObjectsKeep(w2, jobId, flags, a.scan.objects);
      var (w3, status2) := ReconcileAll(w2, jobId, flags, a.scan.objects);
      assert Forward(w2, w3);
      hide Orderly, Grows, Fresh, Settle, ReconcileAll, Store;
      SameRecordsForward(w3, Settle(w3, status2, jobId, a.scan.nextCursor, a));
      ForwardTransitive(w2, w3, Settle(w3, status2, jobId, a.scan.nextCursor, a));
      ForwardTransitive(w, w2, Settle(w3, status2, jobId, a.scan.nextCursor, a));
    } else {
      hide Forward, Orderly, Store, Fail, Meanwhile;
      SameRecordsForward(w, RunStarted(w, jobId, flags, a));
    }
  }

  lemma RunForward(w: World, jobId: Id, a: JobAnswers)
    requires Orderly(w) && (a.scan.Scanned? ==> KeepsIds(a.scan.objects))
    ensures Forward(w, RunJob(w, jobId, a))
  {
    hide Forward, Orderly, RunStarted, KeepsIds;
    var w' := RunJob(w, jobId, a);
    if a.get == Fine && jobId in w.jobs && w.jobs[jobId].state == JobScheduled && a.adapterKnown && a.start == Fine {
      var w1 := SetState(w, jobId, JobRunning);
      SameRecordsForward(w, w1);
      ForwardOrderly(w, w1);
      if a.canScan {
        ScanForward(w1, jobId, w.jobs[jobId].flags, a);
      } else {
        CapabilityForward(w1, jobId, w.jobs[jobId].flags, a);
      }
      ForwardTransitive(w, w1, w');
    } else {
      SameRecordsForward(w, w');
    }
  }

  lemma IngestForward(w: World, obj: Id, event: Id)
    requires Orderly(w)
    ensures Forward(w, Next(w, Ingest(obj, event)))
  {
    ItemsStaySound(w, Next(w, Ingest(obj, event)));
  }

  lemma StepForward(w: World, step: Step)
    requires Orderly(w) && Faithful([step])
    ensures Forward(w, Next(w, step))
  {
    assert [step][0] == step;
    hide Forward, Orderly, RunJob;
    match step
    case Ingest(obj, event) =>
      IngestForward(w, obj, event);
    case Run(jobId, a) =>
      RunForward(w, jobId, a);
    case _ =>
      SameRecordsForward(w, Next(w, step));
  }

  lemma ForwardOrderly(a: World, b: World)
    requires Forward(a, b)
    ensures Orderly(b)
  {
  }

  lemma {:induction false} TraceForward(w: World, steps: seq<Step>)
    requires Orderly(w) && Faithful(steps)
    ensures Forward(w, Trace(w, steps))
    decreases |steps|
  {
    if steps == [] {
      hide Sound;
    } else {
      assert Faithful([steps[0]]) && Faithful(steps[1..]);
      hide Orderly, Next;
      StepForward(w, steps[0]);
      TraceForward(Next(w, steps[0]), steps[1..]);
      ForwardTransitive(w, Next(w, steps[0]), Trace(w, steps));
    }
  }

  lemma {:induction false} TraceKeepsJobs(w: World, steps: seq<Step>)
    requires JobsSound(w)
    ensures JobsSound(Trace(w, steps))
    decreases |steps|
  {
    hide JobsSound, Next;
    if steps != [] {
      StepKeepsJobs(w, steps[0]);
      TraceKeepsJobs(Next(w, steps[0]), steps[1..]);
    }
  }

  /** Over any sequence of job runs, cut off, cancelled, failed or rerun, with events coming in
      between: no provider object is captured twice, and every stored item is sound. */
  lemma EachObjectCapturedOnce(steps: seq<Step>, i: nat, j: nat)
    requires Faithful(steps) && i < j < |Trace(NOTHING, steps).captures|
    ensures Trace(NOTHING, steps).captures[i] != Trace(NOTHING, steps).captures[j]
  {
    TraceForward(NOTHING, steps);
  }

  lemma ItemsAlwaysSound(steps: seq<Step>, k: nat)
    requires Faithful(steps) && k < |Trace(NOTHING, steps).items|
    ensures Sound(Trace(NOTHING, steps), Trace(NOTHING, steps).items[k])
  {
    TraceForward(NOTHING, steps);
  }

  /** An object with a local event, received or recovered, is not captured from then on. */
  lemma LocalEventStopsCapture(before: seq<Step>, after: seq<Step>, obj: Id, i: nat)
    requires Faithful(before) && Faithful(after) && obj in Trace(NOTHING, before).events
    requires |Trace(NOTHING, before).captures| <= i < |Trace(Trace(NOTHING, before), after).captures|
    ensures Trace(Trace(NOTHING, before), after).captures[i] != obj
  {
    TraceForward(NOTHING, before);
    TraceForward(Trace(NOTHING, before), after);
  }

  lemma {:induction false} CountsAddUp(items: seq<Item>)
    ensures var c := CountAll(items);
            c.total == c.matched + c.missing + c.captured + c.redelivered + c.unrecoverable + c.failed
    decreases |items|
  {
    if items != [] {
      CountsAddUp(items[..|items| - 1]);
    }
  }

  function Having(items: seq<Item>, outcome: Outcome): set<nat> {
    set k: nat | k < |items| && items[k].outcome == outcome
  }

  lemma {:induction false} CountIs(items: seq<Item>, outcome: Outcome)
    ensures CountOf(items, outcome) == |Having(items, outcome)|
    decreases |items|
  {
    if items != [] {
      var n := |items| - 1;
      CountIs(items[..n], outcome);
      var before := Having(items[..n], outcome);
      if items[n].outcome == outcome {
        assert Having(items, outcome) == before + {n} && n !in before;
      } else {
        assert Having(items, outcome) == before;
      }
    }
  }

  /** Each counter is the number of the items with its outcome. */
  lemma CountsAre(items: seq<Item>)
    ensures var c := CountAll(items);
            && c.total == |items|
            && c.matched == |Having(items, Matched)| && c.missing == |Having(items, Missing)| && c.captured == |Having(items, Captured)|
            && c.redelivered == |Having(items, RedeliveryRequested)| && c.unrecoverable == |Having(items, Unrecoverable)|
            && c.failed == |Having(items, Failed)|
  {
    hide Having, CountOf;
    CountIs(items, Matched);
    CountIs(items, Missing);
    CountIs(items, Captured);
    CountIs(items, RedeliveryRequested);
    CountIs(items, Unrecoverable);
    CountIs(items, Failed);
  }

  /** A completed job holds exactly one item per scanned object, in scan order, and its counters
      are the numbers of those items by outcome and add up to the scan: whatever the provider
      answered, and in every sequence of steps. */
  lemma CompletedJobsAreComplete(steps: seq<Step>, jobId: Id)
    requires var w := Trace(NOTHING, steps); jobId in w.jobs && w.jobs[jobId].state == JobCompleted
    ensures var w := Trace(NOTHING, steps);
            var c := w.jobs[jobId].counts;
            && ObjectIds(ItemsOf(w.items, jobId)) == w.jobs[jobId].scanned
            && |w.jobs[jobId].scanned| == c.total
            && c.total == c.matched + c.missing + c.captured + c.redelivered + c.unrecoverable + c.failed
            && var own := ItemsOf(w.items, jobId);
               && c.matched == |Having(own, Matched)| && c.missing == |Having(own, Missing)| && c.captured == |Having(own, Captured)|
               && c.redelivered == |Having(own, RedeliveryRequested)| && c.unrecoverable == |Having(own, Unrecoverable)|
               && c.failed == |Having(own, Failed)|
  {
    CountsAre(ItemsOf(Trace(NOTHING, steps).items, jobId));
    hide Having;
    TraceKeepsJobs(NOTHING, steps);
    assert JobSound(Trace(NOTHING, steps), jobId);
    CountsAddUp(ItemsOf(Trace(NOTHING, steps).items, jobId));
  }

  /** The lookup has to keep the object's id. After a capture, reconciling the same object with
      the same answers captures again if and only if the payload came under another id. */
  lemma CapturesAgain(w: World, jobId: Id, flags: Flags, obj: Object, a: Answers)
    requires Captures(w, flags, obj, a)
    ensures Captures(Reconciled(w, jobId, flags, obj, a).0, flags, obj, a) <==> Payload(obj, a).id != obj.id
  {
    ReconciledLaw(w, jobId, flags, obj, a);
    hide Reconciled;
  }
}
