/** The reconciliation service as it runs: stores written call by call, variables reassigned
    between the calls. Each method leaves the stores as module Reconciliation says. */
module ReconciliationService {
  import opened Text
  import opened Reconciliation

  datatype JobResult = Finished | NotFound | Deferred | Stopped

  /** What a dry run reports. */
  datatype Report = Report(state: JobState, total: nat, matched: nat, missing: nat, redelivered: nat, unrecoverable: nat, error: string)

  /** What a dry run's scan answers: objects, each with whether its event could be looked for. */
  datatype DryScan = DryObjects(objects: seq<Object>, finds: seq<bool>) | DryError(text: string)

  ghost function Known(objects: seq<Object>, events: map<Id, Id>): set<nat> {
    set k: nat | k < |objects| && objects[k].id in events
  }

  ghost function Redeliverable(objects: seq<Object>, flags: Flags): set<nat> {
    set k: nat | k < |objects| && flags.redeliverFailed && objects[k].failed && objects[k].redeliverable
  }

  lemma OneMoreKnown(objects: seq<Object>, k: nat, events: map<Id, Id>)
    requires k < |objects|
    ensures |Known(objects[..k + 1], events)| == |Known(objects[..k], events)| + if objects[k].id in events then 1 else 0
  {
    var before := Known(objects[..k], events);
    assert Known(objects[..k + 1], events) == if objects[k].id in events then before + {k} else before;
  }

  lemma OneMoreRedeliverable(objects: seq<Object>, k: nat, flags: Flags)
    requires k < |objects|
    ensures |Redeliverable(objects[..k + 1], flags)| ==
            |Redeliverable(objects[..k], flags)| + if flags.redeliverFailed && objects[k].failed && objects[k].redeliverable then 1 else 0
  {
    var before := Redeliverable(objects[..k], flags);
    assert Redeliverable(objects[..k + 1], flags) ==
           if flags.redeliverFailed && objects[k].failed && objects[k].redeliverable then before + {k} else before;
  }

  lemma NoneYet(events: map<Id, Id>, flags: Flags)
    ensures |Known([], events)| == 0 && |Redeliverable([], flags)| == 0
  {
  }

  class Service {
    var events: map<Id, Id>
    var captures: seq<Id>
    var redeliveries: seq<Id>
    var evidence: seq<Id>
    var attached: seq<(Id, Id)>
    var items: seq<Item>
    var jobs: map<Id, Job>

    ghost function Rows(): World
      reads this
    {
      World(events, captures, redeliveries, evidence, attached, items, jobs)
    }

    /** Records provider evidence one by one; stops at the first call that fails. */
    method RecordEvidence(replies: seq<EvidenceReply>, last: Id) returns (status: Status, id: Id)
      modifies this`evidence
      ensures (Rows(), status, id) == Store(old(Rows()), replies, last)
    {
      id := last;
      for k := 0 to |replies|
        invariant Rows() == old(Rows()).(evidence := evidence)
        invariant Store(Rows(), replies[k..], id) == Store(old(Rows()), replies, last)
      {
        assert replies[k..][0] == replies[k] && replies[k..][1..] == replies[k + 1..];
        match replies[k]
        case NotStored(text) =>
          return Errored(text), id;
        case EvidenceCut =>
          return CutOff, id;
        case Stored(stored) =>
          evidence := evidence + [stored];
          id := stored;
      }
      assert replies[|replies|..] == [];
      status := Going;
    }

    method CaptureEvent(obj: Id, event: Id)
      modifies this`events, this`captures
      ensures Rows() == Commit(old(Rows()), obj, event)
    {
      if obj !in events {
        events := events[obj := event];
      }
      captures := captures + [obj];
    }

    /** The middle part of `reconcileProviderObject`: look up, record, capture. */
    method RecoverObject(obj: Object, a: Answers) returns (status: Status, outcome: Outcome, error: string, evidenceId: Id, recovered: Id)
      requires obj.id !in events
      modifies this`events, this`captures, this`evidence
      ensures Progress(Rows(), status, outcome, error, evidenceId, recovered)
              == Recover(Progress(old(Rows()), Going, Missing, "", "", ""), obj, a)
    {
      outcome, error, evidenceId, recovered := Missing, "", "", "";
      var lookupObject := obj;
      var lookupEvidence: seq<EvidenceReply> := [];
      if lookupObject.body == "" || !lookupObject.recoverable {
        lookupEvidence := a.lookupEvidence;
        match a.lookup
        case LookedUp(found) =>
          lookupObject := found;
        case Unsupported =>
          outcome := Unrecoverable;
          error := NO_PAYLOAD;
        case LookupError(text) =>
          outcome := Failed;
          error := text;
      }
      status, evidenceId := RecordEvidence(lookupEvidence, "");
      if status != Going {
        return;
      }
      if outcome == Missing && lookupObject.recoverable && lookupObject.body != "" {
        match a.capture
        case Committed(event) =>
          CaptureEvent(lookupObject.id, event);
          outcome := Captured;
          recovered := event;
        case CommittedLate(event, text) =>
          CaptureEvent(lookupObject.id, event);
          outcome := Failed;
          error := text;
        case NotCommitted(text) =>
          outcome := Failed;
          error := text;
        case CaptureCut =>
          status := CutOff;
      } else if outcome == Missing {
        outcome := Unrecoverable;
        error := NO_BODY;
      }
    }

    method RequestRedelivery(obj: Object, a: Answers, outcome0: Outcome, error0: string, evidence0: Id, ghost recovered: Id)
      returns (status: Status, outcome: Outcome, error: string, evidenceId: Id, requested: bool)
      modifies this`redeliveries, this`evidence
      ensures Progress(Rows(), status, outcome, error, evidenceId, recovered)
              == Redeliver(Progress(old(Rows()), Going, outcome0, error0, evidence0, recovered), obj, a)
      ensures status == Going ==> requested == (outcome == RedeliveryRequested)
    {
      outcome, error, evidenceId, requested := outcome0, error0, evidence0, false;
      if a.redelivery == RedeliveryCut {
        status := CutOff;
        return;
      }
      if a.redelivery == Accepted {
        redeliveries := redeliveries + [LookupId(obj)];
      }
      status, evidenceId := RecordEvidence(a.redeliveryEvidence, evidenceId);
      if status != Going {
        return;
      }
      if a.redelivery.Rejected? {
        outcome := Failed;
        error := a.redelivery.text;
      } else {
        outcome := RedeliveryRequested;
        requested := true;
      }
    }

    /** `reconcileProviderObject`. */
    method ReconcileObject(jobId: Id, flags: Flags, obj: Object, a: Answers) returns (status: Status)
      modifies this
      ensures (Rows(), status) == Reconciled(old(Rows()), jobId, flags, obj, a)
      ensures Happened(old(Rows()), jobId, flags, obj, a, Rows(), status)
    {
      ReconciledLaw(Rows(), jobId, flags, obj, a);
      hide Recover, Redeliver, Happened;
      if a.find != Fine {
        return After(a.find);
      }
      var localEvent := if obj.id in events then events[obj.id] else "";
      var outcome := Matched;
      if obj.id !in events {
        outcome := Missing;
      }
      var evidenceId, recovered, error := "", "", "";
      status := Going;
      if obj.id !in events && flags.captureMissing {
        status, outcome, error, evidenceId, recovered := RecoverObject(obj, a);
      }
      assert Progress(Rows(), status, outcome, error, evidenceId, recovered) == FindOrRecover(old(Rows()), flags, obj, a);
      if status != Going {
        return;
      }
      var redeliveryRequested := false;
      if flags.redeliverFailed && obj.failed && obj.redeliverable {
        status, outcome, error, evidenceId, redeliveryRequested := RequestRedelivery(obj, a, outcome, error, evidenceId, recovered);
      }
      assert Progress(Rows(), status, outcome, error, evidenceId, recovered) == Examine(old(Rows()), flags, obj, a);
      if status != Going {
        return;
      }
      if a.insert != Fine {
        return After(a.insert);
      }
      assert redeliveryRequested == (outcome == RedeliveryRequested);
      items := items + [Item(a.itemId, jobId, obj.id, obj.objectType, outcome, localEvent, recovered, evidenceId, redeliveryRequested, error)];
      if evidenceId != "" {
        if a.attach != Fine {
          return After(a.attach);
        }
        attached := attached + [(a.itemId, evidenceId)];
      }
    }

    /** The loop over the scanned objects. */
    method ReconcileObjects(jobId: Id, flags: Flags, objects: seq<(Object, Answers)>) returns (status: Status)
      modifies this
      ensures (Rows(), status) == ReconcileAll(old(Rows()), jobId, flags, objects)
    {
      hide Reconciled;
      for k := 0 to |objects|
        invariant ReconcileAll(Rows(), jobId, flags, objects[k..]) == ReconcileAll(old(Rows()), jobId, flags, objects)
      {
        assert objects[k..][0] == objects[k] && objects[k..][1..] == objects[k + 1..];
        status := ReconcileObject(jobId, flags, objects[k].0, objects[k].1);
        if status != Going {
          return;
        }
      }
      assert objects[|objects|..] == [];
      status := Going;
    }

    method FailJob(jobId: Id, text: string, reply: Reply) returns (result: JobResult)
      requires jobId in jobs
      modifies this`jobs
      ensures Rows() == Fail(old(Rows()), jobId, text, reply) && result == if reply == Fine then Finished else Stopped
    {
      result := if reply == Fine then Finished else Stopped;
      if reply == Fine && jobs[jobId].state != JobCanceled {
        jobs := jobs[jobId := jobs[jobId].(state := JobFailed, error := text)];
      }
    }

    method CompleteJob(jobId: Id, reply: Reply) returns (result: JobResult)
      requires jobId in jobs
      modifies this`jobs
      ensures Rows() == Complete(old(Rows()), jobId, reply) && result == if reply == Fine then Finished else Stopped
    {
      result := if reply == Fine then Finished else Stopped;
      if reply == Fine && jobs[jobId].state != JobCanceled {
        jobs := jobs[jobId := jobs[jobId].(state := JobCompleted, counts := CountAll(ItemsOf(items, jobId)))];
      }
    }

    /** Another process cancels the job while this one works on it. */
    method CancelMeanwhile(jobId: Id, canceled: bool)
      requires jobId in jobs
      modifies this`jobs
      ensures Rows() == Meanwhile(old(Rows()), jobId, canceled)
    {
      if canceled {
        jobs := jobs[jobId := jobs[jobId].(state := JobCanceled)];
      }
    }

    method SettleJob(jobId: Id, status: Status, nextCursor: string, a: JobAnswers) returns (result: JobResult)
      requires jobId in jobs
      modifies this`jobs
      ensures Rows() == Settle(old(Rows()), status, jobId, nextCursor, a)
      ensures result == if status != CutOff && (status == Going ==> nextCursor == "" || a.cursor == Fine) && a.finish == Fine
                        then Finished else Stopped
    {
      CancelMeanwhile(jobId, a.canceledMeanwhile);
      if status == CutOff {
        return Stopped;
      }
      if status.Errored? {
        result := FailJob(jobId, status.text, a.finish);
        return;
      }
      if nextCursor != "" {
        if a.cursor != Fine {
          return Stopped;
        }
        jobs := jobs[jobId := jobs[jobId].(cursor := nextCursor)];
      }
      result := CompleteJob(jobId, a.finish);
    }

    /** Every call of a started run went through, but for those whose error the job reports. */
    ghost predicate WentThrough(w: World, jobId: Id, flags: Flags, a: JobAnswers)
      requires jobId in w.jobs
    {
      && a.finish == Fine
      && if !a.canScan then a.capabilityInsert == Fine
         else
           && AllStored(a.scanEvidence)
           && (a.scan.Scanned? ==>
                 var status := ReconcileAll(Remember(Store(w, a.scanEvidence, "").0, jobId, Ids(a.scan.objects)), jobId, flags, a.scan.objects).1;
                 status != CutOff && (status == Going ==> a.scan.nextCursor == "" || a.cursor == Fine))
    }

    method RunStartedJob(jobId: Id, flags: Flags, a: JobAnswers) returns (result: JobResult)
      requires jobId in jobs
      modifies this
      ensures Rows() == RunStarted(old(Rows()), jobId, flags, a)
      ensures result == if WentThrough(old(Rows()), jobId, flags, a) then Finished else Stopped
    {
      StoreStops(Rows(), a.scanEvidence, "");
      hide Settle, ReconcileAll, Store, Fail, Meanwhile, Complete, Stops, AllStored;
      if !a.canScan {
        jobs := jobs[jobId := jobs[jobId].(scanned := [a.capabilityId])];
        CancelMeanwhile(jobId, a.canceledMeanwhile);
        if a.capabilityInsert != Fine {
          return Stopped;
        }
        items := items + [CapabilityItem(jobId, a)];
        result := CompleteJob(jobId, a.finish);
        return;
      }
      var status, last := RecordEvidence(a.scanEvidence, "");
      if status != Going {
        return Stopped;
      }
      if a.scan.ScanError? {
        CancelMeanwhile(jobId, a.canceledMeanwhile);
        result := FailJob(jobId, a.scan.text, a.finish);
        return;
      }
      jobs := jobs[jobId := jobs[jobId].(scanned := Ids(a.scan.objects))];
      status := ReconcileObjects(jobId, flags, a.scan.objects);
      result := SettleJob(jobId, status, a.scan.nextCursor, a);
    }

    /** `RunReconciliationJob`. */
    method RunReconciliationJob(jobId: Id, a: JobAnswers) returns (result: JobResult)
      modifies this
      ensures Rows() == RunJob(old(Rows()), jobId, a)
      ensures result.NotFound? <==> a.get == Fine && jobId !in old(jobs)
      ensures result.Deferred? <==>
                && a.get == Fine && jobId in old(jobs) && old(jobs)[jobId].state in {JobRunning, JobFailed}
                && a.adapterKnown && a.start == Fine
      ensures result.Finished? <==>
                && a.get == Fine && jobId in old(jobs)
                && var job := old(jobs)[jobId];
                   if job.state in {JobCanceled, JobCompleted} then true
                   else if !a.adapterKnown then a.finish == Fine
                   else a.start == Fine && job.state == JobScheduled
                        && WentThrough(SetState(old(Rows()), jobId, JobRunning), jobId, job.flags, a)
    {
      hide RunStarted, Fail, WentThrough;
      if a.get != Fine {
        return Stopped;
      }
      if jobId !in jobs {
        return NotFound;
      }
      var job := jobs[jobId];
      if job.state == JobCanceled || job.state == JobCompleted {
        return Finished;
      }
      if !a.adapterKnown {
        result := FailJob(jobId, UNSUPPORTED_PROVIDER, a.finish);
        return;
      }
      if a.start != Fine {
        return Stopped;
      }
      if job.state != JobScheduled {
        return Deferred;
      }
      jobs := jobs[jobId := job.(state := JobRunning)];
      result := RunStartedJob(jobId, job.flags, a);
    }

    /** `DryRunReconciliation`: counts what a run would find, and writes nothing. `None` stands
        for an error. */
    method DryRun(flags: Flags, adapterKnown: bool, canScan: bool, limitations: string, scan: DryScan) returns (r: Option<Report>)
      requires scan.DryObjects? ==> |scan.finds| == |scan.objects|
      ensures r.None? <==> !adapterKnown || (canScan && scan.DryObjects? && exists k :: 0 <= k < |scan.finds| && !scan.finds[k])
      ensures r.Some? && !canScan ==> r.value == Report(JobCompleted, 1, 0, 0, 0, 1, limitations)
      ensures r.Some? && canScan && scan.DryError? ==> r.value == Report(JobFailed, 0, 0, 0, 0, 0, scan.text)
      ensures r.Some? && canScan && scan.DryObjects? ==>
                && r.value.state == JobCompleted && r.value.unrecoverable == 0 && r.value.error == ""
                && r.value.total == |scan.objects| == r.value.matched + r.value.missing
                && r.value.matched == |Known(scan.objects, events)|
                && r.value.redelivered == |Redeliverable(scan.objects, flags)|
    {
      if !adapterKnown {
        return None;
      }
      var report := Report(JobCompleted, 0, 0, 0, 0, 0, "");
      if !canScan {
        return Some(report.(total := 1, unrecoverable := 1, error := limitations));
      }
      if scan.DryError? {
        return Some(report.(state := JobFailed, error := scan.text));
      }
      hide Known, Redeliverable;
      var objects := scan.objects;
      NoneYet(events, flags);
      for k := 0 to |objects|
        invariant forall i | 0 <= i < k :: scan.finds[i]
        invariant report.state == JobCompleted && report.unrecoverable == 0 && report.error == ""
        invariant report.total == k == report.matched + report.missing
        invariant report.matched == |Known(objects[..k], events)|
        invariant report.redelivered == |Redeliverable(objects[..k], flags)|
      {
        var obj := objects[k];
        OneMoreKnown(objects, k, events);
        OneMoreRedeliverable(objects, k, flags);
        report := report.(total := report.total + 1);
        if !scan.finds[k] {
          return None;
        }
        if obj.id in events {
          report := report.(matched := report.matched + 1);
        } else {
          report := report.(missing := report.missing + 1);
        }
        if obj.failed && flags.redeliverFailed && obj.redeliverable {
          report := report.(redelivered := report.redelivered + 1);
        }
      }
      assert objects[..|objects|] == objects;
      r := Some(report);
    }
  }
}
