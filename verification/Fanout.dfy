/** The fan-out service as sequential code over a store whose every call may fail. What the
    interleaving of several such calls can do is the subject of `ReplayProtocol`; that the
    service takes the steps of a worker there, of `FanoutProtocol`. */
module Fanout {
  import opened Text
  import opened RateLimit
  import opened ReplayProtocol

  const CURRENT := "current"
  const ORIGINAL := "original"
  const RECOVERED_REASON := "provider_api_reconciliation"

  datatype EventRow = EventRow(verified: bool, verifyReason: string, sourceId: string, eventType: string)

  datatype Target = Target(endpointId: string, routeId: string, routeVersionId: string, subscriptionId: string,
                           subscriptionVersionId: string, routeRetryPolicyId: string, endpointRetryPolicyId: string,
                           transformationVersionId: string)

  /** A delivery as a replay reads it. */
  datatype Source = Source(id: string, eventId: string, endpointId: string, routeId: string, routeVersionId: string,
                           subscriptionId: string, subscriptionVersionId: string, retryPolicyId: string,
                           adapterVersionId: string, normalizedEnvelopeId: string, transformationVersionId: string,
                           deliveryPayloadId: string)

  datatype PayloadMode = Materialize | Clone

  datatype Snapshot = Snapshot(tenantId: string, eventId: string, endpointId: string, routeId: string, routeVersionId: string,
                               subscriptionId: string, subscriptionVersionId: string, retryPolicyId: string, replayJobId: string,
                               originalDeliveryId: string, adapterVersionId: string, normalizedEnvelopeId: string,
                               transformationVersionId: string, payloadMode: PayloadMode, sourceDeliveryPayloadId: string,
                               nextAttemptAt: int, configMode: string)

  datatype Options = Options(replayJobId: string, configMode: string, rate: int, allowRecovered: bool)

  /** A row of `replay_jobs` with the names `ReplayProtocol` leaves out. */
  datatype Request = Request(eventId: string, deliveryId: string, configMode: string, rate: int)

  datatype Job = Job(state: JobState, request: Request, configMode: string, rate: int, processed: nat)

  datatype Noop = Noop(jobId: string, eventId: string, configMode: string, why: string)

  datatype Outcome = Done | Deferred | Failed

  function RetryPolicy(t: Target): string {
    FirstNonEmpty(t.routeRetryPolicyId, t.endpointRetryPolicyId)
  }

  function ConfigMode(work: Job): string {
    FirstNonEmpty(work.configMode, FirstNonEmpty(work.request.configMode, CURRENT))
  }

  /** What a replay works under: the mode and the rate of the job itself, else those of its
      request; an event that failed verification stays out whatever it was recovered from. */
  ghost predicate AsksFor(jobId: string, work: Job, opts: Options) {
    && opts.replayJobId == jobId && !opts.allowRecovered
    && opts.configMode == (if work.configMode != "" then work.configMode
                           else if work.request.configMode != "" then work.request.configMode else "current")
    && opts.rate == if work.rate != 0 then work.rate else work.request.rate
  }

  /** The deliveries of the event half of a replay: clones of original ones, or new ones of a
      verified event. */
  ghost predicate EventPartMade(work: Job, events: map<string, EventRow>, originals: string -> seq<Source>, made: seq<Snapshot>) {
    made != [] ==>
      && work.request.eventId != ""
      && if ConfigMode(work) == ORIGINAL then
           |made| <= |originals(work.request.eventId)|
           && forall i | 0 <= i < |made| :: made[i].eventId == originals(work.request.eventId)[i].eventId
         else
           work.request.eventId in events && events[work.request.eventId].verified
           && forall i | 0 <= i < |made| :: made[i].eventId == work.request.eventId
  }

  /** What a pass leaves behind: `first` deliveries of the event asked for, then perhaps one that
      repeats the delivery asked for, all under the job. */
  ghost predicate PassMade(jobId: string, work: Job, events: map<string, EventRow>, originals: string -> seq<Source>,
                           sources: string -> Option<Source>, before: seq<Snapshot>, after: seq<Snapshot>, first: nat)
  {
    && before <= after && |before| + first <= |after| <= |before| + first + 1
    && (forall i | |before| <= i < |after| :: after[i].replayJobId == jobId)
    && EventPartMade(work, events, originals, after[|before|..][..first])
    && (|after| == |before| + first + 1 ==>
          && work.request.deliveryId != "" && sources(work.request.deliveryId).Some?
          && after[|after| - 1].eventId == sources(work.request.deliveryId).value.eventId
          && EventFound(work, events))
  }

  /** Replaying an event with the current configuration needs the event itself. */
  predicate EventFound(work: Job, events: map<string, EventRow>) {
    work.request.eventId == "" || ConfigMode(work) == ORIGINAL || work.request.eventId in events
  }

  /** Everything the job asks to replay is there. */
  predicate AllFound(work: Job, events: map<string, EventRow>, sources: string -> Option<Source>) {
    EventFound(work, events) && (work.request.deliveryId != "" ==> sources(work.request.deliveryId).Some?)
  }

  /** What `CreateReplayDeliveries` decides from the job row alone. */
  function Gate(state: JobState): Option<Outcome> {
    match state
    case Paused => Some(Deferred)
    case PendingApproval => Some(Deferred)
    case Scheduled => None
    case _ => Some(Done)
  }

  /** What serving a job leaves behind, when no other worker starts it first. Only a scheduled
      job is worked on; a finished pass completes the job with the number of deliveries it made;
      a pass that breaks off leaves the job running with what it had made. */
  ghost predicate Served(jobId: string, work: Job, r: Outcome, jobs: map<string, Job>, jobs': map<string, Job>, events: map<string, EventRow>,
                         originals: string -> seq<Source>, sources: string -> Option<Source>,
                         before: seq<Snapshot>, after: seq<Snapshot>, first: nat)
  {
    && PassMade(jobId, work, events, originals, sources, before, after, first)
    && (Gate(work.state).Some? ==> jobs' == jobs && after == before && r in {Gate(work.state).value, Failed})
    && (Gate(work.state).None? ==>
          && r != Deferred
          && (r == Done ==>
                AllFound(work, events, sources) && jobs' == jobs[jobId := work.(state := Completed, processed := |after| - |before|)])
          && (r == Failed ==> (jobs' == jobs && after == before) || jobs' == jobs[jobId := work.(state := Running)]))
  }

  function Times(xs: seq<Snapshot>): (times: seq<int>)
    ensures |times| == |xs| && forall i | 0 <= i < |xs| :: times[i] == xs[i].nextAttemptAt
  {
    seq(|xs|, i requires 0 <= i < |xs| => xs[i].nextAttemptAt)
  }

  /** A new delivery of the event to a target, under the target's current configuration. */
  ghost predicate RoutedTo(x: Snapshot, tenant: string, eventId: string, t: Target, opts: Options) {
    && x.tenantId == tenant && x.eventId == eventId && x.replayJobId == opts.replayJobId && x.originalDeliveryId == ""
    && x.endpointId == t.endpointId && x.routeId == t.routeId && x.routeVersionId == t.routeVersionId
    && x.subscriptionId == t.subscriptionId && x.subscriptionVersionId == t.subscriptionVersionId
    && x.transformationVersionId == t.transformationVersionId
    && x.retryPolicyId == (if t.routeRetryPolicyId != "" then t.routeRetryPolicyId else t.endpointRetryPolicyId)
    && x.payloadMode == Materialize && x.sourceDeliveryPayloadId == "" && x.adapterVersionId == "" && x.normalizedEnvelopeId == ""
    && x.configMode == (if opts.configMode != "" then opts.configMode else CURRENT)
  }

  ghost predicate Identifies(x: Snapshot, tenant: string, s: Source, originalId: string, opts: Options) {
    && x.tenantId == tenant && x.eventId == s.eventId && x.replayJobId == opts.replayJobId && x.originalDeliveryId == originalId
    && x.routeId == s.routeId && x.subscriptionId == s.subscriptionId
    && x.configMode == (if opts.configMode != "" then opts.configMode else CURRENT)
  }

  /** The configuration of the earlier delivery, field for field. */
  ghost predicate Reproduces(x: Snapshot, s: Source) {
    && x.endpointId == s.endpointId && x.routeVersionId == s.routeVersionId && x.subscriptionVersionId == s.subscriptionVersionId
    && x.retryPolicyId == s.retryPolicyId && x.transformationVersionId == s.transformationVersionId
    && x.adapterVersionId == s.adapterVersionId && x.normalizedEnvelopeId == s.normalizedEnvelopeId
    && x.sourceDeliveryPayloadId == s.deliveryPayloadId
  }

  /** The configuration the route or subscription has now; the payload is made anew. */
  ghost predicate Retargets(x: Snapshot, t: Target) {
    && x.endpointId == t.endpointId && x.routeVersionId == t.routeVersionId && x.subscriptionVersionId == t.subscriptionVersionId
    && x.retryPolicyId == (if t.routeRetryPolicyId != "" then t.routeRetryPolicyId else t.endpointRetryPolicyId)
    && x.transformationVersionId == t.transformationVersionId
    && x.adapterVersionId == "" && x.normalizedEnvelopeId == "" && x.sourceDeliveryPayloadId == "" && x.payloadMode == Materialize
  }

  /** The deliveries created since `before`, each paced by its position. */
  ghost predicate PacedSince(before: seq<Snapshot>, created: seq<Snapshot>, clock: seq<int>, rate: int, from: int, to: int) {
    && before <= created && |clock| == |created| - |before| && from <= to
    && (forall i | 0 <= i < |clock| :: from <= clock[i] <= to && created[|before| + i].nextAttemptAt == clock[i] + Delay(i, rate))
    && (forall i, j | 0 <= i < j < |clock| :: clock[i] <= clock[j])
  }

  lemma PacedSinceMeansPaced(before: seq<Snapshot>, created: seq<Snapshot>, clock: seq<int>, rate: int, from: int, to: int)
    requires PacedSince(before, created, clock, rate, from, to)
    ensures Paced(Times(created[|before|..]), clock, rate)
  {
  }

  lemma PacedGrows(before: seq<Snapshot>, created: seq<Snapshot>, clock: seq<int>, rate: int, from: int, to: int, x: Snapshot, at: int)
    requires PacedSince(before, created, clock, rate, from, to)
    requires to <= at && x.nextAttemptAt == at + Delay(|clock|, rate)
    ensures PacedSince(before, created + [x], clock + [at], rate, from, at)
  {
  }

  class Service {
    const tenant: string
    const targets: (string, string) -> seq<Target>
    const originals: string -> seq<Source>
    const sources: string -> Option<Source>
    const currentTarget: (string, string) -> Option<Target>

    var events: map<string, EventRow>
    var jobs: map<string, Job>
    var created: seq<Snapshot>
    var noops: seq<Noop>
    var now: int

    /** How many store calls failed, and how many starts were lost to another worker. */
    var faults: nat
    var lost: nat

    constructor (tenant: string, targets: (string, string) -> seq<Target>, originals: string -> seq<Source>,
                 sources: string -> Option<Source>, currentTarget: (string, string) -> Option<Target>)
      ensures this.tenant == tenant && created == [] && noops == []
    {
      this.tenant, this.targets, this.originals := tenant, targets, originals;
      this.sources, this.currentTarget := sources, currentTarget;
      events, jobs, created, noops, now, faults, lost := map[], map[], [], [], 0, 0, 0;
    }

    /** The clock does not run backwards. */
    method Now() returns (t: int)
      modifies this`now
      ensures t == now >= old(now)
    {
      t :| t >= now;
      now := t;
    }

    /** A store call goes through or fails. */
    method Reach() returns (ok: bool)
      modifies this`faults
      ensures faults == if ok then old(faults) else old(faults) + 1
    {
      ok := *;
      if !ok {
        faults := faults + 1;
      }
    }

    /** `createDeliverySnapshot`: stored once, or an error and nothing stored. */
    method Store(x: Snapshot) returns (ok: bool)
      modifies this`created, this`faults
      ensures created == if ok then old(created) + [x] else old(created)
      ensures faults == if ok then old(faults) else old(faults) + 1
    {
      ok := Reach();
      if ok {
        created := created + [x];
      }
    }

    function FromTarget(eventId: string, t: Target, opts: Options, at: int): (x: Snapshot)
      ensures RoutedTo(x, tenant, eventId, t, opts) && x.nextAttemptAt == at && x.replayJobId == opts.replayJobId
    {
      Snapshot(tenant, eventId, t.endpointId, t.routeId, t.routeVersionId, t.subscriptionId, t.subscriptionVersionId,
               RetryPolicy(t), opts.replayJobId, "", "", "", t.transformationVersionId, Materialize, "", at,
               FirstNonEmpty(opts.configMode, CURRENT))
    }

    /** `createDeliveryFromTarget`. */
    method CreateFromTarget(eventId: string, t: Target, opts: Options, index: nat) returns (ok: bool, ghost at: int)
      modifies this`created, this`now, this`faults
      ensures at == now >= old(now)
      ensures created == if ok then old(created) + [FromTarget(eventId, t, opts, at + Delay(index, opts.rate))] else old(created)
      ensures faults == if ok then old(faults) else old(faults) + 1
    {
      var time := Now();
      at := time;
      ok := Store(FromTarget(eventId, t, opts, time + Delay(index, opts.rate)));
    }

    /** `CreateDeliveriesForEvent`: one delivery for each target, in order, paced by the rate;
        nothing for an event that is not eligible; a store error stops it where it stands. */
    method CreateDeliveriesForEvent(eventId: string, opts: Options) returns (ok: bool, count: nat, ghost clock: seq<int>)
      modifies this`created, this`now, this`faults
      ensures PacedSince(old(created), created, clock, opts.rate, old(now), now) && count == |clock|
      ensures AllOfJob(opts.replayJobId, |old(created)|)
      ensures ok <==> eventId in events && faults == old(faults)
      ensures faults >= old(faults)
      ensures eventId !in events ==> count == 0
      ensures eventId in events ==>
                var event := events[eventId];
                if event.verified || (opts.allowRecovered && event.verifyReason == "provider_api_reconciliation") then
                  var list := targets(event.sourceId, event.eventType);
                  && count <= |list| && (ok ==> count == |list|)
                  && forall i | 0 <= i < count :: RoutedTo(created[|old(created)| + i], tenant, eventId, list[i], opts)
                else count == 0
    {
      count, clock := 0, [];
      ok := Reach();
      if !ok || eventId !in events {
        return false, 0, [];
      }
      var event := events[eventId];
      if !event.verified && (!opts.allowRecovered || event.verifyReason != RECOVERED_REASON) {
        return true, 0, [];
      }
      ok := Reach();
      if !ok {
        return;
      }
      hide RoutedTo, PacedSince, AllOfJob;
      ok, count, clock := DeliverTo(eventId, targets(event.sourceId, event.eventType), opts);
    }

    /** The loop over the targets. */
    method DeliverTo(eventId: string, list: seq<Target>, opts: Options) returns (ok: bool, count: nat, ghost clock: seq<int>)
      modifies this`created, this`now, this`faults
      ensures PacedSince(old(created), created, clock, opts.rate, old(now), now) && count == |clock| <= |list|
      ensures AllOfJob(opts.replayJobId, |old(created)|)
      ensures (ok <==> faults == old(faults)) && faults >= old(faults) && (ok ==> count == |list|)
      ensures forall i | 0 <= i < count :: RoutedTo(created[|old(created)| + i], tenant, eventId, list[i], opts)
    {
      count, clock, ok := 0, [], true;
      hide RoutedTo, Delay, Times, FromTarget;
      while count < |list|
        invariant 0 <= count == |clock| <= |list| && ok && faults == old(faults)
        invariant PacedSince(old(created), created, clock, opts.rate, old(now), now)
        invariant AllOfJob(opts.replayJobId, |old(created)|)
        invariant forall i | 0 <= i < count :: RoutedTo(created[|old(created)| + i], tenant, eventId, list[i], opts)
      {
        ghost var from, before := now, created;
        ghost var at;
        ok, at := CreateFromTarget(eventId, list[count], opts, count);
        PacedGrows(old(created), before, clock, opts.rate, old(now), from, FromTarget(eventId, list[count], opts, at + Delay(count, opts.rate)), at);
        if !ok {
          return;
        }
        clock := clock + [at];
        count := count + 1;
      }
    }

    function FromSource(s: Source, opts: Options, at: int): (x: Snapshot)
      ensures Identifies(x, tenant, s, "", opts) && Reproduces(x, s) && x.nextAttemptAt == at
    {
      Snapshot(tenant, s.eventId, s.endpointId, s.routeId, s.routeVersionId, s.subscriptionId, s.subscriptionVersionId,
               s.retryPolicyId, opts.replayJobId, "", s.adapterVersionId, s.normalizedEnvelopeId, s.transformationVersionId,
               Materialize, s.deliveryPayloadId, at, FirstNonEmpty(opts.configMode, CURRENT))
    }

    ghost predicate ClonedFrom(x: Snapshot, s: Source, opts: Options) {
      Identifies(x, tenant, s, s.id, opts) && Reproduces(x, s) && x.payloadMode == Clone
    }

    function CloneOf(s: Source, opts: Options, at: int): (x: Snapshot)
      ensures ClonedFrom(x, s, opts) && x.nextAttemptAt == at && x.replayJobId == opts.replayJobId
    {
      FromSource(s, opts, at).(originalDeliveryId := s.id, payloadMode := Clone, sourceDeliveryPayloadId := s.deliveryPayloadId)
    }

    /** `createDeliveriesFromOriginalEvent`: one clone for each original delivery of the event,
        with the original's configuration and payload. */
    method CreateFromOriginals(eventId: string, opts: Options) returns (ok: bool, count: nat, ghost clock: seq<int>)
      modifies this`created, this`now, this`faults
      ensures PacedSince(old(created), created, clock, opts.rate, old(now), now) && count == |clock|
      ensures AllOfJob(opts.replayJobId, |old(created)|)
      ensures (ok <==> faults == old(faults)) && faults >= old(faults)
      ensures count <= |originals(eventId)| && (ok ==> count == |originals(eventId)|)
      ensures forall i | 0 <= i < count :: ClonedFrom(created[|old(created)| + i], originals(eventId)[i], opts)
    {
      count, clock := 0, [];
      ok := Reach();
      if !ok {
        return;
      }
      hide Identifies, Reproduces, Delay;
      var list := originals(eventId);
      while count < |list|
        invariant 0 <= count == |clock| <= |list| && ok && faults == old(faults)
        invariant PacedSince(old(created), created, clock, opts.rate, old(now), now)
        invariant AllOfJob(opts.replayJobId, |old(created)|)
        invariant forall i | 0 <= i < count :: ClonedFrom(created[|old(created)| + i], list[i], opts)
      {
        ghost var from := now;
        var at := Now();
        var x := CloneOf(list[count], opts, at + Delay(count, opts.rate));
        PacedGrows(old(created), created, clock, opts.rate, old(now), from, x, at);
        ok := Store(x);
        if !ok {
          return;
        }
        clock := clock + [at];
        count := count + 1;
      }
    }

    /** The delivery has a route or a subscription to follow, which is no longer there. */
    ghost predicate TargetGone(s: Source, opts: Options) {
      opts.configMode != "original" && (s.routeId != "" || s.subscriptionId != "") && currentTarget(s.routeId, s.subscriptionId).None?
    }

    /** In original mode a repetition reproduces the earlier delivery; otherwise it follows the
        route or subscription as configured now, if there is one. */
    ghost predicate Repeats(x: Snapshot, deliveryId: string, s: Source, opts: Options) {
      && Identifies(x, tenant, s, deliveryId, opts)
      && if opts.configMode == "original" then Reproduces(x, s) && (x.payloadMode == Clone <==> s.deliveryPayloadId != "")
         else if s.routeId == "" && s.subscriptionId == "" then Reproduces(x, s) && x.payloadMode == Materialize
         else
           && currentTarget(s.routeId, s.subscriptionId).Some?
           && Retargets(x, currentTarget(s.routeId, s.subscriptionId).value)
    }

    /** `createDeliveryFromExisting`: one delivery that repeats the earlier one and is due at
        once, unless its route or subscription is gone. */
    method CreateFromExisting(deliveryId: string, opts: Options) returns (ok: bool, count: nat)
      modifies this`created, this`now, this`faults
      ensures old(created) <= created && count == |created| - |old(created)| <= 1 && now >= old(now)
      ensures (ok <==> sources(deliveryId).Some? && faults == old(faults)) && faults >= old(faults)
      ensures ok ==> (count == 0 <==> TargetGone(sources(deliveryId).value, opts))
      ensures count == 1 ==>
                && ok && Repeats(created[|old(created)|], deliveryId, sources(deliveryId).value, opts)
                && old(now) <= created[|old(created)|].nextAttemptAt <= now
    {
      count := 0;
      ok := Reach();
      if !ok || sources(deliveryId).None? {
        return false, 0;
      }
      var source := sources(deliveryId).value;
      var at := Now();
      var x := FromSource(source, opts, at + Delay(0, opts.rate)).(originalDeliveryId := deliveryId);
      if opts.configMode != ORIGINAL && (source.routeId != "" || source.subscriptionId != "") {
        ok := Reach();
        if !ok {
          return;
        }
        var current := currentTarget(source.routeId, source.subscriptionId);
        if current.None? {
          return;
        }
        var t := current.value;
        x := x.(endpointId := t.endpointId, routeVersionId := t.routeVersionId, subscriptionVersionId := t.subscriptionVersionId,
                retryPolicyId := RetryPolicy(t), transformationVersionId := t.transformationVersionId,
                adapterVersionId := "", normalizedEnvelopeId := "", sourceDeliveryPayloadId := "");
      }
      if source.deliveryPayloadId != "" && opts.configMode == ORIGINAL {
        x := x.(payloadMode := Clone, sourceDeliveryPayloadId := source.deliveryPayloadId);
      } else {
        x := x.(payloadMode := Materialize);
      }
      ok := Store(x);
      count := if ok then 1 else 0;
    }

    function ReplayOptions(jobId: string, work: Job): (opts: Options)
      ensures AsksFor(jobId, work, opts)
    {
      Options(jobId, ConfigMode(work),
              if work.rate == 0 then work.request.rate else work.rate, false)
    }

    ghost predicate AllOfJob(jobId: string, from: nat)
      reads this
    {
      from <= |created| && forall i | from <= i < |created| :: created[i].replayJobId == jobId
    }

    /** The event half of a replay. In original mode: a clone of each original delivery, in
        order. Otherwise: for a verified event a new delivery to each of its targets, in order,
        and nothing for an event that is not verified. Broken off, the first ones of these. */
    ghost predicate EventReplayed(jobId: string, work: Job, made: seq<Snapshot>, whole: bool)
      reads this`events
    {
      var opts, eventId := ReplayOptions(jobId, work), work.request.eventId;
      if opts.configMode == "original" then
        && |made| <= |originals(eventId)| && (whole ==> |made| == |originals(eventId)|)
        && forall i | 0 <= i < |made| :: ClonedFrom(made[i], originals(eventId)[i], opts)
      else if eventId in events && events[eventId].verified then
        var list := targets(events[eventId].sourceId, events[eventId].eventType);
        && |made| <= |list| && (whole ==> |made| == |list|)
        && forall i | 0 <= i < |made| :: RoutedTo(made[i], tenant, eventId, list[i], opts)
      else made == []
    }

    /** The note kept when nothing came of an event. */
    ghost function NothingCame(jobId: string, work: Job): Noop {
      var mode := ReplayOptions(jobId, work).configMode;
      Noop(jobId, work.request.eventId, mode,
           if mode == "original" then "no original deliveries found" else "no current route or subscription matched")
    }

    method ReplayEvent(jobId: string, work: Job) returns (ok: bool, count: nat, ghost clock: seq<int>)
      requires work.request.eventId != ""
      modifies this`created, this`noops, this`now, this`faults
      ensures PacedSince(old(created), created, clock, ReplayOptions(jobId, work).rate, old(now), now) && count == |clock|
      ensures AllOfJob(jobId, |old(created)|)
      ensures (ok <==> EventFound(work, events) && faults == old(faults)) && faults >= old(faults)
      ensures EventReplayed(jobId, work, created[|old(created)|..], ok)
      ensures noops == if ok && count == 0 then old(noops) + [NothingCame(jobId, work)] else old(noops)
      ensures EventPartMade(work, events, originals, created[|old(created)|..])
    {
      hide PacedSince, Delay;
      var opts := ReplayOptions(jobId, work);
      var why;
      if opts.configMode == ORIGINAL {
        ok, count, clock := CreateFromOriginals(work.request.eventId, opts);
        why := "no original deliveries found";
      } else {
        ok, count, clock := CreateDeliveriesForEvent(work.request.eventId, opts);
        why := "no current route or subscription matched";
      }
      CountAdded(old(created), created, clock, opts.rate, old(now), now);
      ghost var made := created[|old(created)|..];
      forall i | 0 <= i < |made|
        ensures opts.configMode == ORIGINAL ==>
                  i < |originals(work.request.eventId)| && ClonedFrom(made[i], originals(work.request.eventId)[i], opts)
                  && made[i].eventId == originals(work.request.eventId)[i].eventId
        ensures opts.configMode != ORIGINAL ==>
                  && work.request.eventId in events && made[i].eventId == work.request.eventId
                  && var event := events[work.request.eventId];
                     && i < |targets(event.sourceId, event.eventType)|
                     && RoutedTo(made[i], tenant, work.request.eventId, targets(event.sourceId, event.eventType)[i], opts)
      {
        assert made[i] == created[|old(created)| + i];
        if opts.configMode != ORIGINAL {
          var event := events[work.request.eventId];
          assert RoutedTo(made[i], tenant, work.request.eventId, targets(event.sourceId, event.eventType)[i], opts);
        }
      }
      assert made != [] ==> count > 0;
      if ok && count == 0 {
        ok := Reach();
        if ok {
          noops := noops + [Noop(jobId, work.request.eventId, opts.configMode, why)];
        }
      }
    }

    lemma RepeatsIdentified(x: Snapshot, deliveryId: string, s: Source, jobId: string, work: Job)
      requires Repeats(x, deliveryId, s, ReplayOptions(jobId, work))
      ensures x.replayJobId == jobId && x.eventId == s.eventId
    {
    }

    lemma RepeatedSince(jobId: string, work: Job, rest: seq<Snapshot>, from: int, between: int, to: int)
      requires from <= between && Repeated(jobId, work, rest, between, to)
      ensures Repeated(jobId, work, rest, from, to) && work.request.deliveryId != ""
    {
    }

    lemma ReplayedInPart(jobId: string, work: Job, made: seq<Snapshot>)
      requires EventReplayed(jobId, work, made, true)
      ensures EventReplayed(jobId, work, made, false)
    {
    }

    lemma PassAssembled(jobId: string, work: Job, done: bool, whole: bool, before: seq<Snapshot>, half: seq<Snapshot>, after: seq<Snapshot>,
                        notes: seq<Noop>, notes': seq<Noop>, from: int, to: int)
      requires before <= half <= after
      requires work.request.eventId == "" ==> done && half == before && notes' == notes
      requires work.request.eventId != "" ==>
                 && EventReplayed(jobId, work, half[|before|..], done)
                 && notes' == if done && half == before then notes + [NothingCame(jobId, work)] else notes
      requires after == half || (done && Repeated(jobId, work, after[|half|..], from, to))
      requires whole ==> done
      requires whole && work.request.deliveryId != "" ==>
                 && sources(work.request.deliveryId).Some?
                 && (after == half <==> TargetGone(sources(work.request.deliveryId).value, ReplayOptions(jobId, work)))
      ensures PassStored(jobId, work, whole, before, after, |half| - |before|, notes, notes', from, to)
    {
      hide EventReplayed, Repeated, TargetGone, ReplayOptions, NothingCame;
      assert after[|before|..|half|] == half[|before|..];
      assert half == before <==> half[|before|..] == [];
      assert after == half <==> after[|half|..] == [];
      if work.request.eventId != "" && done {
        ReplayedInPart(jobId, work, half[|before|..]);
      }
    }

    lemma PacedHalf(jobId: string, work: Job, before: seq<Snapshot>, half: seq<Snapshot>, after: seq<Snapshot>, clock: seq<int>,
                    from: int, between: int, to: int)
      requires before <= half <= after && between <= to
      requires PacedSince(before, half, clock, ReplayOptions(jobId, work).rate, from, between)
      ensures PassPaced(work, before, after, |half| - |before|, clock, from, to)
    {
      assert after[..|half|] == half;
    }

    lemma NothingAdded(before: seq<Snapshot>, rate: int, at: int)
      ensures PacedSince(before, before, [], rate, at, at)
    {
    }

    lemma CountAdded(before: seq<Snapshot>, after: seq<Snapshot>, clock: seq<int>, rate: int, from: int, to: int)
      requires PacedSince(before, after, clock, rate, from, to)
      ensures before <= after && |after| == |before| + |clock| && from <= to
    {
    }

    /** What a pass over the job stored, from what was there before: the event half, then what
        repeats the delivery asked for, and a note exactly when an event was asked for and its
        half is empty. Broken off, it is the beginning of this. */
    ghost predicate PassStored(jobId: string, work: Job, whole: bool, before: seq<Snapshot>, after: seq<Snapshot>, first: nat,
                               notes: seq<Noop>, notes': seq<Noop>, from: int, to: int)
      reads this`events
    {
      && before <= after && |before| + first <= |after|
      && var half, rest := after[|before|..|before| + first], after[|before| + first..];
         && (if work.request.eventId == "" then half == []
             else EventReplayed(jobId, work, half, whole || rest != []))
         && (rest == [] || Repeated(jobId, work, rest, from, to))
         && (whole && work.request.deliveryId != "" ==>
               && sources(work.request.deliveryId).Some?
               && (rest == [] <==> TargetGone(sources(work.request.deliveryId).value, ReplayOptions(jobId, work))))
         && (notes' == notes || (work.request.eventId != "" && half == [] && notes' == notes + [NothingCame(jobId, work)]))
         && (whole && work.request.eventId != "" && half == [] ==> notes' == notes + [NothingCame(jobId, work)])
    }

    ghost predicate Repeated(jobId: string, work: Job, rest: seq<Snapshot>, from: int, to: int) {
      && |rest| == 1 && work.request.deliveryId != "" && sources(work.request.deliveryId).Some?
      && Repeats(rest[0], work.request.deliveryId, sources(work.request.deliveryId).value, ReplayOptions(jobId, work))
      && from <= rest[0].nextAttemptAt <= to
    }

    /** The other half of a replay. */
    method ReplayDelivery(jobId: string, work: Job) returns (ok: bool, count: nat)
      requires work.request.deliveryId != ""
      modifies this`created, this`now, this`faults
      ensures old(created) <= created && count == |created| - |old(created)| <= 1 && now >= old(now)
      ensures (ok <==> sources(work.request.deliveryId).Some? && faults == old(faults)) && faults >= old(faults)
      ensures ok ==> (created == old(created) <==> TargetGone(sources(work.request.deliveryId).value, ReplayOptions(jobId, work)))
      ensures count == 0 <==> created == old(created)
      ensures count == 1 ==>
                && ok && Repeated(jobId, work, created[|old(created)|..], old(now), now)
                && created[|old(created)|].replayJobId == jobId
                && created[|old(created)|].eventId == sources(work.request.deliveryId).value.eventId
    {
      hide Repeats, TargetGone, ReplayOptions, AsksFor;
      ok, count := CreateFromExisting(work.request.deliveryId, ReplayOptions(jobId, work));
      if count == 1 {
        RepeatsIdentified(created[|old(created)|], work.request.deliveryId, sources(work.request.deliveryId).value, jobId, work);
      }
    }

    /** The event half of what was stored, paced by the job's own rate. */
    ghost predicate PassPaced(work: Job, before: seq<Snapshot>, after: seq<Snapshot>, first: nat, clock: seq<int>, from: int, to: int) {
      |before| + first <= |after| &&
      PacedSince(before, after[..|before| + first], clock, if work.rate != 0 then work.rate else work.request.rate, from, to)
    }

    /** One pass over what the job asks for. */
    method RunPass(jobId: string, work: Job) returns (ok: bool, count: nat, ghost clock: seq<int>, ghost first: nat)
      modifies this`created, this`noops, this`now, this`faults
      ensures old(created) <= created && count == |created| - |old(created)| && AllOfJob(jobId, |old(created)|)
      ensures (ok <==> AllFound(work, events, sources) && faults == old(faults)) && faults >= old(faults) && now >= old(now)
      ensures PassMade(jobId, work, events, originals, sources, old(created), created, first)
      ensures PassStored(jobId, work, ok, old(created), created, first, old(noops), noops, old(now), now)
      ensures PassPaced(work, old(created), created, first, clock, old(now), now)
      ensures work.request.deliveryId == "" ==> |created| == |old(created)| + first
    {
      NothingAdded(created, ReplayOptions(jobId, work).rate, now);
      NothingMade(jobId, work, events, originals, sources, created);
      hide PacedSince, Repeats, EventPartMade, PassMade, PassStored, PassPaced, AllOfJob, EventReplayed, Repeated, TargetGone, ReplayOptions, NothingCame, AsksFor;
      ok, count, clock, first := true, 0, [], 0;
      if work.request.eventId != "" {
        ok, count, clock := ReplayEvent(jobId, work);
        CountAdded(old(created), created, clock, ReplayOptions(jobId, work).rate, old(now), now);
        first := count;
        OnlyEventPart(jobId, work, old(created));
      }
      ghost var half, between, done := created, now, ok;
      if ok && work.request.deliveryId != "" {
        var one;
        ok, one := ReplayDelivery(jobId, work);
        count := count + one;
        if one == 1 {
          OneMore(jobId, work, old(created), half, created[|half|], first);
          assert created == half + [created[|half|]];
          RepeatedSince(jobId, work, created[|half|..], old(now), between, now);
        }
      }
      PacedHalf(jobId, work, old(created), half, created, clock, old(now), between, now);
      PassAssembled(jobId, work, done, ok, old(created), half, created, old(noops), noops, old(now), now);
      MadeForJob(jobId, work, old(created), first);
    }

    lemma MadeForJob(jobId: string, work: Job, before: seq<Snapshot>, first: nat)
      requires PassMade(jobId, work, events, originals, sources, before, created, first)
      ensures AllOfJob(jobId, |before|)
    {
    }

    lemma OnlyEventPart(jobId: string, work: Job, before: seq<Snapshot>)
      requires before <= created && AllOfJob(jobId, |before|) && EventPartMade(work, events, originals, created[|before|..])
      ensures PassMade(jobId, work, events, originals, sources, before, created, |created| - |before|)
    {
      hide EventPartMade;
      assert created[|before|..][..|created| - |before|] == created[|before|..];
    }

    lemma OneMore(jobId: string, work: Job, before: seq<Snapshot>, half: seq<Snapshot>, x: Snapshot, first: nat)
      requires PassMade(jobId, work, events, originals, sources, before, half, first) && |half| == |before| + first
      requires work.request.deliveryId != "" && sources(work.request.deliveryId).Some? && EventFound(work, events)
      requires x.replayJobId == jobId && x.eventId == sources(work.request.deliveryId).value.eventId
      ensures PassMade(jobId, work, events, originals, sources, before, half + [x], first)
    {
      hide EventPartMade;
      assert (half + [x])[|before|..][..first] == half[|before|..][..first];
    }

    lemma NothingMade(jobId: string, work: Job, events: map<string, EventRow>, originals: string -> seq<Source>,
                      sources: string -> Option<Source>, created: seq<Snapshot>)
      ensures PassMade(jobId, work, events, originals, sources, created, created, 0)
    {
    }

    lemma ReplayRateBounds(work: Job, before: seq<Snapshot>, after: seq<Snapshot>, first: nat, clock: seq<int>, from: int, to: int)
      requires before <= after && PassPaced(work, before, after, first, clock, from, to)
      ensures var rate := if work.rate != 0 then work.rate else work.request.rate;
              1 <= rate <= MAX_RATE && Representable(|clock|, rate) ==>
                EveryMinuteWithin(after[|before|..|before| + first], rate)
    {
      var rate := if work.rate != 0 then work.rate else work.request.rate;
      hide PacedSince, Representable, Times, InMinute;
      if 1 <= rate <= MAX_RATE && Representable(|clock|, rate) {
        var half := after[..|before| + first];
        assert half[|before|..] == after[|before|..|before| + first];
        forall start
          ensures WithinRate(half[|before|..], rate, start)
        {
          ReplayRateBound(before, half, clock, rate, from, to, start);
        }
      }
    }

    /** `CreateReplayDeliveries`: done, deferred or failed exactly when the job's state, a start
        lost to another worker, missing rows and store failures say so. */
    method CreateReplayDeliveries(jobId: string) returns (r: Outcome, ghost clock: seq<int>, ghost first: nat)
      modifies this`jobs, this`created, this`noops, this`now, this`faults, this`lost
      ensures jobId !in old(jobs) ==> r == Failed && jobs == old(jobs) && created == old(created) && noops == old(noops)
      ensures jobId in old(jobs) && lost == old(lost) ==>
                Served(jobId, old(jobs)[jobId], r, old(jobs), jobs, events, originals, sources, old(created), created, first)
      ensures faults >= old(faults) && lost >= old(lost)
      ensures lost > old(lost) ==> r == Deferred && jobs == old(jobs) && created == old(created) && noops == old(noops)
      ensures jobId in old(jobs) && Gate(old(jobs)[jobId].state).Some? ==>
                noops == old(noops) && r == if faults == old(faults) then Gate(old(jobs)[jobId].state).value else Failed
      ensures jobId in old(jobs) && Gate(old(jobs)[jobId].state).None? ==>
                && (r == Deferred <==> lost > old(lost))
                && (r == Done <==> AllFound(old(jobs)[jobId], events, sources) && faults == old(faults) && lost == old(lost))
      ensures jobId in old(jobs) && old(jobs)[jobId].state == Scheduled ==>
                PassStored(jobId, old(jobs)[jobId], r == Done, old(created), created, first, old(noops), noops, old(now), now)
      ensures jobId in old(jobs) ==>
                && PassPaced(old(jobs)[jobId], old(created), created, first, clock, old(now), now)
                && (old(jobs)[jobId].request.deliveryId == "" ==> |created| == |old(created)| + first)
      ensures jobId in old(jobs) ==>
                var job := old(jobs)[jobId];
                var rate := if job.rate != 0 then job.rate else job.request.rate;
                1 <= rate <= MAX_RATE && Representable(|clock|, rate) ==>
                  EveryMinuteWithin(created[|old(created)|..|old(created)| + first], rate)
    {
      hide PassMade, AllFound, PacedSince, ReplayOptions, PassStored, PassPaced, EveryMinuteWithin, Representable;
      clock, first := [], 0;
      if jobId in jobs {
        NothingStored(jobId, jobs[jobId]);
        ReplayRateBounds(jobs[jobId], created, created, 0, [], now, now);
      }
      var reached := Reach();
      if !reached || jobId !in jobs {
        return Failed, [], 0;
      }
      var work := jobs[jobId];
      if Gate(work.state).Some? {
        return Gate(work.state).value, [], 0;
      }
      reached := Reach();
      if !reached {
        return Failed, [], 0;
      }
      var started: bool := *;
      if !started {
        lost := lost + 1;
        return Deferred, [], 0;
      }
      r, clock, first := ServeStarted(jobId);
      ReplayRateBounds(work, old(created), created, first, clock, old(now), now);
    }

    lemma StoredInPart(jobId: string, work: Job, before: seq<Snapshot>, after: seq<Snapshot>, first: nat,
                       notes: seq<Noop>, notes': seq<Noop>, from: int, to: int)
      requires PassStored(jobId, work, true, before, after, first, notes, notes', from, to)
      ensures PassStored(jobId, work, false, before, after, first, notes, notes', from, to)
    {
      hide EventReplayed, Repeated, TargetGone, ReplayOptions, NothingCame;
      if work.request.eventId != "" {
        ReplayedInPart(jobId, work, after[|before|..|before| + first]);
      }
    }

    lemma NothingStored(jobId: string, work: Job)
      ensures PassMade(jobId, work, events, originals, sources, created, created, 0)
      ensures PassStored(jobId, work, false, created, created, 0, noops, noops, now, now)
      ensures PassPaced(work, created, created, 0, [], now, now)
    {
      NothingMade(jobId, work, events, originals, sources, created);
      NothingAdded(created, if work.rate != 0 then work.rate else work.request.rate, now);
      assert created[..|created| + 0] == created && created[|created|..|created|] == [] && created[|created|..] == [];
    }

    /** From the start of a scheduled job on. */
    method ServeStarted(jobId: string) returns (r: Outcome, ghost clock: seq<int>, ghost first: nat)
      requires jobId in jobs && jobs[jobId].state == Scheduled
      modifies this`jobs, this`created, this`noops, this`now, this`faults
      ensures faults >= old(faults) && r != Deferred && old(created) <= created
      ensures old(jobs)[jobId].request.deliveryId == "" ==> |created| == |old(created)| + first
      ensures r == Done <==> AllFound(old(jobs)[jobId], events, sources) && faults == old(faults)
      ensures jobs == old(jobs)[jobId := if r == Done then old(jobs)[jobId].(state := Completed, processed := |created| - |old(created)|)
                                         else old(jobs)[jobId].(state := Running)]
      ensures PassMade(jobId, old(jobs)[jobId], events, originals, sources, old(created), created, first)
      ensures PassStored(jobId, old(jobs)[jobId], r == Done, old(created), created, first, old(noops), noops, old(now), now)
      ensures PassPaced(old(jobs)[jobId], old(created), created, first, clock, old(now), now)
    {
      hide PacedSince, ReplayOptions, PassMade, AllFound, PassStored, PassPaced;
      var work := jobs[jobId];
      jobs := jobs[jobId := work.(state := Running)];
      var ok, count;
      ok, count, clock, first := RunPass(jobId, work);
      if !ok {
        return Failed, clock, first;
      }
      StoredInPart(jobId, work, old(created), created, first, old(noops), noops, old(now), now);
      var reached := Reach();
      if !reached {
        return Failed, clock, first;
      }
      jobs := jobs[jobId := work.(state := Completed, processed := count)];
      r := Done;
    }
  }

  /** In the minute that starts then, at most the rate plus one are due; at most the rate when
      it divides the minute. */
  ghost predicate WithinRate(xs: seq<Snapshot>, rate: int, start: int)
    requires rate > 0
  {
    && |InMinute(Times(xs), start)| <= rate + 1
    && (MINUTE % rate == 0 ==> |InMinute(Times(xs), start)| <= rate)
  }

  ghost predicate EveryMinuteWithin(xs: seq<Snapshot>, rate: int)
    requires rate > 0
  {
    forall start :: WithinRate(xs, rate, start)
  }

  /** The rate limit on what the service creates for an event. */
  lemma ReplayRateBound(before: seq<Snapshot>, created: seq<Snapshot>, clock: seq<int>, rate: int, from: int, to: int, start: int)
    requires PacedSince(before, created, clock, rate, from, to)
    requires 1 <= rate <= MAX_RATE && Representable(|clock|, rate)
    ensures WithinRate(created[|before|..], rate, start)
  {
    PacedSinceMeansPaced(before, created, clock, rate, from, to);
    RateBound(Times(created[|before|..]), clock, rate, start);
  }
}
