/** The tamper-evident audit log: how entries are computed, how a proof is checked, and what
    a checked proof binds. SHA-256 is an arbitrary function from text to text; binding
    results say "equal, or here are two different texts with the same digest". */
module AuditChain {
  import opened Text
  import CanonicalJson

  type Digest = string -> string

  const CANONICALIZATION_VERSION := "audit-chain-v1"

  datatype Event = Event(id: string, tenantId: string, actorId: string, action: string,
                         resource: string, resourceId: string, reason: string, occurredAt: string)

  datatype Entry = Entry(id: string, tenantId: string, sequence: int, auditEventId: string,
                         eventHash: string, previousChainHash: string, chainHash: string,
                         canonicalizationVersion: string, source: string, state: string)

  function Hash(digest: Digest, raw: string): (h: string)
    ensures h != ""
  {
    "sha256:" + digest(raw)
  }

  const EVENT_KEYS := ["id", "tenant_id", "actor_id", "action", "resource", "resource_id", "reason", "occurred_at"]

  function EventText(e: Event): string {
    CanonicalJson.Record(EVENT_KEYS, [e.id, e.tenantId, e.actorId, e.action, e.resource, e.resourceId, e.reason, e.occurredAt])
  }

  function EventHash(digest: Digest, e: Event): string {
    Hash(digest, EventText(e))
  }

  const CHAIN_KEYS := ["canonicalization_version", "event_hash", "previous_chain_hash"]

  function ChainText(previous: string, eventHash: string): string {
    CanonicalJson.Record(CHAIN_KEYS, [CANONICALIZATION_VERSION, eventHash, previous])
  }

  function ChainHash(digest: Digest, previous: string, eventHash: string): (h: string)
    ensures h != ""
  {
    Hash(digest, ChainText(previous, eventHash))
  }

  function PreviousHashForSequence(sequence: int, previous: string): string {
    if sequence <= 1 then "" else previous
  }

  function ComputeEntry(digest: Digest, id: string, e: Event, sequence: int, previous: string, source: string): Entry {
    var eventHash := EventHash(digest, e);
    var prev := PreviousHashForSequence(sequence, previous);
    Entry(id, e.tenantId, sequence, e.id, eventHash, prev, ChainHash(digest, prev, eventHash),
          CANONICALIZATION_VERSION, source, "active")
  }

  // ----- checking a proof -----

  datatype Failure = MissingSequence(expected: int) | PreviousMismatch(sequence: int) | HashMismatch(sequence: int)

  /** `expectedSequence++` on a 64-bit integer. */
  function Increment(n: int): int {
    if n == MAX_INT64 then MIN_INT64 else n + 1
  }

  function EntryFailures(digest: Digest, entry: Entry, expected: int, previous: string): seq<Failure> {
    (if entry.sequence != expected then [MissingSequence(expected)] else [])
    + (if entry.previousChainHash != PreviousHashForSequence(entry.sequence, previous)
       then [PreviousMismatch(entry.sequence)] else [])
    + (if ChainHash(digest, entry.previousChainHash, entry.eventHash) != entry.chainHash
       then [HashMismatch(entry.sequence)] else [])
  }

  /** The failures the entry at `i` adds. `0` is the checker's mark for "nothing expected
      yet", so it also skips the gap check after an entry numbered -1. */
  function FailuresAt(digest: Digest, entries: seq<Entry>, i: nat): seq<Failure>
    requires i < |entries|
  {
    var next := if i == 0 then 0 else Increment(entries[i - 1].sequence);
    var expected := if next == 0 then entries[i].sequence else next;
    EntryFailures(digest, entries[i], expected, if i == 0 then "" else entries[i - 1].chainHash)
  }

  function Failures(digest: Digest, entries: seq<Entry>, n: nat): seq<Failure>
    requires n <= |entries|
  {
    if n == 0 then [] else Failures(digest, entries, n - 1) + FailuresAt(digest, entries, n - 1)
  }

  /** The three checks of the loop body, in their order. */
  method CheckEntry(digest: Digest, entry: Entry, expected: int, previous: string) returns (found: seq<Failure>)
    ensures found == EntryFailures(digest, entry, expected, previous)
  {
    hide ChainHash;
    found := [];
    if entry.sequence != expected {
      found := found + [MissingSequence(expected)];
    }
    if entry.previousChainHash != PreviousHashForSequence(entry.sequence, previous) {
      found := found + [PreviousMismatch(entry.sequence)];
    }
    if ChainHash(digest, entry.previousChainHash, entry.eventHash) != entry.chainHash {
      found := found + [HashMismatch(entry.sequence)];
    }
  }

  /** `verifyAuditChainProof` on the decoded stream; `malformed` says that decoding stopped
      with an error after these entries. */
  method VerifyProof(digest: Digest, entries: seq<Entry>, malformed: bool)
    returns (decoded: bool, failures: seq<Failure>, checked: nat)
    ensures decoded == !malformed && checked == |entries|
    ensures decoded ==> failures == Failures(digest, entries, |entries|)
  {
    hide EntryFailures;
    failures, checked := [], 0;
    var previous, expected := "", 0;
    for i := 0 to |entries|
      invariant checked == i
      invariant failures == Failures(digest, entries, i)
      invariant previous == if i == 0 then "" else entries[i - 1].chainHash
      invariant expected == if i == 0 then 0 else Increment(entries[i - 1].sequence)
    {
      var entry := entries[i];
      if expected == 0 {
        expected := entry.sequence;
      }
      var found := CheckEntry(digest, entry, expected, previous);
      if entry.sequence != expected {
        expected := entry.sequence;
      }
      failures := failures + found;
      previous, expected, checked := entry.chainHash, Increment(expected), checked + 1;
    }
    decoded := !malformed;
    if malformed {
      failures := [];
    }
  }

  /** What a sound chain is, without the checker: it starts from the empty hash, numbers
      are consecutive, and each entry is hashed over its predecessor. */
  ghost predicate Linked(digest: Digest, entries: seq<Entry>) {
    forall i | 0 <= i < |entries| :: LinkedAt(digest, entries, i)
  }

  ghost predicate LinkedAt(digest: Digest, entries: seq<Entry>, i: nat)
    requires i < |entries|
  {
    && entries[i].chainHash == ChainHash(digest, entries[i].previousChainHash, entries[i].eventHash)
    && (i == 0 ==> entries[i].previousChainHash == "")
    && (i > 0 ==> entries[i].sequence == entries[i - 1].sequence + 1)
    && (i > 0 ==> entries[i].previousChainHash == entries[i - 1].chainHash)
  }

  /** Sequence numbers as the system assigns them. */
  predicate Numbered(entries: seq<Entry>) {
    forall i | 0 <= i < |entries| :: 1 <= entries[i].sequence <= MAX_INT64
  }

  ghost predicate Clean(digest: Digest, entries: seq<Entry>) {
    Failures(digest, entries, |entries|) == []
  }

  lemma {:induction false} NoFailures(digest: Digest, entries: seq<Entry>, n: nat)
    requires n <= |entries|
    ensures Failures(digest, entries, n) == [] <==> forall i | 0 <= i < n :: FailuresAt(digest, entries, i) == []
  {
    hide FailuresAt;
    if n > 0 {
      NoFailures(digest, entries, n - 1);
    }
  }

  lemma EntryClean(digest: Digest, entries: seq<Entry>, i: nat)
    requires i < |entries| && Numbered(entries)
    ensures FailuresAt(digest, entries, i) == [] <==> LinkedAt(digest, entries, i)
  {
    hide ChainHash;
  }

  /** The streaming checker reports nothing exactly on sound chains. */
  lemma CleanIsLinked(digest: Digest, entries: seq<Entry>)
    requires Numbered(entries)
    ensures Clean(digest, entries) <==> Linked(digest, entries)
  {
    hide ChainHash, FailuresAt, LinkedAt;
    NoFailures(digest, entries, |entries|);
    forall i | 0 <= i < |entries|
      ensures FailuresAt(digest, entries, i) == [] <==> LinkedAt(digest, entries, i)
    {
      EntryClean(digest, entries, i);
    }
  }

  /** What a reported failure says about the entry at i: a number other than the one after the
      number before, a previous hash other than that of the entry before, or a hash other than
      the one computed. */
  ghost predicate Reports(digest: Digest, entries: seq<Entry>, i: nat, f: Failure)
    requires i < |entries|
  {
    match f
    case MissingSequence(n) =>
      i > 0 && n == (if entries[i - 1].sequence == MAX_INT64 then MIN_INT64 else entries[i - 1].sequence + 1) && entries[i].sequence != n
    case PreviousMismatch(n) =>
      n == entries[i].sequence && entries[i].previousChainHash != if i == 0 || n == 1 then "" else entries[i - 1].chainHash
    case HashMismatch(n) =>
      n == entries[i].sequence && entries[i].chainHash != ChainHash(digest, entries[i].previousChainHash, entries[i].eventHash)
  }

  lemma ReportedAt(digest: Digest, entries: seq<Entry>, i: nat, f: Failure)
    requires i < |entries| && Numbered(entries)
    ensures f in FailuresAt(digest, entries, i) <==> Reports(digest, entries, i, f)
  {
    hide ChainHash;
  }

  /** Every failure the checker reports names a broken link, and every broken link is reported. */
  lemma {:induction false} FailuresName(digest: Digest, entries: seq<Entry>, n: nat, f: Failure)
    requires n <= |entries| && Numbered(entries)
    ensures f in Failures(digest, entries, n) <==> exists i | 0 <= i < n :: Reports(digest, entries, i, f)
    decreases n
  {
    hide FailuresAt, Reports;
    if n > 0 {
      FailuresName(digest, entries, n - 1, f);
      ReportedAt(digest, entries, n - 1, f);
    }
  }

  // ----- the hashed texts -----

  /** The text of an event is the JSON record of its eight members. */
  lemma EventTextReads(e: Event)
    ensures forall digest: Digest :: EventHash(digest, e) == "sha256:" + digest(EventText(e))
    ensures CanonicalJson.ReadRecord(EventText(e)) == Some([
              ("id", e.id), ("tenant_id", e.tenantId), ("actor_id", e.actorId), ("action", e.action),
              ("resource", e.resource), ("resource_id", e.resourceId), ("reason", e.reason), ("occurred_at", e.occurredAt)])
  {
    var values := [e.id, e.tenantId, e.actorId, e.action, e.resource, e.resourceId, e.reason, e.occurredAt];
    CanonicalJson.RecordReads(EVENT_KEYS, values);
    hide CanonicalJson.ReadRecord, CanonicalJson.Record;
    assert CanonicalJson.Pairs(EVENT_KEYS, values) == [
      ("id", e.id), ("tenant_id", e.tenantId), ("actor_id", e.actorId), ("action", e.action),
      ("resource", e.resource), ("resource_id", e.resourceId), ("reason", e.reason), ("occurred_at", e.occurredAt)];
  }

  /** The text of a link is the JSON record of the version and the two hashes. */
  lemma ChainTextReads(previous: string, eventHash: string)
    ensures forall digest: Digest :: ChainHash(digest, previous, eventHash) == "sha256:" + digest(ChainText(previous, eventHash))
    ensures CanonicalJson.ReadRecord(ChainText(previous, eventHash)) == Some([
              ("canonicalization_version", "audit-chain-v1"), ("event_hash", eventHash), ("previous_chain_hash", previous)])
  {
    var values := [CANONICALIZATION_VERSION, eventHash, previous];
    hide CanonicalJson.ReadRecord, CanonicalJson.Record;
    CanonicalJson.RecordReads(CHAIN_KEYS, values);
    ThreePairs("canonicalization_version", "event_hash", "previous_chain_hash", CANONICALIZATION_VERSION, eventHash, previous);
  }

  lemma ThreePairs(a: string, b: string, c: string, x: string, y: string, z: string)
    ensures CanonicalJson.Pairs([a, b, c], [x, y, z]) == [(a, x), (b, y), (c, z)]
  {
  }

  // ----- what a proof binds -----

  predicate Collision(digest: Digest, x: string, y: string) {
    x != y && digest(x) == digest(y)
  }

  lemma HashBinds(digest: Digest, x: string, y: string)
    requires Hash(digest, x) == Hash(digest, y)
    ensures x == y || Collision(digest, x, y)
  {
    assert digest(x) == Hash(digest, x)[7..] && digest(y) == Hash(digest, y)[7..];
  }

  lemma ChainTextInjective(p: string, e: string, p': string, e': string)
    requires ChainText(p, e) == ChainText(p', e')
    ensures p == p' && e == e'
  {
    ChainTextReads(p, e);
    ChainTextReads(p', e');
    hide ChainText, CanonicalJson.ReadRecord;
    var v := CanonicalJson.ReadRecord(ChainText(p, e)).value;
    assert v[1] == ("event_hash", e) == ("event_hash", e') && v[2] == ("previous_chain_hash", p) == ("previous_chain_hash", p');
  }

  lemma EventTextInjective(e: Event, e': Event)
    requires EventText(e) == EventText(e')
    ensures e == e'
  {
    var v := [e.id, e.tenantId, e.actorId, e.action, e.resource, e.resourceId, e.reason, e.occurredAt];
    var w := [e'.id, e'.tenantId, e'.actorId, e'.action, e'.resource, e'.resourceId, e'.reason, e'.occurredAt];
    CanonicalJson.RecordInjective(EVENT_KEYS, v, w);
    assert v[0] == w[0] && v[1] == w[1] && v[2] == w[2] && v[3] == w[3];
    assert v[4] == w[4] && v[5] == w[5] && v[6] == w[6] && v[7] == w[7];
  }

  /** Two chains carry the same hashes at every position. Their numbers may differ. */
  ghost predicate SameHashes(a: seq<Entry>, b: seq<Entry>) {
    |a| == |b| && forall i | 0 <= i < |a| ::
      a[i].eventHash == b[i].eventHash && a[i].previousChainHash == b[i].previousChainHash && a[i].chainHash == b[i].chainHash
  }

  lemma LinkedPrefix(digest: Digest, entries: seq<Entry>, n: nat)
    requires Linked(digest, entries) && n <= |entries|
    ensures Linked(digest, entries[..n])
  {
    hide ChainHash;
    forall i | 0 <= i < n ensures LinkedAt(digest, entries[..n], i) {
      assert LinkedAt(digest, entries, i);
    }
  }

  lemma ChainHashesNonEmpty(digest: Digest, entries: seq<Entry>)
    requires Linked(digest, entries)
    ensures forall i | 0 <= i < |entries| :: entries[i].chainHash != ""
  {
    forall i | 0 <= i < |entries| ensures entries[i].chainHash != "" {
      assert LinkedAt(digest, entries, i);
    }
  }

  lemma {:induction false} LinkedBinds(digest: Digest, a: seq<Entry>, b: seq<Entry>) returns (x: string, y: string)
    requires Linked(digest, a) && Linked(digest, b) && a != [] && b != []
    requires a[|a| - 1].chainHash == b[|b| - 1].chainHash
    ensures SameHashes(a, b) || Collision(digest, x, y)
    decreases |a|
  {
    hide ChainText;
    var p, q := a[|a| - 1], b[|b| - 1];
    assert LinkedAt(digest, a, |a| - 1) && LinkedAt(digest, b, |b| - 1);
    ChainHashesNonEmpty(digest, a);
    ChainHashesNonEmpty(digest, b);
    x, y := ChainText(p.previousChainHash, p.eventHash), ChainText(q.previousChainHash, q.eventHash);
    HashBinds(digest, x, y);
    if !Collision(digest, x, y) {
      ChainTextInjective(p.previousChainHash, p.eventHash, q.previousChainHash, q.eventHash);
      if |a| > 1 && |b| > 1 {
        var c, d := a[..|a| - 1], b[..|b| - 1];
        LinkedPrefix(digest, a, |a| - 1);
        LinkedPrefix(digest, b, |b| - 1);
        x, y := LinkedBinds(digest, c, d);
        if SameHashes(c, d) {
          assert forall i | 0 <= i < |c| :: a[i] == c[i] && b[i] == d[i];
        }
      }
    }
  }

  /** Binding: two proofs that both verify without a failure and end in the same chain hash
      have the same length and the same event hash at every position, or a digest
      collision is at hand. */
  lemma ProofsBind(digest: Digest, a: seq<Entry>, b: seq<Entry>) returns (x: string, y: string)
    requires Numbered(a) && Numbered(b) && Clean(digest, a) && Clean(digest, b)
    requires a != [] && b != [] && a[|a| - 1].chainHash == b[|b| - 1].chainHash
    ensures SameHashes(a, b) || Collision(digest, x, y)
  {
    hide ChainHash;
    CleanIsLinked(digest, a);
    CleanIsLinked(digest, b);
    x, y := LinkedBinds(digest, a, b);
  }

  /** The numbers themselves are not bound: any clean proof stays clean when all numbers
      are shifted, as long as they stay in range. */
  lemma NumbersNotBound(digest: Digest, entries: seq<Entry>, shift: int)
    requires Numbered(entries) && Clean(digest, entries)
    requires Numbered(Shifted(entries, shift))
    ensures Clean(digest, Shifted(entries, shift)) && SameHashes(entries, Shifted(entries, shift))
  {
    hide ChainHash;
    CleanIsLinked(digest, entries);
    CleanIsLinked(digest, Shifted(entries, shift));
    forall i | 0 <= i < |entries| ensures LinkedAt(digest, Shifted(entries, shift), i) {
      ShiftedLinked(digest, entries, shift, i);
    }
    hide LinkedAt, Clean;
  }

  lemma ShiftedLinked(digest: Digest, entries: seq<Entry>, shift: int, i: nat)
    requires i < |entries| && LinkedAt(digest, entries, i)
    ensures LinkedAt(digest, Shifted(entries, shift), i)
  {
    hide ChainHash;
  }

  function Shifted(entries: seq<Entry>, shift: int): seq<Entry> {
    seq(|entries|, i requires 0 <= i < |entries| => entries[i].(sequence := entries[i].sequence + shift))
  }

  // ----- removing entries -----

  predicate Increasing(picks: seq<nat>, n: nat) {
    && (forall k | 0 <= k < |picks| :: picks[k] < n)
    && (forall k | 0 < k < |picks| :: picks[k - 1] < picks[k])
  }

  function Pick(entries: seq<Entry>, picks: seq<nat>): seq<Entry>
    requires Increasing(picks, |entries|)
  {
    seq(|picks|, k requires 0 <= k < |picks| => entries[picks[k]])
  }

  lemma {:induction false} NumbersCount(digest: Digest, entries: seq<Entry>, i: nat)
    requires Linked(digest, entries) && i < |entries|
    ensures entries[i].sequence == entries[0].sequence + i
  {
    hide ChainHash;
    if i > 0 {
      assert LinkedAt(digest, entries, i);
      NumbersCount(digest, entries, i - 1);
    }
  }

  lemma PickIsPrefix(digest: Digest, entries: seq<Entry>, picks: seq<nat>, k: nat)
    requires Increasing(picks, |entries|) && Linked(digest, entries) && Linked(digest, Pick(entries, picks))
    requires k < |picks|
    ensures picks[k] == k
  {
    hide ChainHash;
    var kept := Pick(entries, picks);
    assert LinkedAt(digest, kept, k);
    ChainHashesNonEmpty(digest, entries);
    if k == 0 {
      assert kept[0] == entries[picks[0]];
      assert LinkedAt(digest, entries, picks[0]);
    } else {
      PickIsPrefix(digest, entries, picks, k - 1);
      assert kept[k] == entries[picks[k]] && kept[k - 1] == entries[picks[k - 1]];
      NumbersCount(digest, entries, picks[k]);
      NumbersCount(digest, entries, picks[k - 1]);
    }
  }

  lemma PickedPrefix(entries: seq<Entry>, picks: seq<nat>)
    requires Increasing(picks, |entries|) && forall k | 0 <= k < |picks| :: picks[k] == k
    ensures |picks| <= |entries| && Pick(entries, picks) == entries[..|picks|]
  {
    assert |picks| > 0 ==> picks[|picks| - 1] < |entries|;
  }

  lemma PickedNumbered(entries: seq<Entry>, picks: seq<nat>)
    requires Numbered(entries) && Increasing(picks, |entries|)
    ensures Numbered(Pick(entries, picks))
  {
  }

  lemma CleanPickIsPrefix(digest: Digest, entries: seq<Entry>, picks: seq<nat>)
    requires Increasing(picks, |entries|) && Linked(digest, entries) && Linked(digest, Pick(entries, picks))
    ensures forall k | 0 <= k < |picks| :: picks[k] == k
  {
    forall k | 0 <= k < |picks|
      ensures picks[k] == k
    {
      PickIsPrefix(digest, entries, picks, k);
    }
  }

  /** Removal is detected, except of a suffix: what is left of a clean proof after taking
      out any entries verifies without a failure exactly when it is a prefix. */
  lemma RemovalDetected(digest: Digest, entries: seq<Entry>, picks: seq<nat>)
    requires Numbered(entries) && Clean(digest, entries) && Increasing(picks, |entries|)
    ensures Clean(digest, Pick(entries, picks)) <==> forall k | 0 <= k < |picks| :: picks[k] == k
  {
    hide Clean, Linked, Numbered, Pick, Increasing;
    var kept := Pick(entries, picks);
    PickedNumbered(entries, picks);
    CleanIsLinked(digest, entries);
    CleanIsLinked(digest, kept);
    if Linked(digest, kept) {
      CleanPickIsPrefix(digest, entries, picks);
    }
    if forall k | 0 <= k < |picks| :: picks[k] == k {
      PickedPrefix(entries, picks);
      LinkedPrefix(digest, entries, |picks|);
    }
  }

  // ----- building the chain -----

  /** The log after the given events, numbered from 1, each entry over the one before. */
  function Chain(digest: Digest, events: seq<Event>, source: string): (entries: seq<Entry>)
    ensures |entries| == |events|
  {
    if events == [] then []
    else
      var n := |events| - 1;
      var before := Chain(digest, events[..n], source);
      var previous := if n == 0 then "" else before[n - 1].chainHash;
      before + [ComputeEntry(digest, events[n].id, events[n], n + 1, previous, source)]
  }

  /** An entry that belongs to an event. */
  ghost predicate Records(digest: Digest, x: Entry, e: Event, sequence: int, source: string) {
    && x.sequence == sequence && x.eventHash == EventHash(digest, e)
    && x.tenantId == e.tenantId && x.auditEventId == e.id && x.source == source
    && x.canonicalizationVersion == "audit-chain-v1" && x.state == "active"
  }

  lemma {:induction false} ChainLinked(digest: Digest, events: seq<Event>, source: string)
    ensures Linked(digest, Chain(digest, events, source))
    ensures forall i | 0 <= i < |events| :: Records(digest, Chain(digest, events, source)[i], events[i], i + 1, source)
  {
    hide ChainHash, EventHash;
    if events != [] {
      var n := |events| - 1;
      var entries, before := Chain(digest, events, source), Chain(digest, events[..n], source);
      ChainLinked(digest, events[..n], source);
      assert entries[..n] == before;
      forall i | 0 <= i < |events|
        ensures LinkedAt(digest, entries, i) && Records(digest, entries[i], events[i], i + 1, source)
      {
        if i < n {
          assert LinkedAt(digest, before, i) && entries[i] == before[i] && events[..n][i] == events[i];
        }
      }
    }
  }

  /** Every log the system builds verifies without a failure. */
  lemma BuiltChainsVerify(digest: Digest, events: seq<Event>, source: string)
    requires |events| <= MAX_INT64
    ensures Clean(digest, Chain(digest, events, source))
    ensures forall i | 0 <= i < |events| :: Records(digest, Chain(digest, events, source)[i], events[i], i + 1, source)
  {
    hide ChainHash;
    ChainLinked(digest, events, source);
    CleanIsLinked(digest, Chain(digest, events, source));
  }

  /** The head hash of a log binds the whole history: equal heads mean equal events in
      equal order, or a digest collision is at hand. */
  lemma HeadBindsHistory(digest: Digest, a: seq<Event>, b: seq<Event>, s: string, s': string) returns (x: string, y: string)
    requires a != [] && b != []
    requires Chain(digest, a, s)[|a| - 1].chainHash == Chain(digest, b, s')[|b| - 1].chainHash
    ensures a == b || Collision(digest, x, y)
  {
    var c, d := Chain(digest, a, s), Chain(digest, b, s');
    ChainLinked(digest, a, s);
    ChainLinked(digest, b, s');
    x, y := LinkedBinds(digest, c, d);
    if SameHashes(c, d) {
      if i :| 0 <= i < |a| && a[i] != b[i] {
        assert c[i].eventHash == d[i].eventHash;
        x, y := EventText(a[i]), EventText(b[i]);
        HashBinds(digest, x, y);
        if x == y {
          EventTextInjective(a[i], b[i]);
        }
      }
    }
  }
}
