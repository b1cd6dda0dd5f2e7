/** Evidence bundles: an archive of files with a manifest that lists and hashes them.
    The JSON codec of the manifest, the decoder of the proof file and SHA-256 are arbitrary
    functions; the codec is only assumed to read back what it wrote. An archive is its list
    of entries. */
module EvidenceBundle {
  import opened Text
  import opened Binary
  import AuditChain

  type Bytes = seq<byte>

  const MANIFEST_SCHEMA_V1 := "webhookery.evidence_bundle.v1"
  const MANIFEST_NAME := "manifest.json"
  const PROOF_NAME := "audit_chain_proof.jsonl"

  /** An instant; `ZERO` is Go's zero time. */
  type Instant = int
  const ZERO: Instant := 0

  datatype FileRecord = FileRecord(name: string, sha256: string, sizeBytes: nat)

  datatype Redaction = Redaction(tenantIdentifiers: string, secrets: string, rawPayloadBodies: string, payloadBodies: string)

  const NO_REDACTION := Redaction("", "", "", "")

  datatype Anchor = Anchor(id: string, fromSequence: int, toSequence: int, chainHash: string, manifestSha256: string)

  datatype ChainRange = ChainRange(fromSequence: int, toSequence: int, startChainHash: string, endChainHash: string, anchors: seq<Anchor>)

  /** The manifest members that are written to JSON. */
  datatype Manifest = Manifest(
    schemaVersion: string, generatedAt: Instant, tenantIdHash: string, bundleId: string, exportId: string,
    from: Option<Instant>, to: Option<Instant>, includedEvents: seq<string>, includedIncidents: seq<string>,
    hashes: Option<map<string, string>>, includeRawPayloads: bool, includeTimelines: bool, includePayloadBodies: bool,
    redaction: Redaction, auditChain: Option<ChainRange>, nonClaims: seq<string>, files: seq<FileRecord>)

  /** A caller's manifest: the written members and the two that are not. */
  datatype Draft = Draft(manifest: Manifest, tenantId: string, createdAt: Instant)

  datatype Codec = Codec(
    sha: Bytes -> string,
    textSha: string -> string,
    encode: Manifest -> Bytes,
    decode: Bytes -> Option<Manifest>,
    proofEntries: Bytes -> seq<AuditChain.Entry>,
    proofMalformed: Bytes -> bool)

  ghost predicate ReadsBack(c: Codec) {
    forall m: Manifest :: c.decode(c.encode(m)) == Some(m)
  }

  function SHA256(c: Codec, body: Bytes): (h: string)
    ensures h != ""
  {
    "sha256:" + c.sha(body)
  }

  // ----- building -----

  /** Names for the statements a manifest makes by default; only that they are there matters. */
  const DEFAULT_NON_CLAIMS := ["business success", "exactly once", "provider side", "certification"]

  function DefaultRedaction(raw: bool, bodies: bool): Redaction {
    Redaction("hashed", "excluded", if raw then "on request" else "omitted", if bodies then "on request" else "omitted")
  }

  function HashTable(files: seq<FileRecord>): (table: map<string, string>)
    ensures forall f | f in files :: f.name in table
    ensures (forall i, j | 0 <= i < j < |files| :: files[i].name != files[j].name) ==>
              forall f | f in files :: table[f.name] == f.sha256
  {
    if files == [] then map[]
    else
      var n := |files| - 1;
      HashTable(files[..n])[files[n].name := files[n].sha256]
  }

  /** `normalizeManifest`, with the clock and the cleaned id lists as parameters. */
  function Normalize(c: Codec, d: Draft, files: seq<FileRecord>, now: Instant, events: seq<string>, incidents: seq<string>): Manifest {
    var m := d.manifest;
    m.(schemaVersion := if m.schemaVersion == "" then MANIFEST_SCHEMA_V1 else m.schemaVersion,
       generatedAt := if m.generatedAt != ZERO then m.generatedAt else if d.createdAt != ZERO then d.createdAt else now,
       bundleId := if m.bundleId == "" then m.exportId else m.bundleId,
       tenantIdHash := if m.tenantIdHash == "" && d.tenantId != "" then "sha256:" + c.textSha(d.tenantId) else m.tenantIdHash,
       includedEvents := events, includedIncidents := incidents,
       hashes := Some(HashTable(files)),
       redaction := if m.redaction == NO_REDACTION then DefaultRedaction(m.includeRawPayloads, m.includePayloadBodies) else m.redaction,
       nonClaims := if m.nonClaims == [] then DEFAULT_NON_CLAIMS else m.nonClaims,
       files := files)
  }

  /** `sort.Strings` order. */
  predicate Less(a: string, b: string) {
    if b == "" then false
    else if a == "" then true
    else a[0] < b[0] || (a[0] == b[0] && Less(a[1..], b[1..]))
  }

  /** The names of a set, in order, each once. */
  ghost predicate Listing(names: seq<string>, s: set<string>) {
    && (forall i, j | 0 <= i < j < |names| :: Less(names[i], names[j]))
    && (forall n :: n in names <==> n in s)
  }

  lemma {:induction false} LessTotal(a: string, b: string)
    ensures a == b || Less(a, b) || Less(b, a)
    ensures !(Less(a, b) && Less(b, a)) && !Less(a, a)
  {
    if a != "" && b != "" {
      LessTotal(a[1..], b[1..]);
      LessTotal(a[1..], a[1..]);
      assert a == [a[0]] + a[1..] && b == [b[0]] + b[1..];
    } else if a != "" {
      LessTotal(a[1..], a[1..]);
    }
  }

  lemma {:induction false} LessTransitive(a: string, b: string, c: string)
    requires Less(a, b) && Less(b, c)
    ensures Less(a, c)
  {
    if a != "" && a[0] == b[0] && b[0] == c[0] {
      LessTransitive(a[1..], b[1..], c[1..]);
    }
  }

  /** A set has one listing, so a bundle does not depend on map iteration order. */
  lemma {:induction false} ListingUnique(a: seq<string>, b: seq<string>, s: set<string>)
    requires Listing(a, s) && Listing(b, s)
    ensures a == b
    decreases |a|
  {
    ListingEmpty(a, s);
    ListingEmpty(b, s);
    if a != [] {
      SameFirst(a, b, s);
      SameFirst(b, a, s);
      LessTotal(a[0], b[0]);
      RestListing(a, s);
      RestListing(b, s);
      ListingUnique(a[1..], b[1..], s - {a[0]});
      assert a == [a[0]] + a[1..] && b == [b[0]] + b[1..];
    }
  }

  lemma ListingEmpty(a: seq<string>, s: set<string>)
    requires Listing(a, s)
    ensures a == [] <==> s == {}
  {
    if a != [] {
      assert a[0] in a;
    }
  }

  lemma SameFirst(a: seq<string>, b: seq<string>, s: set<string>)
    requires Listing(a, s) && Listing(b, s) && a != [] && b != []
    ensures a[0] == b[0] || Less(a[0], b[0])
  {
    assert b[0] in b;
    assert b[0] in a;
    var k :| 0 <= k < |a| && a[k] == b[0];
  }

  lemma RestListing(a: seq<string>, s: set<string>)
    requires Listing(a, s) && a != []
    ensures Listing(a[1..], s - {a[0]})
  {
    assert a == [a[0]] + a[1..];
    forall n ensures n in a[1..] <==> n in s - {a[0]} {
      LessTotal(a[0], a[0]);
      if n in a[1..] {
        var k :| 0 <= k < |a[1..]| && a[1..][k] == n;
        assert a[k + 1] == n && Less(a[0], n);
        assert n in a;
      }
    }
  }

  /** Collects the keys of a map in whatever order, then sorts. */
  method SortNames(s: set<string>) returns (names: seq<string>)
    ensures Listing(names, s)
  {
    names := [];
    var todo := s;
    while todo != {}
      invariant todo <= s && Listing(names, s - todo)
      decreases todo
    {
      var x :| x in todo;
      names := InsertSorted(names, x, s - todo);
      todo := todo - {x};
      assert s - todo == (s - todo - {x}) + {x};
    }
    assert s - todo == s;
  }

  method InsertSorted(names: seq<string>, x: string, ghost s: set<string>) returns (r: seq<string>)
    requires Listing(names, s) && x !in s
    ensures Listing(r, s + {x})
  {
    var i := 0;
    while i < |names| && Less(names[i], x)
      invariant 0 <= i <= |names|
      invariant forall k | 0 <= k < i :: Less(names[k], x)
    {
      i := i + 1;
    }
    forall k | i <= k < |names| ensures Less(x, names[k]) {
      LessTotal(names[i], x);
      assert names[i] in names;
      if k > i {
        LessTransitive(x, names[i], names[k]);
      }
    }
    r := names[..i] + [x] + names[i..];
    forall n ensures n in r <==> n in s + {x} {
      assert names == names[..i] + names[i..];
    }
  }

  /** The identifiers in a list, without surrounding space, and without empty ones. */
  function Cleaned(values: seq<string>): (s: set<string>)
  {
    set v | v in values && TrimSpace(v) != "" :: TrimSpace(v)
  }

  /** `normalizedStringSet`: in order, each once. */
  method NormalizedStringSet(values: seq<string>) returns (names: seq<string>)
    ensures Listing(names, Cleaned(values))
  {
    hide TrimSpace;
    var seen := {};
    for i := 0 to |values|
      invariant seen == Cleaned(values[..i])
    {
      var value := TrimSpace(values[i]);
      CleanedMore(values, i);
      if value == "" || value in seen {
        continue;
      }
      seen := seen + {value};
    }
    assert values[..|values|] == values;
    names := SortNames(seen);
  }

  lemma CleanedMore(values: seq<string>, i: nat)
    requires i < |values|
    ensures Cleaned(values[..i + 1]) == Cleaned(values[..i]) + (if TrimSpace(values[i]) == "" then {} else {TrimSpace(values[i])})
  {
    hide TrimSpace;
    assert forall v :: v in values[..i + 1] <==> v in values[..i] || v == values[i] by {
      assert values[..i + 1] == values[..i] + [values[i]];
    }
  }

  function Records(c: Codec, names: seq<string>, files: map<string, Bytes>): (records: seq<FileRecord>)
    requires forall n | n in names :: n in files
    ensures |records| == |names|
    ensures forall i | 0 <= i < |names| :: records[i] == FileRecord(names[i], SHA256(c, files[names[i]]), |files[names[i]]|)
  {
    seq(|names|, i requires 0 <= i < |names| =>
      assert names[i] in names;
      FileRecord(names[i], SHA256(c, files[names[i]]), |files[names[i]]|))
  }

  datatype TarEntry = TarEntry(name: string, regular: bool, body: Bytes)

  datatype Bundle = Bundle(entries: seq<TarEntry>, manifest: Bytes, manifestSha256: string, files: seq<FileRecord>)

  function Entries(names: seq<string>, files: map<string, Bytes>): (entries: seq<TarEntry>)
    requires forall n | n in names :: n in files
    ensures |entries| == |names|
    ensures forall i | 0 <= i < |names| :: entries[i] == TarEntry(names[i], true, files[names[i]])
  {
    seq(|names|, i requires 0 <= i < |names| =>
      assert names[i] in names;
      TarEntry(names[i], true, files[names[i]]))
  }

  /** The manifest in front, then the files in the order of their names. */
  function Archive(names: seq<string>, files: map<string, Bytes>, text: Bytes): (entries: seq<TarEntry>)
    requires forall n | n in names :: n in files
  {
    [TarEntry(MANIFEST_NAME, true, text)] + Entries(names, files)
  }

  /** What `BuildTarGzipBundle` produces once the names are sorted; nothing when an entry
      has no name. */
  function BundleOf(c: Codec, d: Draft, files: map<string, Bytes>, now: Instant,
                    events: seq<string>, incidents: seq<string>, names: seq<string>): Option<Bundle>
    requires forall n | n in names :: n in files
  {
    var records := Records(c, names, files);
    var text := c.encode(Normalize(c, d, records, now, events, incidents));
    if "" in names then None
    else Some(Bundle(Archive(names, files, text), text, SHA256(c, text), records))
  }

  ghost predicate Built(c: Codec, d: Draft, files: map<string, Bytes>, now: Instant, b: Option<Bundle>) {
    exists names, events, incidents ::
      && Listing(names, files.Keys)
      && Listing(events, Cleaned(d.manifest.includedEvents)) && Listing(incidents, Cleaned(d.manifest.includedIncidents))
      && b == BundleOf(c, d, files, now, events, incidents, names)
  }

  method BuildBundle(c: Codec, d: Draft, files: map<string, Bytes>, now: Instant) returns (b: Option<Bundle>)
    ensures Built(c, d, files, now, b)
  {
    hide Normalize;
    var names := SortNames(files.Keys);
    var records := RecordFiles(c, names, files);
    var events := NormalizedStringSet(d.manifest.includedEvents);
    var incidents := NormalizedStringSet(d.manifest.includedIncidents);
    hide Listing, Cleaned;
    var text := c.encode(Normalize(c, d, records, now, events, incidents));
    var entries := WriteEntries(names, files, [TarEntry(MANIFEST_NAME, true, text)]);
    b := if entries.None? then None else Some(Bundle(entries.value, text, SHA256(c, text), records));
  }

  /** A bundle is determined by the draft, the files and the clock: neither the order in which
      maps are walked nor that of the given id lists shows in it. */
  lemma BuildDetermined(c: Codec, d: Draft, e: Draft, files: map<string, Bytes>, now: Instant, a: Option<Bundle>, b: Option<Bundle>)
    requires Built(c, d, files, now, a) && Built(c, e, files, now, b)
    requires Cleaned(d.manifest.includedEvents) == Cleaned(e.manifest.includedEvents)
    requires Cleaned(d.manifest.includedIncidents) == Cleaned(e.manifest.includedIncidents)
    requires e == d.(manifest := d.manifest.(includedEvents := e.manifest.includedEvents, includedIncidents := e.manifest.includedIncidents))
    ensures a == b
  {
    hide Less, Cleaned, Normalize, BundleOf;
    var names, events, incidents :|
      && Listing(names, files.Keys)
      && Listing(events, Cleaned(d.manifest.includedEvents)) && Listing(incidents, Cleaned(d.manifest.includedIncidents))
      && a == BundleOf(c, d, files, now, events, incidents, names);
    var names', events', incidents' :|
      && Listing(names', files.Keys)
      && Listing(events', Cleaned(e.manifest.includedEvents)) && Listing(incidents', Cleaned(e.manifest.includedIncidents))
      && b == BundleOf(c, e, files, now, events', incidents', names');
    ListingUnique(names, names', files.Keys);
    ListingUnique(events, events', Cleaned(d.manifest.includedEvents));
    ListingUnique(incidents, incidents', Cleaned(d.manifest.includedIncidents));
    SameBundle(c, d, e, files, now, events, incidents, names);
  }

  /** The raw id lists of a draft do not show in a bundle, only the cleaned ones. */
  lemma SameBundle(c: Codec, d: Draft, e: Draft, files: map<string, Bytes>, now: Instant,
                   events: seq<string>, incidents: seq<string>, names: seq<string>)
    requires forall n | n in names :: n in files
    requires e == d.(manifest := d.manifest.(includedEvents := e.manifest.includedEvents, includedIncidents := e.manifest.includedIncidents))
    ensures BundleOf(c, d, files, now, events, incidents, names) == BundleOf(c, e, files, now, events, incidents, names)
  {
    var records := Records(c, names, files);
    assert Normalize(c, d, records, now, events, incidents) == Normalize(c, e, records, now, events, incidents);
    hide Normalize, Records, Archive;
  }

  method RecordFiles(c: Codec, names: seq<string>, files: map<string, Bytes>) returns (records: seq<FileRecord>)
    requires forall n | n in names :: n in files
    ensures records == Records(c, names, files)
  {
    records := [];
    for i := 0 to |names|
      invariant |records| == i
      invariant forall k | 0 <= k < i :: records[k] == Records(c, names, files)[k]
    {
      assert names[i] in names;
      records := records + [FileRecord(names[i], SHA256(c, files[names[i]]), |files[names[i]]|)];
    }
  }

  /** `writeTarFile` for every name in order; an empty name stops the build. */
  method WriteEntries(names: seq<string>, files: map<string, Bytes>, head: seq<TarEntry>) returns (r: Option<seq<TarEntry>>)
    requires forall n | n in names :: n in files
    ensures r == if "" in names then None else Some(head + Entries(names, files))
  {
    var entries: seq<TarEntry> := [];
    for i := 0 to |names|
      invariant forall k | 0 <= k < i :: names[k] != ""
      invariant |entries| == i && forall k | 0 <= k < i :: entries[k] == Entries(names, files)[k]
    {
      assert names[i] in names;
      if names[i] == "" {
        return None;
      }
      entries := entries + [TarEntry(names[i], true, files[names[i]])];
    }
    assert entries == Entries(names, files);
    r := Some(head + entries);
  }

  // ----- reading -----

  predicate Unsafe(name: string) {
    name == "" || name[0] == '/' || exists i :: 0 < i < |name| && name[i - 1] == '.' && name[i] == '.'
  }

  /** The files of an archive: later entries win, other kinds of entry are skipped, an
      unsafe name refuses the whole archive. */
  function Read(entries: seq<TarEntry>): Option<map<string, Bytes>> {
    if entries == [] then Some(map[])
    else
      var last := entries[|entries| - 1];
      var before := Read(entries[..|entries| - 1]);
      if before.None? || !last.regular then before
      else if Unsafe(last.name) then None
      else Some(before.value[last.name := last.body])
  }

  ghost predicate Contains(s: string, part: string) {
    exists a, b :: s == a + part + b
  }

  lemma TwoDots(name: string)
    ensures (exists i :: 0 < i < |name| && name[i - 1] == '.' && name[i] == '.') <==> Contains(name, "..")
  {
    if i :| 0 < i < |name| && name[i - 1] == '.' && name[i] == '.' {
      assert name == name[..i - 1] + ".." + name[i + 1..];
    }
    if Contains(name, "..") {
      var a, b :| name == a + ".." + b;
      assert name[|a|] == '.' && name[|a| + 1] == '.';
    }
  }

  /** A name that leads out of the directory an archive is unpacked in. */
  ghost predicate LeadsOut(name: string) {
    name == "" || name[0] == '/' || Contains(name, "..")
  }

  /** The entry at i is the last regular one of its name. */
  ghost predicate LastOfName(entries: seq<TarEntry>, i: nat) {
    i < |entries| && entries[i].regular && forall j | i < j < |entries| :: !(entries[j].regular && entries[j].name == entries[i].name)
  }

  lemma UnsafeLeadsOut(name: string)
    ensures Unsafe(name) <==> LeadsOut(name)
  {
    TwoDots(name);
  }

  lemma {:induction false} RefusedExactly(entries: seq<TarEntry>)
    ensures Read(entries).None? <==> exists i :: 0 <= i < |entries| && entries[i].regular && LeadsOut(entries[i].name)
    decreases |entries|
  {
    hide Unsafe, LeadsOut;
    if entries != [] {
      var n := |entries| - 1;
      var before := entries[..n];
      RefusedExactly(before);
      UnsafeLeadsOut(entries[n].name);
      assert forall i | 0 <= i < n :: before[i] == entries[i];
    }
  }

  ghost predicate Named(entries: seq<TarEntry>, name: string) {
    exists i :: 0 <= i < |entries| && entries[i].regular && entries[i].name == name
  }

  lemma NamedStep(entries: seq<TarEntry>, name: string)
    requires entries != []
    ensures var n := |entries| - 1;
            Named(entries, name) <==> Named(entries[..n], name) || (entries[n].regular && entries[n].name == name)
  {
    var n := |entries| - 1;
    assert forall i | 0 <= i < n :: entries[..n][i] == entries[i];
  }

  lemma {:induction false} ReadNames(entries: seq<TarEntry>, name: string)
    requires Read(entries).Some?
    ensures name in Read(entries).value <==> Named(entries, name)
    decreases |entries|
  {
    hide Unsafe, Named;
    if entries == [] {
      assert !Named(entries, name) by { UnnamedInNone(name); }
    } else {
      ReadNames(entries[..|entries| - 1], name);
      NamedStep(entries, name);
    }
  }

  lemma UnnamedInNone(name: string)
    ensures !Named([], name)
  {
  }

  lemma {:induction false} ReadBodies(entries: seq<TarEntry>, i: nat)
    requires Read(entries).Some? && LastOfName(entries, i)
    ensures entries[i].name in Read(entries).value && Read(entries).value[entries[i].name] == entries[i].body
    decreases |entries|
  {
    hide Unsafe;
    var n := |entries| - 1;
    if i < n {
      var before := entries[..n];
      assert before[i] == entries[i] && forall j | i < j < n :: before[j] == entries[j];
      ReadBodies(before, i);
    }
  }

  /** `readTarGzipFiles`: refused exactly when a regular entry's name is empty, absolute or holds
      two dots in a row; otherwise the names of the regular entries, each with the body of the
      last of them. */
  method ReadFiles(entries: seq<TarEntry>) returns (files: Option<map<string, Bytes>>)
    ensures files == Read(entries)
    ensures files.None? <==>
            exists i :: 0 <= i < |entries| && entries[i].regular
                        && (entries[i].name == "" || entries[i].name[0] == '/' || Contains(entries[i].name, ".."))
    ensures files.Some? ==>
              && (forall n :: n in files.value <==> exists i :: 0 <= i < |entries| && entries[i].regular && entries[i].name == n)
              && (forall i: nat | LastOfName(entries, i) :: entries[i].name in files.value && files.value[entries[i].name] == entries[i].body)
  {
    RefusedExactly(entries);
    if Read(entries).Some? {
      forall n ensures n in Read(entries).value <==> Named(entries, n) { ReadNames(entries, n); }
      forall i: nat | LastOfName(entries, i)
        ensures entries[i].name in Read(entries).value && Read(entries).value[entries[i].name] == entries[i].body
      {
        ReadBodies(entries, i);
      }
    }
    hide Unsafe, Contains, LastOfName;
    var found: map<string, Bytes> := map[];
    for i := 0 to |entries|
      invariant Read(entries[..i]) == Some(found)
    {
      assert entries[..i + 1][..i] == entries[..i];
      var entry := entries[i];
      if !entry.regular {
        continue;
      }
      if Unsafe(entry.name) {
        ReadRefuses(entries, i + 1);
        return None;
      }
      found := found[entry.name := entry.body];
    }
    assert entries[..|entries|] == entries;
    files := Some(found);
  }

  lemma {:induction false} ReadRefuses(entries: seq<TarEntry>, n: nat)
    requires n <= |entries| && Read(entries[..n]).None?
    ensures Read(entries).None?
    decreases |entries| - n
  {
    if n == |entries| {
      assert entries[..n] == entries;
    } else {
      assert entries[..n + 1][..n] == entries[..n];
      ReadRefuses(entries, n + 1);
    }
  }

  // ----- verifying -----

  datatype Problem =
    | ManifestMissing
    | UnsupportedSchema(version: string)
    | BundleIdMissing | TenantIdHashMissing | NonClaimsMissing | RedactionMissing | HashesMissing
    | MissingFile(name: string) | HashMismatch(name: string) | SizeMismatch(name: string)
    | ManifestHashMissing(name: string) | ManifestHashMismatch(name: string)
    | ChainProblem(failure: AuditChain.Failure)

  function Note(bad: bool, p: Problem): seq<Problem> {
    if bad then [p] else []
  }

  function ManifestProblems(m: Manifest): seq<Problem> {
    [] + Note(m.schemaVersion != MANIFEST_SCHEMA_V1, UnsupportedSchema(m.schemaVersion))
    + Note(m.bundleId == "", BundleIdMissing)
    + Note(m.tenantIdHash == "", TenantIdHashMissing)
    + Note(m.nonClaims == [], NonClaimsMissing)
    + Note(m.redaction == NO_REDACTION, RedactionMissing)
    + Note(m.hashes.None?, HashesMissing)
  }

  function FileProblems(c: Codec, m: Manifest, files: map<string, Bytes>, f: FileRecord): seq<Problem> {
    if f.name !in files then [MissingFile(f.name)]
    else
      var hashes := if m.hashes.None? then map[] else m.hashes.value;
      (if SHA256(c, files[f.name]) != f.sha256 then [HashMismatch(f.name)] else [])
      + (if |files[f.name]| != f.sizeBytes then [SizeMismatch(f.name)] else [])
      + (if f.name !in hashes then [ManifestHashMissing(f.name)]
         else if hashes[f.name] != f.sha256 then [ManifestHashMismatch(f.name)] else [])
  }

  function AllFileProblems(c: Codec, m: Manifest, files: map<string, Bytes>, n: nat): seq<Problem>
    requires n <= |m.files|
  {
    if n == 0 then [] else AllFileProblems(c, m, files, n - 1) + FileProblems(c, m, files, m.files[n - 1])
  }

  function PresentFiles(m: Manifest, files: map<string, Bytes>, n: nat): nat
    requires n <= |m.files|
  {
    if n == 0 then 0 else PresentFiles(m, files, n - 1) + if m.files[n - 1].name in files then 1 else 0
  }

  function ChainFailures(c: Codec, proof: Bytes): seq<AuditChain.Failure> {
    var entries := c.proofEntries(proof);
    AuditChain.Failures(c.textSha, entries, |entries|)
  }

  function ChainProblems(failures: seq<AuditChain.Failure>): (problems: seq<Problem>)
    ensures |problems| == |failures|
  {
    seq(|failures|, i requires 0 <= i < |failures| => ChainProblem(failures[i]))
  }

  /** The result record, filled in step by step. */
  class Verification {
    var valid: bool
    var manifestSha256: string
    var checkedFiles: nat
    var checkedChainEntries: nat
    var failures: seq<Problem>

    constructor ()
      ensures valid && manifestSha256 == "" && checkedFiles == 0 && checkedChainEntries == 0 && failures == []
    {
      valid, manifestSha256, checkedFiles, checkedChainEntries, failures := true, "", 0, 0, [];
    }

    /** A result is valid exactly when no failure was noted. */
    predicate Consistent()
      reads this
    {
      valid <==> failures == []
    }

    method Fail(p: Problem)
      modifies this`valid, this`failures
      ensures Consistent() && failures == old(failures) + [p]
    {
      valid := false;
      failures := failures + [p];
    }

    method FailIf(bad: bool, p: Problem, ghost before: seq<Problem>, ghost noted: seq<Problem>) returns (ghost more: seq<Problem>)
      requires Consistent() && failures == before + noted
      modifies this`valid, this`failures
      ensures Consistent() && more == noted + Note(bad, p) && failures == before + more
    {
      more := noted + Note(bad, p);
      if bad {
        Fail(p);
      }
    }

    method ValidateManifest(m: Manifest)
      requires Consistent()
      modifies this`valid, this`failures
      ensures Consistent() && failures == old(failures) + ManifestProblems(m)
    {
      hide Note;
      ghost var start := failures;
      ghost var noted := FailIf(m.schemaVersion != MANIFEST_SCHEMA_V1, UnsupportedSchema(m.schemaVersion), start, []);
      noted := FailIf(m.bundleId == "", BundleIdMissing, start, noted);
      noted := FailIf(m.tenantIdHash == "", TenantIdHashMissing, start, noted);
      noted := FailIf(m.nonClaims == [], NonClaimsMissing, start, noted);
      noted := FailIf(m.redaction == NO_REDACTION, RedactionMissing, start, noted);
      noted := FailIf(m.hashes.None?, HashesMissing, start, noted);
    }

    method CheckFile(c: Codec, m: Manifest, files: map<string, Bytes>, f: FileRecord)
      requires Consistent()
      modifies this`valid, this`failures, this`checkedFiles
      ensures Consistent() && failures == old(failures) + FileProblems(c, m, files, f)
      ensures checkedFiles == old(checkedFiles) + if f.name in files then 1 else 0
    {
      if f.name !in files {
        Fail(MissingFile(f.name));
        return;
      }
      var body := files[f.name];
      checkedFiles := checkedFiles + 1;
      if SHA256(c, body) != f.sha256 {
        Fail(HashMismatch(f.name));
      }
      if |body| != f.sizeBytes {
        Fail(SizeMismatch(f.name));
      }
      if m.hashes.None? || f.name !in m.hashes.value {
        Fail(ManifestHashMissing(f.name));
      } else if m.hashes.value[f.name] != f.sha256 {
        Fail(ManifestHashMismatch(f.name));
      }
    }

    method CheckFiles(c: Codec, m: Manifest, files: map<string, Bytes>)
      requires Consistent()
      modifies this`valid, this`failures, this`checkedFiles
      ensures Consistent() && failures == old(failures) + AllFileProblems(c, m, files, |m.files|)
      ensures checkedFiles == old(checkedFiles) + PresentFiles(m, files, |m.files|)
    {
      hide FileProblems;
      for i := 0 to |m.files|
        invariant Consistent() && failures == old(failures) + AllFileProblems(c, m, files, i)
        invariant checkedFiles == old(checkedFiles) + PresentFiles(m, files, i)
      {
        CheckFile(c, m, files, m.files[i]);
      }
    }
  }

  /** Whether verification ends in a Go error instead of a result. */
  predicate Undecodable(c: Codec, files: map<string, Bytes>) {
    MANIFEST_NAME in files &&
    (c.decode(files[MANIFEST_NAME]).None? || (PROOF_NAME in files && c.proofMalformed(files[PROOF_NAME])))
  }

  function Problems(c: Codec, files: map<string, Bytes>): seq<Problem>
    requires !Undecodable(c, files)
  {
    if MANIFEST_NAME !in files then [ManifestMissing]
    else
      var m := c.decode(files[MANIFEST_NAME]).value;
      ManifestProblems(m) + AllFileProblems(c, m, files, |m.files|)
      + if PROOF_NAME in files then ChainProblems(ChainFailures(c, files[PROOF_NAME])) else []
  }

  /** `verifyTarGzipFiles`: null stands for a Go error. */
  method VerifyFiles(c: Codec, files: map<string, Bytes>) returns (r: Verification?)
    ensures r == null <==>
            "manifest.json" in files &&
            (c.decode(files["manifest.json"]).None? ||
             ("audit_chain_proof.jsonl" in files && c.proofMalformed(files["audit_chain_proof.jsonl"])))
    ensures r != null ==> fresh(r) && r.Consistent() && r.failures == Problems(c, files)
    ensures r != null && MANIFEST_NAME in files ==>
              var m := c.decode(files[MANIFEST_NAME]).value;
              && r.manifestSha256 == SHA256(c, files[MANIFEST_NAME])
              && r.checkedFiles == PresentFiles(m, files, |m.files|)
              && r.checkedChainEntries == if PROOF_NAME in files then |c.proofEntries(files[PROOF_NAME])| else 0
  {
    hide ManifestProblems, AllFileProblems, PresentFiles, AuditChain.Failures;
    var v := new Verification();
    if MANIFEST_NAME !in files {
      v.Fail(ManifestMissing);
      return v;
    }
    v.manifestSha256 := SHA256(c, files[MANIFEST_NAME]);
    var m := c.decode(files[MANIFEST_NAME]);
    if m.None? {
      return null;
    }
    v.ValidateManifest(m.value);
    v.CheckFiles(c, m.value, files);
    if PROOF_NAME in files {
      var proof := files[PROOF_NAME];
      var decoded, failures, checked := AuditChain.VerifyProof(c.textSha, c.proofEntries(proof), c.proofMalformed(proof));
      if !decoded {
        return null;
      }
      v.checkedChainEntries := checked;
      if |failures| > 0 {
        v.valid := false;
        v.failures := v.failures + ChainProblems(failures);
      }
    }
    r := v;
  }

  // ----- what a valid bundle is -----

  /** Soundness of a set of files, without the verifier. */
  ghost predicate Sound(c: Codec, files: map<string, Bytes>) {
    && MANIFEST_NAME in files && c.decode(files[MANIFEST_NAME]).Some?
    && SoundManifest(c.decode(files[MANIFEST_NAME]).value)
    && (forall f | f in c.decode(files[MANIFEST_NAME]).value.files :: SoundFile(c, c.decode(files[MANIFEST_NAME]).value, files, f))
    && (PROOF_NAME in files ==> SoundProof(c, files[PROOF_NAME]))
  }

  ghost predicate SoundManifest(m: Manifest) {
    && m.schemaVersion == MANIFEST_SCHEMA_V1 && m.bundleId != "" && m.tenantIdHash != ""
    && m.nonClaims != [] && m.redaction != NO_REDACTION && m.hashes.Some?
  }

  ghost predicate SoundFile(c: Codec, m: Manifest, files: map<string, Bytes>, f: FileRecord) {
    && f.name in files && f.sha256 == SHA256(c, files[f.name]) && f.sizeBytes == |files[f.name]|
    && m.hashes.Some? && f.name in m.hashes.value && m.hashes.value[f.name] == f.sha256
  }

  ghost predicate SoundProof(c: Codec, proof: Bytes) {
    !c.proofMalformed(proof) && AuditChain.Clean(c.textSha, c.proofEntries(proof))
  }

  lemma {:induction false} NoFileProblems(c: Codec, m: Manifest, files: map<string, Bytes>, n: nat)
    requires n <= |m.files| && m.hashes.Some?
    ensures AllFileProblems(c, m, files, n) == [] <==> forall i | 0 <= i < n :: SoundFile(c, m, files, m.files[i])
  {
    hide FileProblems, SoundFile;
    if n > 0 {
      NoFileProblems(c, m, files, n - 1);
      NoProblemWith(c, m, files, m.files[n - 1]);
    }
  }

  lemma NoProblemWith(c: Codec, m: Manifest, files: map<string, Bytes>, f: FileRecord)
    requires m.hashes.Some?
    ensures FileProblems(c, m, files, f) == [] <==> SoundFile(c, m, files, f)
  {
  }

  /** The verifier accepts exactly the sound bundles. */
  lemma AcceptsExactlySound(c: Codec, files: map<string, Bytes>)
    ensures !Undecodable(c, files) && Problems(c, files) == [] <==> Sound(c, files)
  {
    if MANIFEST_NAME in files && c.decode(files[MANIFEST_NAME]).Some? {
      var m := c.decode(files[MANIFEST_NAME]).value;
      assert ManifestProblems(m) == [] <==> SoundManifest(m);
      if SoundManifest(m) {
        NoFileProblems(c, m, files, |m.files|);
        assert (forall f | f in m.files :: SoundFile(c, m, files, f)) <==>
               forall i | 0 <= i < |m.files| :: SoundFile(c, m, files, m.files[i]);
      }
    }
  }

  /** What a problem in a result says about the files. */
  ghost predicate Describes(c: Codec, files: map<string, Bytes>, p: Problem)
    requires !Undecodable(c, files)
  {
    if "manifest.json" !in files then p.ManifestMissing?
    else
      var m := c.decode(files["manifest.json"]).value;
      || DescribesManifest(m, p)
      || (exists i :: 0 <= i < |m.files| && DescribesFile(c, m, files, m.files[i], p))
      || (p.ChainProblem? && "audit_chain_proof.jsonl" in files && p.failure in ChainFailures(c, files["audit_chain_proof.jsonl"]))
  }

  ghost predicate DescribesManifest(m: Manifest, p: Problem) {
    match p
    case UnsupportedSchema(v) => v == m.schemaVersion != "webhookery.evidence_bundle.v1"
    case BundleIdMissing => m.bundleId == ""
    case TenantIdHashMissing => m.tenantIdHash == ""
    case NonClaimsMissing => m.nonClaims == []
    case RedactionMissing => m.redaction == Redaction("", "", "", "")
    case HashesMissing => m.hashes.None?
    case _ => false
  }

  ghost predicate DescribesFile(c: Codec, m: Manifest, files: map<string, Bytes>, f: FileRecord, p: Problem) {
    match p
    case MissingFile(n) => n == f.name && n !in files
    case HashMismatch(n) => n == f.name && n in files && f.sha256 != "sha256:" + c.sha(files[n])
    case SizeMismatch(n) => n == f.name && n in files && f.sizeBytes != |files[n]|
    case ManifestHashMissing(n) => n == f.name && n in files && (m.hashes.None? || n !in m.hashes.value)
    case ManifestHashMismatch(n) => n == f.name && n in files && m.hashes.Some? && n in m.hashes.value && m.hashes.value[n] != f.sha256
    case _ => false
  }

  lemma FileDescribed(c: Codec, m: Manifest, files: map<string, Bytes>, f: FileRecord, p: Problem)
    ensures p in FileProblems(c, m, files, f) <==> DescribesFile(c, m, files, f, p)
  {
  }

  lemma {:induction false} FilesDescribed(c: Codec, m: Manifest, files: map<string, Bytes>, n: nat, p: Problem)
    requires n <= |m.files|
    ensures p in AllFileProblems(c, m, files, n) <==> exists i :: 0 <= i < n && DescribesFile(c, m, files, m.files[i], p)
    decreases n
  {
    hide FileProblems, DescribesFile;
    if n > 0 {
      FilesDescribed(c, m, files, n - 1, p);
      FileDescribed(c, m, files, m.files[n - 1], p);
    }
  }

  lemma ManifestDescribed(m: Manifest, p: Problem)
    ensures p in ManifestProblems(m) <==> DescribesManifest(m, p)
  {
    hide Note;
    var v := m.schemaVersion != MANIFEST_SCHEMA_V1;
    Noted([], v, UnsupportedSchema(m.schemaVersion), p);
    var a := [] + Note(v, UnsupportedSchema(m.schemaVersion));
    Noted(a, m.bundleId == "", BundleIdMissing, p);
    var b := a + Note(m.bundleId == "", BundleIdMissing);
    Noted(b, m.tenantIdHash == "", TenantIdHashMissing, p);
    var c := b + Note(m.tenantIdHash == "", TenantIdHashMissing);
    Noted(c, m.nonClaims == [], NonClaimsMissing, p);
    var d := c + Note(m.nonClaims == [], NonClaimsMissing);
    Noted(d, m.redaction == NO_REDACTION, RedactionMissing, p);
    var e := d + Note(m.redaction == NO_REDACTION, RedactionMissing);
    Noted(e, m.hashes.None?, HashesMissing, p);
    assert ManifestProblems(m) == e + Note(m.hashes.None?, HashesMissing);
    hide ManifestProblems;
  }

  lemma Noted(before: seq<Problem>, bad: bool, q: Problem, p: Problem)
    ensures p in before + Note(bad, q) <==> p in before || (bad && p == q)
  {
  }

  lemma ChainDescribed(failures: seq<AuditChain.Failure>, p: Problem)
    ensures p in ChainProblems(failures) <==> p.ChainProblem? && p.failure in failures
  {
    if p.ChainProblem? && p.failure in failures {
      var i :| 0 <= i < |failures| && failures[i] == p.failure;
      assert ChainProblems(failures)[i] == p;
    }
  }

  /** Every problem in a result describes the files, and everything wrong with them is in it. */
  lemma ProblemsDescribe(c: Codec, files: map<string, Bytes>, p: Problem)
    requires !Undecodable(c, files)
    ensures p in Problems(c, files) <==> Describes(c, files, p)
  {
    hide ManifestProblems, AllFileProblems, ChainFailures, ChainProblems, DescribesManifest, DescribesFile;
    if MANIFEST_NAME in files {
      var m := c.decode(files[MANIFEST_NAME]).value;
      ManifestDescribed(m, p);
      FilesDescribed(c, m, files, |m.files|, p);
      if PROOF_NAME in files {
        ChainDescribed(ChainFailures(c, files[PROOF_NAME]), p);
      }
    }
  }

  /** The number of files checked is that of the records whose file is there. */
  lemma {:induction false} PresentCounts(m: Manifest, files: map<string, Bytes>, n: nat)
    requires n <= |m.files|
    ensures PresentFiles(m, files, n) == |set i | 0 <= i < n && m.files[i].name in files|
    decreases n
  {
    var all := set i | 0 <= i < n && m.files[i].name in files;
    if n > 0 {
      PresentCounts(m, files, n - 1);
      var before := set i | 0 <= i < n - 1 && m.files[i].name in files;
      assert all == if m.files[n - 1].name in files then before + {n - 1} else before;
    }
  }

  predicate Collision(c: Codec, x: Bytes, y: Bytes) {
    x != y && c.sha(x) == c.sha(y)
  }

  lemma ShaBinds(c: Codec, x: Bytes, y: Bytes)
    requires SHA256(c, x) == SHA256(c, y)
    ensures x == y || Collision(c, x, y)
  {
    assert c.sha(x) == SHA256(c, x)[7..] && c.sha(y) == SHA256(c, y)[7..];
  }

  /** The manifest hash binds the contents: two sound bundles with equal manifest hash have
      the same manifest and agree byte for byte on every listed file, or a collision of
      the hash is at hand. */
  lemma ManifestHashBinds(c: Codec, a: map<string, Bytes>, b: map<string, Bytes>) returns (x: Bytes, y: Bytes)
    requires Sound(c, a) && Sound(c, b)
    requires SHA256(c, a[MANIFEST_NAME]) == SHA256(c, b[MANIFEST_NAME])
    ensures || Collision(c, x, y)
            || (&& a[MANIFEST_NAME] == b[MANIFEST_NAME]
                && forall f | f in c.decode(a[MANIFEST_NAME]).value.files ::
                     f.name in a && f.name in b && a[f.name] == b[f.name])
  {
    x, y := a[MANIFEST_NAME], b[MANIFEST_NAME];
    ShaBinds(c, x, y);
    if x == y {
      var m := c.decode(x).value;
      if f :| f in m.files && a[f.name] != b[f.name] {
        assert SoundFile(c, m, a, f) && SoundFile(c, m, b, f);
        x, y := a[f.name], b[f.name];
        ShaBinds(c, x, y);
      }
    }
  }

  // ----- build then verify -----

  ghost predicate Acceptable(d: Draft) {
    && d.manifest.schemaVersion in {"", MANIFEST_SCHEMA_V1}
    && (d.manifest.bundleId != "" || d.manifest.exportId != "")
    && (d.manifest.tenantIdHash != "" || d.tenantId != "")
  }

  /** Reading an archive of regular entries with distinct names gives each entry back, and
      is refused exactly when some name is unsafe. */
  lemma {:induction false} ReadDistinct(entries: seq<TarEntry>)
    requires forall i | 0 <= i < |entries| :: entries[i].regular
    requires forall i, j | 0 <= i < j < |entries| :: entries[i].name != entries[j].name
    ensures Read(entries).None? <==> exists i :: 0 <= i < |entries| && Unsafe(entries[i].name)
    ensures Read(entries).Some? ==> forall i | 0 <= i < |entries| ::
              entries[i].name in Read(entries).value && Read(entries).value[entries[i].name] == entries[i].body
    ensures Read(entries).Some? ==> forall n | n in Read(entries).value :: exists i :: 0 <= i < |entries| && entries[i].name == n
  {
    hide Unsafe;
    if entries != [] {
      var n := |entries| - 1;
      var before := entries[..n];
      ReadDistinct(before);
      assert forall i | 0 <= i < n :: before[i] == entries[i];
    }
  }

  lemma ArchiveEntries(names: seq<string>, files: map<string, Bytes>, text: Bytes)
    requires forall n | n in names :: n in files
    ensures |Archive(names, files, text)| == |names| + 1 && Archive(names, files, text)[0] == TarEntry(MANIFEST_NAME, true, text)
    ensures forall i | 0 < i <= |names| :: names[i - 1] in names && Archive(names, files, text)[i] == TarEntry(names[i - 1], true, files[names[i - 1]])
  {
  }

  lemma ArchiveDistinct(names: seq<string>, files: map<string, Bytes>, text: Bytes)
    requires Listing(names, files.Keys) && MANIFEST_NAME !in files
    ensures var entries := Archive(names, files, text);
            && (forall i | 0 <= i < |entries| :: entries[i].regular)
            && (forall i, j | 0 <= i < j < |entries| :: entries[i].name != entries[j].name)
  {
    NamesDistinct(names, files.Keys);
    ArchiveEntries(names, files, text);
    hide Archive, Less;
  }

  /** Where the names of an archive come from. */
  lemma ArchiveNames(names: seq<string>, files: map<string, Bytes>, text: Bytes, n: string)
    requires Listing(names, files.Keys) && MANIFEST_NAME !in files
    ensures var entries := Archive(names, files, text);
            (exists i :: 0 <= i < |entries| && entries[i].name == n) <==> n == MANIFEST_NAME || n in files
  {
    ArchiveEntries(names, files, text);
    hide Archive, Less;
    var entries := Archive(names, files, text);
    assert entries[0].name == MANIFEST_NAME;
    if n in files {
      assert n in names;
      var k :| 0 <= k < |names| && names[k] == n;
      assert entries[k + 1].name == n;
    }
  }

  lemma ArchiveValues(names: seq<string>, files: map<string, Bytes>, text: Bytes, i: nat)
    requires Listing(names, files.Keys) && MANIFEST_NAME !in files && i < |Archive(names, files, text)|
    ensures var entry := Archive(names, files, text)[i];
            entry.name in files[MANIFEST_NAME := text] && entry.body == files[MANIFEST_NAME := text][entry.name]
  {
    ArchiveEntries(names, files, text);
    hide Archive, Less;
  }

  lemma ArchiveUnsafe(names: seq<string>, files: map<string, Bytes>, text: Bytes)
    requires Listing(names, files.Keys) && MANIFEST_NAME !in files
    ensures var entries := Archive(names, files, text);
            (exists i :: 0 <= i < |entries| && Unsafe(entries[i].name)) <==> exists n :: n in files && Unsafe(n)
  {
    ManifestNameSafe();
    var entries := Archive(names, files, text);
    hide Unsafe, Archive, Listing;
    if i: nat :| i < |entries| && Unsafe(entries[i].name) {
      ArchiveNames(names, files, text, entries[i].name);
    }
    if n :| n in files && Unsafe(n) {
      ArchiveNames(names, files, text, n);
    }
  }

  /** The archive `BuildTarGzipBundle` writes reads back as the given files plus the manifest. */
  lemma ReadBuilt(names: seq<string>, files: map<string, Bytes>, text: Bytes)
    requires Listing(names, files.Keys) && MANIFEST_NAME !in files
    ensures Read(Archive(names, files, text)) == if exists n :: n in files && Unsafe(n) then None else Some(files[MANIFEST_NAME := text])
  {
    var entries := Archive(names, files, text);
    ArchiveDistinct(names, files, text);
    ArchiveUnsafe(names, files, text);
    hide Unsafe, Read, Archive, Listing;
    ReadDistinct(entries);
    if Read(entries).Some? {
      var found := Read(entries).value;
      forall n
        ensures n in found <==> n in files[MANIFEST_NAME := text]
        ensures n in found ==> found[n] == files[MANIFEST_NAME := text][n]
      {
        ArchiveNames(names, files, text, n);
        if i: nat :| i < |entries| && entries[i].name == n {
          ArchiveValues(names, files, text, i);
        }
      }
      assert found == files[MANIFEST_NAME := text];
    }
  }

  lemma ManifestNameSafe()
    ensures !Unsafe(MANIFEST_NAME)
  {
  }

  lemma NamesDistinct(names: seq<string>, s: set<string>)
    requires Listing(names, s)
    ensures forall i, j | 0 <= i < j < |names| :: names[i] != names[j]
  {
    forall i, j | 0 <= i < j < |names| ensures names[i] != names[j] {
      LessTotal(names[i], names[i]);
    }
  }

  lemma NormalizedManifest(c: Codec, d: Draft, records: seq<FileRecord>, now: Instant, events: seq<string>, incidents: seq<string>)
    ensures var m := Normalize(c, d, records, now, events, incidents);
            (SoundManifest(m) <==> Acceptable(d)) && m.files == records && m.hashes == Some(HashTable(records))
  {
  }

  lemma BuiltFilesSound(c: Codec, m: Manifest, names: seq<string>, files: map<string, Bytes>, all: map<string, Bytes>)
    requires Listing(names, files.Keys) && MANIFEST_NAME !in files
    requires m.files == Records(c, names, files) && m.hashes == Some(HashTable(m.files))
    requires forall n | n in files :: n in all && all[n] == files[n]
    ensures forall f | f in m.files :: SoundFile(c, m, all, f)
    ensures PresentFiles(m, all, |m.files|) == |names|
  {
    hide Less;
    NamesDistinct(names, files.Keys);
    forall f | f in m.files ensures SoundFile(c, m, all, f) {
      var i :| 0 <= i < |m.files| && m.files[i] == f;
      assert names[i] in names;
    }
    AllPresent(m, all, |m.files|);
  }

  lemma {:induction false} AllPresent(m: Manifest, files: map<string, Bytes>, n: nat)
    requires n <= |m.files| && forall f | f in m.files :: f.name in files
    ensures PresentFiles(m, files, n) == n
  {
    if n > 0 {
      AllPresent(m, files, n - 1);
    }
  }

  /** The archive holds the given files and the manifest, and the manifest lists them all. */
  lemma BuiltContents(c: Codec, d: Draft, files: map<string, Bytes>, now: Instant, events: seq<string>, incidents: seq<string>,
                      names: seq<string>)
    requires ReadsBack(c) && MANIFEST_NAME !in files && Listing(names, files.Keys) && "" !in files
    ensures var b := BundleOf(c, d, files, now, events, incidents, names).value;
            && c.decode(b.manifest) == Some(Normalize(c, d, b.files, now, events, incidents))
            && (set f | f in b.files :: f.name) == files.Keys
            && Read(b.entries) ==
               if exists n :: n in files && Unsafe(n) then None else Some(files[MANIFEST_NAME := b.manifest])
  {
    hide Unsafe, Read, Normalize, Less;
    var b := BundleOf(c, d, files, now, events, incidents, names).value;
    ReadBuilt(names, files, b.manifest);
    ListedNames(c, names, files);
  }

  lemma BuiltSound(c: Codec, d: Draft, files: map<string, Bytes>, now: Instant, events: seq<string>, incidents: seq<string>,
                   names: seq<string>)
    requires ReadsBack(c) && MANIFEST_NAME !in files && Listing(names, files.Keys) && "" !in files
    ensures var b := BundleOf(c, d, files, now, events, incidents, names).value;
            var all := files[MANIFEST_NAME := b.manifest];
            && (Sound(c, all) <==> Acceptable(d) && (PROOF_NAME in files ==> SoundProof(c, files[PROOF_NAME])))
            && PresentFiles(c.decode(b.manifest).value, all, |b.files|) == |b.files|
  {
    hide Unsafe, Read, Normalize, Less, SoundManifest, SoundFile, SoundProof, Acceptable;
    var b := BundleOf(c, d, files, now, events, incidents, names).value;
    var m := Normalize(c, d, b.files, now, events, incidents);
    NormalizedManifest(c, d, b.files, now, events, incidents);
    assert c.decode(b.manifest) == Some(m);
    BuiltFilesSound(c, m, names, files, files[MANIFEST_NAME := b.manifest]);
    assert PROOF_NAME != MANIFEST_NAME;
  }

  /** A value given, or a default for one not given. */
  function Given<T(==)>(value: T, none: T, default: T): T {
    if value == none then default else value
  }

  /** A manifest says what the draft says, with the defaults for what it leaves out and the
      given id lists each in its place. */
  ghost predicate SaysDraft(c: Codec, d: Draft, now: Instant, events: seq<string>, incidents: seq<string>, m: Manifest) {
    var g := d.manifest;
    && m.schemaVersion == Given(g.schemaVersion, "", "webhookery.evidence_bundle.v1")
    && m.generatedAt == Given(g.generatedAt, ZERO, Given(d.createdAt, ZERO, now))
    && m.bundleId == Given(g.bundleId, "", g.exportId) && m.exportId == g.exportId
    && m.tenantIdHash == Given(g.tenantIdHash, "", if d.tenantId == "" then "" else "sha256:" + c.textSha(d.tenantId))
    && m.from == g.from && m.to == g.to && m.auditChain == g.auditChain
    && m.includedEvents == events && m.includedIncidents == incidents
    && m.includeRawPayloads == g.includeRawPayloads && m.includeTimelines == g.includeTimelines
    && m.includePayloadBodies == g.includePayloadBodies
    && (g.redaction != Redaction("", "", "", "") ==> m.redaction == g.redaction) && m.redaction != Redaction("", "", "", "")
    && m.nonClaims == Given(g.nonClaims, [], ["business success", "exactly once", "provider side", "certification"])
  }

  lemma NormalizeSays(c: Codec, d: Draft, files: seq<FileRecord>, now: Instant, events: seq<string>, incidents: seq<string>)
    ensures var m := Normalize(c, d, files, now, events, incidents);
            SaysDraft(c, d, now, events, incidents, m) && m.files == files && m.hashes == Some(HashTable(files))
  {
    hide HashTable;
  }

  /** What the manifest of a built bundle says: the draft with its defaults, the cleaned id
      lists, and a record with its hash of every file. It is the first entry of the archive, and
      its own hash is the bundle's. */
  lemma BuiltManifestSays(c: Codec, d: Draft, files: map<string, Bytes>, now: Instant, b: Option<Bundle>)
    requires ReadsBack(c) && Built(c, d, files, now, b) && b.Some?
    ensures b.value.manifestSha256 == "sha256:" + c.sha(b.value.manifest)
    ensures b.value.entries != [] && b.value.entries[0] == TarEntry("manifest.json", true, b.value.manifest)
    ensures c.decode(b.value.manifest).Some?
    ensures var m := c.decode(b.value.manifest).value;
            && SaysDraft(c, d, now, m.includedEvents, m.includedIncidents, m)
            && Listing(m.includedEvents, Cleaned(d.manifest.includedEvents)) && Listing(m.includedIncidents, Cleaned(d.manifest.includedIncidents))
            && m.files == b.value.files
            && m.hashes.Some? && (forall n :: n in m.hashes.value <==> n in files)
            && (forall f | f in m.files :: f.name in files && f.sha256 == m.hashes.value[f.name] == "sha256:" + c.sha(files[f.name]))
  {
    hide Less, Cleaned, HashTable, SaysDraft;
    var names, events, incidents :|
      && Listing(names, files.Keys)
      && Listing(events, Cleaned(d.manifest.includedEvents)) && Listing(incidents, Cleaned(d.manifest.includedIncidents))
      && b == BundleOf(c, d, files, now, events, incidents, names);
    var records := Records(c, names, files);
    NormalizeSays(c, d, records, now, events, incidents);
    TableOfRecords(c, names, files);
    SaysLists(c, d, now, events, incidents, Normalize(c, d, records, now, events, incidents));
    hide Normalize, Records, Listing;
    assert c.decode(b.value.manifest) == Some(Normalize(c, d, records, now, events, incidents));
  }

  lemma SaysLists(c: Codec, d: Draft, now: Instant, events: seq<string>, incidents: seq<string>, m: Manifest)
    requires SaysDraft(c, d, now, events, incidents, m)
    ensures m.includedEvents == events && m.includedIncidents == incidents
  {
  }

  lemma TableOfRecords(c: Codec, names: seq<string>, files: map<string, Bytes>)
    requires Listing(names, files.Keys)
    ensures var records := Records(c, names, files);
            && (forall n :: n in HashTable(records) <==> n in files)
            && (forall f | f in records :: f.name in files && f.sha256 == HashTable(records)[f.name] == "sha256:" + c.sha(files[f.name]))
  {
    var records := Records(c, names, files);
    forall f | f in records
      ensures f.name in files && f.name in HashTable(records) && f.sha256 == HashTable(records)[f.name] == "sha256:" + c.sha(files[f.name])
    {
      RecordTabled(c, names, files, f);
    }
    hide Less, HashTable, Records;
    forall n
      ensures n in HashTable(records) <==> n in files
    {
      if n in files {
        var f := RecordOf(c, names, files, n);
      }
      if n in HashTable(records) {
        TableKeys(records);
      }
    }
  }

  lemma RecordTabled(c: Codec, names: seq<string>, files: map<string, Bytes>, f: FileRecord)
    requires Listing(names, files.Keys) && f in Records(c, names, files)
    ensures f.name in files && f.name in HashTable(Records(c, names, files))
    ensures f.sha256 == HashTable(Records(c, names, files))[f.name] == "sha256:" + c.sha(files[f.name])
  {
    NamesDistinct(names, files.Keys);
    hide Less, HashTable;
    var records := Records(c, names, files);
    var i :| 0 <= i < |records| && records[i] == f;
    assert names[i] in names;
  }

  lemma RecordOf(c: Codec, names: seq<string>, files: map<string, Bytes>, n: string) returns (f: FileRecord)
    requires Listing(names, files.Keys) && n in files
    ensures f in Records(c, names, files) && f.name == n
  {
    hide Less;
    var i :| 0 <= i < |names| && names[i] == n;
    f := Records(c, names, files)[i];
  }

  lemma {:induction false} TableKeys(files: seq<FileRecord>)
    ensures forall n | n in HashTable(files) :: exists f :: f in files && f.name == n
    decreases |files|
  {
    if files != [] {
      var n := |files| - 1;
      TableKeys(files[..n]);
      assert files[n] in files && forall f | f in files[..n] :: f in files;
    }
  }

  /** Build then verify, both ways: for files that do not include a manifest of their own,
      the built archive can be read and is sound exactly when every name is safe, the
      draft names the schema, the bundle and the tenant, and a chain proof, if included,
      is clean. All files are then listed and checked. */
  lemma BuildVerifies(c: Codec, d: Draft, files: map<string, Bytes>, now: Instant, b: Option<Bundle>)
    requires ReadsBack(c) && MANIFEST_NAME !in files
    requires Built(c, d, files, now, b)
    ensures b.Some? && Read(b.value.entries).Some? && Sound(c, Read(b.value.entries).value)
            <==>
            && (forall n | n in files :: !Unsafe(n)) && Acceptable(d)
            && (PROOF_NAME in files ==> SoundProof(c, files[PROOF_NAME]))
    ensures b.Some? && Read(b.value.entries).Some? ==>
              && Read(b.value.entries).value == files[MANIFEST_NAME := b.value.manifest]
              && (set f | f in b.value.files :: f.name) == files.Keys
              && c.decode(b.value.manifest).Some? && c.decode(b.value.manifest).value.files == b.value.files
              && PresentFiles(c.decode(b.value.manifest).value, Read(b.value.entries).value, |b.value.files|) == |b.value.files|
  {
    hide Unsafe, Read, Sound, SoundProof, Acceptable, BundleOf, PresentFiles;
    var names, events, incidents :|
      && Listing(names, files.Keys)
      && Listing(events, Cleaned(d.manifest.includedEvents)) && Listing(incidents, Cleaned(d.manifest.includedIncidents))
      && b == BundleOf(c, d, files, now, events, incidents, names);
    EmptyNameUnsafe();
    BuiltUnlessNameless(c, d, files, now, events, incidents, names);
    if "" !in files {
      BuiltContents(c, d, files, now, events, incidents, names);
      BuiltSound(c, d, files, now, events, incidents, names);
    }
  }

  lemma BuiltUnlessNameless(c: Codec, d: Draft, files: map<string, Bytes>, now: Instant, events: seq<string>, incidents: seq<string>,
                            names: seq<string>)
    requires Listing(names, files.Keys)
    ensures BundleOf(c, d, files, now, events, incidents, names).Some? <==> "" !in files
  {
  }

  lemma EmptyNameUnsafe()
    ensures Unsafe("")
  {
  }

  lemma ListedNames(c: Codec, names: seq<string>, files: map<string, Bytes>)
    requires Listing(names, files.Keys)
    ensures (set f | f in Records(c, names, files) :: f.name) == files.Keys
  {
    var records := Records(c, names, files);
    forall n | n in files ensures n in (set f | f in records :: f.name) {
      var i :| 0 <= i < |names| && names[i] == n;
      assert records[i] in records && records[i].name == n;
    }
    forall f | f in records ensures f.name in files {
      var i :| 0 <= i < |records| && records[i] == f;
      assert names[i] in names;
    }
  }
}
