/** The transformation engine on immutable values: the meaning of set, copy, drop and
    redact, and the laws that hold of every operation list. */
module Transform {
  import opened Text
  import opened Json
  import opened JsonPointer

  datatype Error = InvalidOperation | ProtectedPath

  datatype Result<+T> = Ok(value: T) | Err(error: Error)

  /** The raw value of an operation after JSON decoding: missing, not JSON, or a value. */
  datatype RawValue = NoValue | NotJson | Decoded(json: Json)

  datatype Operation = Operation(op: string, path: string, from: string, value: RawValue)

  const REDACTED := Leaf(Str("[REDACTED]"))

  // ----- the evidence guard -----

  const PROTECTED_ANYWHERE := {
    "raw_payload_id", "raw_payload_hash", "signature_verified", "verification", "verification_reason",
    "deduplication_key", "dedupe_status", "adapter_version_id", "normalized_envelope_id",
    "normalized_payload_hash", "envelope_hash", "data_hash", "metadata_hash", "audit"
  }

  const PROTECTED_AT_TOP := { "id", "tenant_id", "source_id", "provider", "provider_event_id" }

  predicate ProtectedToken(token: string, index: nat) {
    token in PROTECTED_ANYWHERE
    || (index == 0 && token in PROTECTED_AT_TOP)
    || HasSuffix(token, "_hash") || HasSuffix(token, "_sha256")
  }

  predicate ProtectedTokens(tokens: seq<string>) {
    exists i :: 0 <= i < |tokens| && ProtectedToken(tokens[i], i)
  }

  predicate ValidPointer(path: string) {
    path != "" && path[0] == '/'
  }

  /** `validateOperation`: `None` when the operation is accepted. */
  function Validate(op: Operation): Option<Error> {
    if op.op !in {"set", "copy", "drop", "redact"} then Some(InvalidOperation)
    else if !ValidPointer(op.path) then Some(InvalidOperation)
    else if ProtectedTokens(Tokens(op.path)) then Some(ProtectedPath)
    else if op.op == "copy" && !ValidPointer(op.from) then Some(InvalidOperation)
    else if op.op == "copy" && ProtectedTokens(Tokens(op.from)) then Some(ProtectedPath)
    else None
  }

  // ----- reading and writing -----

  /** The step a token names at a node. `strconv.Atoi` lets "1", "01" and "+1" name the
      same slot, which section 4 of RFC 6901 forbids. */
  function StepOf(j: Json, token: string): (r: Option<Step>)
    ensures r.Some? ==> Addressable(j, r.value)
    ensures r.Some? && r.value.Key? ==> r.value.k == token
  {
    match j
    case Obj(_) => Some(Key(token))
    case Arr(a) =>
      var index := ParseInt(token);
      if index.Some? && 0 <= index.value < |a| then Some(Index(index.value)) else None
    case Leaf(_) => None
  }

  function Get(j: Json, tokens: seq<string>): Option<Json> {
    if tokens == [] then Some(j)
    else
      var step := StepOf(j, tokens[0]);
      if step.None? then None
      else
        var child := Child(j, step.value);
        if child.None? then None else Get(child.value, tokens[1..])
  }

  /** What `parentForSet` continues with below a step: the member that is there, or a new
      empty object. */
  function ChildForSet(j: Json, step: Step): Json {
    var child := Child(j, step);
    if child.None? then EMPTY_OBJECT else child.value
  }

  function SetIn(j: Json, tokens: seq<string>, v: Json): Option<Json>
    requires tokens != []
    decreases |tokens|
  {
    var step := StepOf(j, tokens[0]);
    if step.None? then None
    else if |tokens| == 1 then Some(Put(j, step.value, v))
    else
      var inner := SetIn(ChildForSet(j, step.value), tokens[1..], v);
      if inner.None? then None else Some(Put(j, step.value, inner.value))
  }

  /** A null document becomes an object before the first step; a null member does not. */
  function RootForSet(j: Json): Json {
    if j == NULL then EMPTY_OBJECT else j
  }

  function Set(j: Json, tokens: seq<string>, v: Json): Option<Json> {
    if tokens == [] then Some(v) else SetIn(RootForSet(j), tokens, v)
  }

  function Remove(j: Json, step: Step): Json
    requires Addressable(j, step)
  {
    match step
    case Key(k) => Obj(j.m - {k})
    case Index(i) => Arr(j.a[..i] + j.a[i + 1..])
  }

  function Drop(j: Json, tokens: seq<string>): Option<Json>
    requires tokens != []
  {
    var step := StepOf(j, tokens[0]);
    if step.None? then None
    else if |tokens| == 1 then Some(Remove(j, step.value))
    else
      var child := Child(j, step.value);
      if child.None? then None
      else
        var inner := Drop(child.value, tokens[1..]);
        if inner.None? then None else Some(Put(j, step.value, inner.value))
  }

  // ----- operation lists -----

  function Checked(r: Option<Json>): Result<Json> {
    if r.None? then Err(InvalidOperation) else Ok(r.value)
  }

  function ApplyOp(doc: Json, op: Operation): Result<Json> {
    var refused := Validate(op);
    if refused.Some? then Err(refused.value)
    else
      var tokens := Tokens(op.path);
      match op.op
      case "set" => if op.value.Decoded? then Checked(Set(doc, tokens, op.value.json)) else Err(InvalidOperation)
      case "copy" =>
        var source := Get(doc, Tokens(op.from));
        if source.None? then Err(InvalidOperation) else Checked(Set(doc, tokens, source.value))
      case "drop" => if tokens == [] then Err(InvalidOperation) else Checked(Drop(doc, tokens))
      case _ => Checked(Set(doc, tokens, REDACTED))
  }

  function Apply(doc: Json, ops: seq<Operation>): Result<Json>
    decreases |ops|
  {
    if ops == [] then Ok(doc)
    else
      var first := ApplyOp(doc, ops[0]);
      if first.Err? then first else Apply(first.value, ops[1..])
  }

  // ----- where an operation acts -----

  /** The location a pointer resolves to for reading. */
  function Resolve(j: Json, tokens: seq<string>): (r: Option<Location>)
    ensures r.Some? ==> |r.value| == |tokens|
  {
    if tokens == [] then Some([])
    else
      var step := StepOf(j, tokens[0]);
      if step.None? || Child(j, step.value).None? then None
      else
        var rest := Resolve(Child(j, step.value).value, tokens[1..]);
        if rest.None? then None else Some([step.value] + rest.value)
  }

  /** The location a pointer resolves to for writing, through objects yet to be created. */
  function LocateIn(j: Json, tokens: seq<string>): (r: Option<Location>)
    ensures r.Some? ==> |r.value| == |tokens|
    decreases |tokens|
  {
    if tokens == [] then Some([])
    else
      var step := StepOf(j, tokens[0]);
      if step.None? then None
      else
        var rest := LocateIn(ChildForSet(j, step.value), tokens[1..]);
        if rest.None? then None else Some([step.value] + rest.value)
  }

  function Locate(j: Json, tokens: seq<string>): Option<Location> {
    LocateIn(RootForSet(j), tokens)
  }

  lemma {:induction false} GetReadsResolved(j: Json, tokens: seq<string>)
    ensures Get(j, tokens) ==
            var loc := Resolve(j, tokens); if loc.None? then None else ReadAt(j, loc.value)
    ensures Get(j, tokens).Some? <==> Resolve(j, tokens).Some?
  {
    if tokens != [] {
      var step := StepOf(j, tokens[0]);
      if step.Some? && Child(j, step.value).Some? {
        GetReadsResolved(Child(j, step.value).value, tokens[1..]);
      }
    }
  }

  /** What a document reads at `q` after storing `v` at `p`, for `q` not above `p`. */
  function ReadAfterSet(j: Json, p: Location, v: Json, q: Location): Option<Json> {
    if p <= q then ReadAt(v, q[|p|..]) else ReadAt(j, q)
  }

  lemma EmptyObjectReadsNothing(q: Location)
    requires q != []
    ensures ReadAt(EMPTY_OBJECT, q) == None
  {
  }

  /** One level of the set law: storing `stored` under `step` moves the question about
      `q` below that step, or leaves it untouched. */
  lemma ReadAfterPut(j: Json, step: Step, stored: Json, q: Location)
    requires Addressable(j, step) && q != []
    ensures ReadAt(Put(j, step, stored), q) ==
            if q[0] == step then ReadAt(stored, q[1..]) else ReadAt(j, q)
  {
  }

  lemma PrefixBelow(step: Step, rest: Location, q: Location)
    requires q != []
    ensures [step] + rest <= q <==> q[0] == step && rest <= q[1..]
    ensures q < [step] + rest <==> q[0] == step && q[1..] < rest
    ensures [step] + rest <= q ==> q[|[step] + rest|..] == q[1..][|rest|..]
  {
    var p := [step] + rest;
    if q[0] == step {
      assert q == [step] + q[1..];
      if rest <= q[1..] {
        assert q[1..] == rest + q[1..][|rest|..];
        assert q == p + q[1..][|rest|..];
      }
      if q[1..] <= rest {
        assert rest == q[1..] + rest[|q| - 1..];
        assert p == q + rest[|q| - 1..];
      }
    }
    if p <= q {
      assert q[1..][..|rest|] == rest;
    }
    if q <= p {
      assert rest[..|q| - 1] == q[1..];
    }
  }

  lemma {:induction false} SetInLaw(j: Json, tokens: seq<string>, v: Json, q: Location)
    requires tokens != []
    ensures SetIn(j, tokens, v).Some? <==> LocateIn(j, tokens).Some?
    ensures SetIn(j, tokens, v).Some? && !(q < LocateIn(j, tokens).value) ==>
              ReadAt(SetIn(j, tokens, v).value, q) == ReadAfterSet(j, LocateIn(j, tokens).value, v, q)
    decreases |tokens|
  {
    var located := StepOf(j, tokens[0]);
    if located.Some? {
      var step := located.value;
      var rest := [];
      var stored := v;
      if |tokens| > 1 {
        SetInLaw(ChildForSet(j, step), tokens[1..], v, if q == [] then [] else q[1..]);
        if LocateIn(j, tokens).None? {
          return;
        }
        rest := LocateIn(ChildForSet(j, step), tokens[1..]).value;
        stored := SetIn(ChildForSet(j, step), tokens[1..], v).value;
      }
      assert SetIn(j, tokens, v).value == Put(j, step, stored);
      assert LocateIn(j, tokens).value == [step] + rest;
      if q != [] {
        PrefixBelow(step, rest, q);
        ReadAfterPut(j, step, stored, q);
        if |tokens| > 1 && q[0] == step && q[1..] != [] {
          EmptyObjectReadsNothing(q[1..]);
        }
      }
    }
  }

  /** Complete law of set: it succeeds exactly when its pointer can be located, the value
      stands at the location, and every other location that is not above it reads as
      before, whether or not anything was there and whatever parents were created. */
  lemma SetLaw(j: Json, tokens: seq<string>, v: Json, q: Location)
    ensures Set(j, tokens, v).Some? <==> Locate(j, tokens).Some?
    ensures Set(j, tokens, v).Some? && !(q < Locate(j, tokens).value) ==>
              ReadAt(Set(j, tokens, v).value, q) == ReadAfterSet(j, Locate(j, tokens).value, v, q)
  {
    if tokens != [] {
      SetInLaw(RootForSet(j), tokens, v, q);
      if Locate(j, tokens).Some? {
        var p := Locate(j, tokens).value;
        if q == [] {
          assert q < p;
        }
      }
    } else {
      assert q[0..] == q;
    }
  }

  lemma StepsSurvivePut(j: Json, step: Step, v: Json, token: string)
    requires Addressable(j, step)
    ensures StepOf(Put(j, step, v), token) == StepOf(j, token)
  {
  }

  lemma {:induction false} SetInResolves(j: Json, tokens: seq<string>, v: Json)
    requires tokens != [] && SetIn(j, tokens, v).Some?
    ensures Resolve(SetIn(j, tokens, v).value, tokens) == LocateIn(j, tokens)
    decreases |tokens|
  {
    var step := StepOf(j, tokens[0]).value;
    var stored := v;
    if |tokens| > 1 {
      stored := SetIn(ChildForSet(j, step), tokens[1..], v).value;
      SetInResolves(ChildForSet(j, step), tokens[1..], v);
    } else {
      assert tokens[1..] == [];
      assert Resolve(stored, tokens[1..]) == Some([]);
      assert [step] + [] == [step];
    }
    StepsSurvivePut(j, step, stored, tokens[0]);
  }

  /** After a successful set, its pointer reads the value. */
  lemma GetAfterSet(j: Json, tokens: seq<string>, v: Json)
    requires Set(j, tokens, v).Some?
    ensures Get(Set(j, tokens, v).value, tokens) == Some(v)
  {
    if tokens != [] {
      SetInResolves(RootForSet(j), tokens, v);
      GetReadsResolved(Set(j, tokens, v).value, tokens);
      SetLaw(j, tokens, v, []);
      var p := Locate(j, tokens).value;
      SetLaw(j, tokens, v, p);
      assert p[|p|..] == [];
    }
  }

  lemma {:induction false} SetInKeepsResolution(j: Json, tokens: seq<string>, v: Json, others: seq<string>)
    requires tokens != [] && SetIn(j, tokens, v).Some? && LocateIn(j, tokens).Some?
    requires Resolve(j, others).Some?
    requires !(LocateIn(j, tokens).value <= Resolve(j, others).value)
    requires !(Resolve(j, others).value <= LocateIn(j, tokens).value)
    ensures Resolve(SetIn(j, tokens, v).value, others) == Resolve(j, others)
    decreases |tokens|
  {
    var step := StepOf(j, tokens[0]).value;
    var other := StepOf(j, others[0]).value;
    var stored := if |tokens| == 1 then v else SetIn(ChildForSet(j, step), tokens[1..], v).value;
    StepsSurvivePut(j, step, stored, others[0]);
    var q := Resolve(j, others).value;
    if |tokens| > 1 && other == step {
      PrefixBelow(step, LocateIn(ChildForSet(j, step), tokens[1..]).value, q);
      SetInKeepsResolution(Child(j, step).value, tokens[1..], v, others[1..]);
    } else {
      assert |tokens| == 1 ==> LocateIn(j, tokens).value == [step];
      assert other != step;
    }
  }

  /** Frame law on pointers: a pointer that resolved before the set, and whose location is
      neither above, at, nor below the written one, reads the same value afterwards. */
  lemma SetFrame(j: Json, tokens: seq<string>, v: Json, others: seq<string>)
    requires Locate(j, tokens).Some? && Resolve(j, others).Some?
    requires !(Locate(j, tokens).value <= Resolve(j, others).value)
    requires !(Resolve(j, others).value <= Locate(j, tokens).value)
    ensures Set(j, tokens, v).Some?
    ensures Get(Set(j, tokens, v).value, others) == Get(j, others)
  {
    SetLaw(j, tokens, v, Resolve(j, others).value);
    assert others != [];
    SetInKeepsResolution(RootForSet(j), tokens, v, others);
    GetReadsResolved(j, others);
    GetReadsResolved(Set(j, tokens, v).value, others);
  }

  /** Where the value now standing at `q` stood before the drop at `p`: array slots from
      the dropped one on have moved down by one. */
  function Origin(p: Location, q: Location): Location
    requires p != []
  {
    if q == [] then q
    else if |p| == 1 then
      if p[0].Index? && q[0].Index? && p[0].i <= q[0].i then [Index(q[0].i + 1)] + q[1..] else q
    else if p[0] == q[0] then [q[0]] + Origin(p[1..], q[1..])
    else q
  }

  /** What a document reads at `q` after the drop at `p`, for `q` not above `p`. */
  function ReadAfterDrop(j: Json, p: Location, q: Location): Option<Json>
    requires p != []
  {
    if p[|p| - 1].Key? && p <= q then None else ReadAt(j, Origin(p, q))
  }

  lemma ReadAfterRemove(j: Json, step: Step, q: Location)
    requires Addressable(j, step) && q != []
    ensures ReadAt(Remove(j, step), q) == ReadAfterDrop(j, [step], q)
  {
    assert [step] <= q <==> q[0] == step;
    assert Origin([step], q)[1..] == q[1..];
    assert Child(Remove(j, step), q[0]) ==
           if step.Key? && q[0] == step then None else Child(j, Origin([step], q)[0]);
  }

  lemma OriginBelow(step: Step, rest: Location, q: Location)
    requires rest != [] && q != []
    ensures Origin([step] + rest, q) == if q[0] == step then [step] + Origin(rest, q[1..]) else q
  {
    assert ([step] + rest)[1..] == rest;
  }

  lemma ReadBelow(j: Json, step: Step, loc: Location)
    requires Child(j, step).Some?
    ensures ReadAt(j, [step] + loc) == ReadAt(Child(j, step).value, loc)
  {
    assert ([step] + loc)[1..] == loc;
  }

  lemma ReadAfterDropBelow(j: Json, step: Step, rest: Location, q: Location)
    requires Child(j, step).Some? && rest != [] && q != []
    ensures ReadAfterDrop(j, [step] + rest, q) ==
            if q[0] == step then ReadAfterDrop(Child(j, step).value, rest, q[1..]) else ReadAt(j, q)
  {
    hide Origin, ReadAt;
    PrefixBelow(step, rest, q);
    OriginBelow(step, rest, q);
    ReadBelow(j, step, Origin(rest, q[1..]));
  }

  lemma {:induction false} DropInLaw(j: Json, tokens: seq<string>, q: Location)
    requires tokens != [] && Drop(j, tokens).Some?
    ensures LocateIn(j, tokens).Some?
    ensures !(q < LocateIn(j, tokens).value) ==>
              ReadAt(Drop(j, tokens).value, q) == ReadAfterDrop(j, LocateIn(j, tokens).value, q)
    decreases |tokens|
  {
    var step := StepOf(j, tokens[0]).value;
    if |tokens| == 1 {
      assert tokens[1..] == [] && [step] + [] == [step];
      assert LocateIn(j, tokens) == Some([step]);
      if q != [] {
        ReadAfterRemove(j, step, q);
      }
    } else {
      var child := Child(j, step).value;
      DropInLaw(child, tokens[1..], if q == [] then [] else q[1..]);
      var rest := LocateIn(child, tokens[1..]).value;
      assert LocateIn(j, tokens).value == [step] + rest;
      if q != [] {
        PrefixBelow(step, rest, q);
        ReadAfterPut(j, step, Drop(child, tokens[1..]).value, q);
        ReadAfterDropBelow(j, step, rest, q);
      }
    }
  }

  /** A drop succeeds exactly when its parent can be read and has room for the last token: the
      member itself may be missing from an object. */
  lemma {:induction false} DropSucceeds(j: Json, tokens: seq<string>)
    requires tokens != []
    ensures var parent := Get(j, tokens[..|tokens| - 1]);
            Drop(j, tokens).Some? <==> parent.Some? && StepOf(parent.value, tokens[|tokens| - 1]).Some?
    decreases |tokens|
  {
    if |tokens| > 1 {
      var step := StepOf(j, tokens[0]);
      assert tokens[..|tokens| - 1][1..] == tokens[1..][..|tokens| - 2];
      if step.Some? && Child(j, step.value).Some? {
        DropSucceeds(Child(j, step.value).value, tokens[1..]);
      }
    }
  }

  /** Complete law of drop: afterwards the dropped member is gone, or the array slots after
      the dropped one have moved down, and every other location not above it reads as
      before. */
  lemma DropLaw(j: Json, tokens: seq<string>, q: Location)
    requires tokens != [] && Drop(j, tokens).Some?
    ensures Locate(j, tokens).Some?
    ensures !(q < Locate(j, tokens).value) ==>
              ReadAt(Drop(j, tokens).value, q) == ReadAfterDrop(j, Locate(j, tokens).value, q)
  {
    DropInLaw(j, tokens, q);
  }

  // ----- what an operation does -----

  /** Which operations are accepted, and why the others are not. */
  lemma AcceptedExactly(op: Operation)
    ensures Validate(op).None? <==>
            && op.op in {"set", "copy", "drop", "redact"} && op.path != "" && op.path[0] == '/' && !ProtectedTokens(Tokens(op.path))
            && (op.op == "copy" ==> op.from != "" && op.from[0] == '/' && !ProtectedTokens(Tokens(op.from)))
    ensures Validate(op) == Some(ProtectedPath) <==>
            && op.op in {"set", "copy", "drop", "redact"} && ValidPointer(op.path)
            && (ProtectedTokens(Tokens(op.path)) || (op.op == "copy" && ValidPointer(op.from) && ProtectedTokens(Tokens(op.from))))
  {
  }

  /** Exactly when an operation goes through. */
  lemma OperationSucceeds(doc: Json, op: Operation)
    ensures ApplyOp(doc, op).Ok? <==>
            && Validate(op).None?
            && (op.op == "set" ==> op.value.Decoded?)
            && (op.op == "copy" ==> Get(doc, Tokens(op.from)).Some?)
            && (op.op != "drop" ==> Locate(doc, Tokens(op.path)).Some?)
            && (op.op == "drop" ==>
                  && Tokens(op.path) != []
                  && var tokens := Tokens(op.path);
                     var parent := Get(doc, tokens[..|tokens| - 1]);
                     parent.Some? && StepOf(parent.value, tokens[|tokens| - 1]).Some?)
    ensures ApplyOp(doc, op) == Err(ProtectedPath) <==> Validate(op) == Some(ProtectedPath)
  {
    var tokens := Tokens(op.path);
    SetLaw(doc, tokens, NULL, []);
    if op.op == "set" && op.value.Decoded? {
      SetLaw(doc, tokens, op.value.json, []);
    }
    if op.op == "copy" && Get(doc, Tokens(op.from)).Some? {
      SetLaw(doc, tokens, Get(doc, Tokens(op.from)).value, []);
    }
    SetLaw(doc, tokens, REDACTED, []);
    if tokens != [] {
      DropSucceeds(doc, tokens);
    }
  }

  /** The value an operation other than a drop stores. */
  ghost predicate Stores(doc: Json, op: Operation, v: Json) {
    match op.op
    case "set" => op.value == Decoded(v)
    case "copy" => Get(doc, Tokens(op.from)) == Some(v)
    case "redact" => v == Leaf(Str("[REDACTED]"))
    case _ => false
  }

  /** A set stores its value, a redact the text "[REDACTED]", a copy what its source reads: that
      is what the path reads afterwards. */
  lemma OperationStores(doc: Json, op: Operation)
    requires ApplyOp(doc, op).Ok? && op.op != "drop"
    ensures Get(ApplyOp(doc, op).value, Tokens(op.path)).Some?
    ensures Stores(doc, op, Get(ApplyOp(doc, op).value, Tokens(op.path)).value)
  {
    var v := if op.op == "set" then op.value.json else if op.op == "copy" then Get(doc, Tokens(op.from)).value else REDACTED;
    GetAfterSet(doc, Tokens(op.path), v);
  }

  /** What every location not above the path reads after an operation. */
  lemma OperationReads(doc: Json, op: Operation, q: Location)
    requires ApplyOp(doc, op).Ok?
    ensures Locate(doc, Tokens(op.path)).Some?
    ensures !(q < Locate(doc, Tokens(op.path)).value) ==>
              var p := Locate(doc, Tokens(op.path)).value;
              if op.op == "drop" then p != [] && ReadAt(ApplyOp(doc, op).value, q) == ReadAfterDrop(doc, p, q)
              else exists v :: Stores(doc, op, v) && ReadAt(ApplyOp(doc, op).value, q) == ReadAfterSet(doc, p, v, q)
  {
    var tokens := Tokens(op.path);
    if op.op == "drop" {
      DropLaw(doc, tokens, q);
    } else {
      var v := if op.op == "set" then op.value.json else if op.op == "copy" then Get(doc, Tokens(op.from)).value else REDACTED;
      SetLaw(doc, tokens, v, q);
      assert Stores(doc, op, v);
    }
  }

  /** A list runs its operations one after the other and stops at the first error. */
  lemma {:induction false} ApplyInTurn(doc: Json, a: seq<Operation>, b: seq<Operation>)
    ensures Apply(doc, a + b) == if Apply(doc, a).Err? then Apply(doc, a) else Apply(Apply(doc, a).value, b)
    ensures Apply(doc, []) == Ok(doc)
    ensures forall op :: Apply(doc, [op]) == ApplyOp(doc, op)
    decreases |a|
  {
    hide ApplyOp;
    forall op
      ensures Apply(doc, [op]) == ApplyOp(doc, op)
    {
      assert [op][1..] == [];
    }
    if a == [] {
      assert a + b == b;
    } else {
      assert (a + b)[1..] == a[1..] + b;
      if ApplyOp(doc, a[0]).Ok? {
        ApplyInTurn(ApplyOp(doc, a[0]).value, a[1..], b);
      }
    }
  }

  // ----- every location has a name -----

  /** The tokens that name a location. */
  function NameOf(loc: Location): (tokens: seq<string>)
    ensures |tokens| == |loc|
    ensures forall i | 0 <= i < |loc| :: tokens[i] == match loc[i] case Key(k) => k case Index(n) => Itoa(n)
  {
    seq(|loc|, i requires 0 <= i < |loc| => match loc[i] case Key(k) => k case Index(n) => Itoa(n))
  }

  /** Slices are no longer than 64-bit numbers can say. */
  ghost predicate SlicesFit(j: Json) {
    match j
    case Leaf(_) => true
    case Obj(m) => forall k | k in m :: SlicesFit(m[k])
    case Arr(a) => |a| <= MAX_INT64 && forall i | 0 <= i < |a| :: SlicesFit(a[i])
  }

  /** Whatever a document holds anywhere can be read and overwritten under the location's name. */
  lemma {:induction false} NamesReach(j: Json, loc: Location)
    requires SlicesFit(j) && ReadAt(j, loc).Some?
    ensures Get(j, NameOf(loc)) == ReadAt(j, loc)
    ensures Resolve(j, NameOf(loc)) == Some(loc) && LocateIn(j, NameOf(loc)) == Some(loc)
    decreases |loc|
  {
    if loc == [] {
      assert NameOf(loc) == [];
    } else {
      var child := Child(j, loc[0]).value;
      assert NameOf(loc)[1..] == NameOf(loc[1..]);
      assert loc == [loc[0]] + loc[1..];
      StepNamed(j, loc[0]);
      hide SlicesFit, NameOf, StepOf;
      NamesReach(child, loc[1..]);
      assert ChildForSet(j, loc[0]) == child;
      hide Child, Get, Resolve, LocateIn;
      OneStepDown(j, NameOf(loc), loc[0], child);
    }
  }

  lemma OneStepDown(j: Json, tokens: seq<string>, step: Step, child: Json)
    requires tokens != [] && StepOf(j, tokens[0]) == Some(step) && Child(j, step) == Some(child)
    ensures Get(j, tokens) == Get(child, tokens[1..])
    ensures Resolve(child, tokens[1..]).Some? ==> Resolve(j, tokens) == Some([step] + Resolve(child, tokens[1..]).value)
    ensures LocateIn(child, tokens[1..]).Some? ==> LocateIn(j, tokens) == Some([step] + LocateIn(child, tokens[1..]).value)
  {
    assert ChildForSet(j, step) == child;
    hide StepOf, Child;
  }

  lemma StepNamed(j: Json, step: Step)
    requires SlicesFit(j) && Child(j, step).Some?
    ensures StepOf(j, match step case Key(k) => k case Index(n) => Itoa(n)) == Some(step)
    ensures SlicesFit(Child(j, step).value)
  {
    if step.Index? {
      ParseIntRoundTrip(step.i);
    }
  }

  /** Below an object, members that are not there yet can be written under their names. */
  lemma {:induction false} NamesCreate(j: Json, keys: seq<string>)
    requires keys != [] && j.Obj? && keys[0] !in j.m
    ensures LocateIn(j, keys) == Some(KeyPath(keys))
    decreases |keys|
  {
    assert KeyPath(keys) == [Key(keys[0])] + KeyPath(keys[1..]);
    assert ChildForSet(j, Key(keys[0])) == EMPTY_OBJECT;
    if |keys| > 1 {
      NamesCreate(EMPTY_OBJECT, keys[1..]);
    } else {
      assert keys[1..] == [] && KeyPath(keys[1..]) == [];
    }
  }

  // ----- the evidence fields are out of reach -----

  function KeyPath(keys: seq<string>): (loc: Location)
    ensures |loc| == |keys| && forall i | 0 <= i < |keys| :: loc[i] == Key(keys[i])
  {
    seq(|keys|, i requires 0 <= i < |keys| => Key(keys[i]))
  }

  lemma {:induction false} LocatedKeysAreTokens(j: Json, tokens: seq<string>)
    requires LocateIn(j, tokens).Some?
    ensures var loc := LocateIn(j, tokens).value;
            forall i | 0 <= i < |loc| && loc[i].Key? :: loc[i].k == tokens[i]
    decreases |tokens|
  {
    if |tokens| > 1 {
      LocatedKeysAreTokens(ChildForSet(j, StepOf(j, tokens[0]).value), tokens[1..]);
      var loc := LocateIn(j, tokens).value;
      forall i | 0 <= i < |loc| && loc[i].Key?
        ensures loc[i].k == tokens[i]
      {
        if i > 0 {
          assert tokens[i] == tokens[1..][i - 1];
        }
      }
    }
  }

  lemma LocatedPrefixes(j: Json, tokens: seq<string>, keys: seq<string>)
    requires LocateIn(j, tokens).Some?
    ensures LocateIn(j, tokens).value <= KeyPath(keys) ==> tokens <= keys
    ensures KeyPath(keys) <= LocateIn(j, tokens).value ==> keys <= tokens
  {
    var p := LocateIn(j, tokens).value;
    var q := KeyPath(keys);
    LocatedKeysAreTokens(j, tokens);
    assert forall i | 0 <= i < |p| && i < |q| && p[i] == q[i] :: tokens[i] == keys[i];
  }

  lemma ProtectionSpreads(keys: seq<string>, tokens: seq<string>)
    ensures keys <= tokens && ProtectedTokens(keys) ==> ProtectedTokens(tokens)
  {
    if keys <= tokens && ProtectedTokens(keys) {
      var i :| 0 <= i < |keys| && ProtectedToken(keys[i], i);
      assert ProtectedToken(tokens[i], i);
    }
  }

  /** An accepted write and a protected key path are unrelated locations, unless the
      write is at a proper ancestor. */
  lemma AcceptedWriteIsElsewhere(j: Json, tokens: seq<string>, keys: seq<string>)
    requires LocateIn(j, tokens).Some?
    requires ProtectedTokens(keys) && !ProtectedTokens(tokens)
    requires !(tokens < keys)
    ensures !(LocateIn(j, tokens).value <= KeyPath(keys))
    ensures !(KeyPath(keys) <= LocateIn(j, tokens).value)
  {
    LocatedPrefixes(j, tokens, keys);
    ProtectionSpreads(keys, tokens);
  }

  lemma {:induction false} OriginOfKeyPath(p: Location, keys: seq<string>)
    requires p != [] && !(p <= KeyPath(keys))
    ensures Origin(p, KeyPath(keys)) == KeyPath(keys)
  {
    var q := KeyPath(keys);
    if q != [] && |p| > 1 && p[0] == q[0] {
      assert q[1..] == KeyPath(keys[1..]);
      assert p == [p[0]] + p[1..];
      PrefixBelow(p[0], p[1..], q);
      OriginOfKeyPath(p[1..], keys[1..]);
    }
  }

  /** A copy onto itself. */
  predicate Idle(op: Operation) {
    op.op == "copy" && Tokens(op.from) == Tokens(op.path)
  }

  lemma SetSame(j: Json, tokens: seq<string>)
    requires Get(j, tokens).Some?
    ensures Set(j, tokens, Get(j, tokens).value) == Some(j)
  {
    if tokens != [] {
      SetInSame(j, tokens);
    }
  }

  lemma {:induction false} SetInSame(j: Json, tokens: seq<string>)
    requires tokens != [] && Get(j, tokens).Some?
    ensures RootForSet(j) == j && SetIn(j, tokens, Get(j, tokens).value) == Some(j)
    decreases |tokens|
  {
    var step := StepOf(j, tokens[0]).value;
    var child := Child(j, step).value;
    if |tokens| > 1 {
      SetInSame(child, tokens[1..]);
    }
    assert Put(j, step, child) == j;
  }

  lemma AcceptedOperationKeepsEvidence(doc: Json, op: Operation, keys: seq<string>)
    requires ApplyOp(doc, op).Ok?
    requires ProtectedTokens(keys) && (Tokens(op.path) < keys ==> Idle(op))
    ensures ReadAt(ApplyOp(doc, op).value, KeyPath(keys)) == ReadAt(doc, KeyPath(keys))
  {
    var tokens := Tokens(op.path);
    var q := KeyPath(keys);
    if Idle(op) {
      SetSame(doc, tokens);
    } else if op.op == "drop" {
      DropLaw(doc, tokens, q);
      var p := Locate(doc, tokens).value;
      AcceptedWriteIsElsewhere(RootForSet(doc), tokens, keys);
      OriginOfKeyPath(p, keys);
    } else {
      var v := if op.op == "set" then op.value.json
               else if op.op == "copy" then Get(doc, Tokens(op.from)).value else REDACTED;
      SetLaw(doc, tokens, v, q);
      AcceptedWriteIsElsewhere(RootForSet(doc), tokens, keys);
    }
  }

  /** Evidence survives every accepted operation list: a member reached through object
      keys, one of which is protected, has the same value or is absent exactly as before,
      provided no operation writes a proper ancestor of it, except by copying it onto itself. */
  lemma {:induction false} EvidenceSurvives(doc: Json, ops: seq<Operation>, keys: seq<string>)
    requires Apply(doc, ops).Ok?
    requires ProtectedTokens(keys)
    requires forall op | op in ops && Tokens(op.path) < keys :: Idle(op)
    ensures ReadAt(Apply(doc, ops).value, KeyPath(keys)) == ReadAt(doc, KeyPath(keys))
    decreases |ops|
  {
    if ops != [] {
      AcceptedOperationKeepsEvidence(doc, ops[0], keys);
      EvidenceSurvives(ApplyOp(doc, ops[0]).value, ops[1..], keys);
    }
  }

  /** For top-level members only the root is an ancestor. */
  lemma TopLevelEvidenceSurvives(doc: Json, ops: seq<Operation>, name: string)
    requires Apply(doc, ops).Ok?
    requires ProtectedToken(name, 0)
    requires forall op | op in ops && Tokens(op.path) == [] :: Idle(op)
    ensures Child(Apply(doc, ops).value, Key(name)) == Child(doc, Key(name))
  {
    assert ProtectedToken([name][0], 0);
    forall op | op in ops && Tokens(op.path) < [name]
      ensures Idle(op)
    {
      assert Tokens(op.path) == [];
    }
    EvidenceSurvives(doc, ops, [name]);
    assert KeyPath([name]) == [Key(name)];
    assert KeyPath([name])[1..] == [];
  }

  /** The names of evidence: these members at the top of a document, and every member whose name
      ends as a hash's does, survive every accepted list that leaves the root alone. */
  lemma NamedEvidenceSurvives(doc: Json, ops: seq<Operation>, name: string)
    requires Apply(doc, ops).Ok? && forall op | op in ops :: Tokens(op.path) != []
    requires name in {
               "id", "tenant_id", "source_id", "provider", "provider_event_id",
               "raw_payload_id", "raw_payload_hash", "signature_verified", "verification", "verification_reason",
               "deduplication_key", "dedupe_status", "adapter_version_id", "normalized_envelope_id",
               "normalized_payload_hash", "envelope_hash", "data_hash", "metadata_hash", "audit"}
             || HasSuffix(name, "_hash") || HasSuffix(name, "_sha256")
    ensures Child(Apply(doc, ops).value, Key(name)) == Child(doc, Key(name))
  {
    TopLevelEvidenceSurvives(doc, ops, name);
  }

  /** A document that holds one value at the end of a chain of members. */
  function Nested(keys: seq<string>, v: Json): Json {
    if keys == [] then v else Obj(map[keys[0] := Nested(keys[1..], v)])
  }

  lemma {:induction false} NestedReads(keys: seq<string>, prefix: seq<string>, v: Json)
    requires prefix <= keys
    ensures ReadAt(Nested(keys, v), KeyPath(keys)) == Some(v)
    ensures LocateIn(Nested(keys, v), prefix) == Some(KeyPath(prefix))
    ensures prefix != [] ==> Drop(Nested(keys, v), prefix).Some?
  {
    if keys != [] {
      assert KeyPath(keys)[1..] == KeyPath(keys[1..]);
      if prefix == [] {
        NestedReads(keys[1..], [], v);
      } else {
        assert KeyPath(prefix)[1..] == KeyPath(prefix[1..]);
        NestedReads(keys[1..], prefix[1..], v);
        assert KeyPath(prefix) == [Key(prefix[0])] + KeyPath(prefix[1..]);
        assert ChildForSet(Nested(keys, v), Key(keys[0])) == Nested(keys[1..], v);
      }
    }
  }

  lemma {:induction false} NestedGets(keys: seq<string>, prefix: seq<string>, v: Json)
    requires prefix <= keys
    ensures Get(Nested(keys, v), prefix) == Some(Nested(keys[|prefix|..], v))
  {
    if prefix != [] {
      NestedGets(keys[1..], prefix[1..], v);
      assert keys[1..][|prefix[1..]|..] == keys[|prefix|..];
    }
  }

  const ZERO := Leaf(Num(0.0))

  lemma {:induction false} NestedElsewhere(keys: seq<string>, others: seq<string>)
    requires |keys| != |others|
    ensures ReadAt(Nested(keys, ZERO), KeyPath(others)) != Some(ZERO)
  {
    if keys != [] && others != [] {
      assert KeyPath(others)[1..] == KeyPath(others[1..]);
      NestedElsewhere(keys[1..], others[1..]);
    }
  }

  /** A document with a leaf at the end of two chains of members. */
  function Fork(keys: seq<string>, others: seq<string>): Json
    requires !(others <= keys)
  {
    if keys == [] then Nested(others, ZERO)
    else if keys[0] == others[0] then Obj(map[keys[0] := Fork(keys[1..], others[1..])])
    else Obj(map[keys[0] := Nested(keys[1..], ZERO), others[0] := Nested(others[1..], ZERO)])
  }

  lemma {:induction false} ForkReads(keys: seq<string>, others: seq<string>, prefix: seq<string>)
    requires !(others <= keys) && prefix <= keys
    ensures ReadAt(Fork(keys, others), KeyPath(keys)).Some?
    ensures Get(Fork(keys, others), others) == Some(ZERO)
    ensures LocateIn(Fork(keys, others), prefix) == Some(KeyPath(prefix))
    decreases |keys|
  {
    if keys == [] {
      NestedGets(others, others, ZERO);
    } else {
      assert KeyPath(keys)[1..] == KeyPath(keys[1..]);
      var rest := if prefix == [] then [] else prefix[1..];
      if keys[0] == others[0] {
        assert !(others[1..] <= keys[1..]);
        ForkReads(keys[1..], others[1..], rest);
        assert ChildForSet(Fork(keys, others), Key(keys[0])) == Fork(keys[1..], others[1..]);
      } else {
        NestedReads(keys[1..], rest, ZERO);
        NestedGets(others[1..], others[1..], ZERO);
        assert ChildForSet(Fork(keys, others), Key(keys[0])) == Nested(keys[1..], ZERO);
      }
      if prefix != [] {
        assert KeyPath(prefix) == [Key(prefix[0])] + KeyPath(prefix[1..]);
      }
    }
  }

  lemma CopyReachesEvidence(op: Operation, keys: seq<string>) returns (doc: Json)
    requires Validate(op).None? && op.op == "copy" && Tokens(op.path) < keys && !Idle(op)
    ensures ApplyOp(doc, op).Ok? && ReadAt(ApplyOp(doc, op).value, KeyPath(keys)) != ReadAt(doc, KeyPath(keys))
  {
    var tokens, source := Tokens(op.path), Tokens(op.from);
    var q := KeyPath(keys);
    assert KeyPath(tokens) <= q && q[|tokens|..] == KeyPath(keys[|tokens|..]);
    if source <= keys {
      doc := Nested(keys, ZERO);
      NestedReads(keys, tokens, ZERO);
      NestedGets(keys, source, ZERO);
      NestedElsewhere(keys[|source|..], keys[|tokens|..]);
    } else {
      doc := Fork(keys, source);
      ForkReads(keys, source, tokens);
    }
    assert RootForSet(doc) == doc;
    SetLaw(doc, tokens, Get(doc, source).value, q);
  }

  lemma OtherWriteReachesEvidence(op: Operation, keys: seq<string>) returns (doc: Json)
    requires Validate(op).None? && op.op != "copy" && !Ineffective(op) && Tokens(op.path) < keys
    ensures ApplyOp(doc, op).Ok? && ReadAt(ApplyOp(doc, op).value, KeyPath(keys)) != ReadAt(doc, KeyPath(keys))
  {
    var tokens := Tokens(op.path);
    var q := KeyPath(keys);
    var v := if op.op == "set" then op.value.json else REDACTED;
    var one := Leaf(Num(1.0));
    var written := ReadAt(v, q[|tokens|..]);
    doc := Nested(keys, if written == Some(ZERO) then one else ZERO);
    NestedReads(keys, tokens, if written == Some(ZERO) then one else ZERO);
    assert RootForSet(doc) == doc;
    assert KeyPath(tokens) <= q;
    if op.op == "drop" {
      DropLaw(doc, tokens, q);
    } else {
      SetLaw(doc, tokens, v, q);
    }
  }

  /** An accepted operation that changes no document: a copy onto itself, a set without a
      value, a drop of the root. */
  predicate Ineffective(op: Operation) {
    Idle(op) || (op.op == "set" && !op.value.Decoded?) || (op.op == "drop" && Tokens(op.path) == [])
  }

  /** The ancestor condition is exact, for all four operations: an accepted operation at a
      proper ancestor of a member changes that member in some document if and only if it
      changes any document at all. */
  lemma AncestorWriteReachesEvidence(op: Operation, keys: seq<string>)
    requires Validate(op).None? && Tokens(op.path) < keys
    ensures !Ineffective(op) <==>
            exists doc :: ApplyOp(doc, op).Ok? && ReadAt(ApplyOp(doc, op).value, KeyPath(keys)) != ReadAt(doc, KeyPath(keys))
  {
    if Ineffective(op) {
      forall doc | ApplyOp(doc, op).Ok?
        ensures ApplyOp(doc, op).value == doc
      {
        SetSame(doc, Tokens(op.path));
      }
    } else if op.op == "copy" {
      var doc := CopyReachesEvidence(op, keys);
    } else {
      var doc := OtherWriteReachesEvidence(op, keys);
    }
  }
}
