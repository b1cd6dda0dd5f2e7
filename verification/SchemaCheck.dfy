/** Payload validation against event schemas, and the compatibility check between two
    versions of a schema. The check is compared with what it is for: that every payload
    valid under the current schema is valid under the new one. */
module SchemaCheck {
  import opened Text
  import opened Json

  datatype TypeItem = TypeName(name: string) | NotAName

  /** The `type` member: a text, a list, or absent (or anything else, which counts as absent). */
  datatype TypeSpec = OneType(name: string) | TypeList(items: seq<TypeItem>) | NoType

  /** A decoded schema. A node that does not decode is `Malformed`; JSON null decodes to a node
      without members. */
  datatype Schema =
    | Malformed
    | Node(typeSpec: TypeSpec, required: seq<string>, properties: map<string, Schema>, items: Option<Schema>)

  function FirstName(items: seq<TypeItem>): string {
    if items == [] then ""
    else if items[0].TypeName? && items[0].name != "null" then TrimSpace(items[0].name)
    else FirstName(items[1..])
  }

  /** `firstSchemaType`: empty when the node has no type. */
  function TypeOf(spec: TypeSpec): string {
    match spec
    case OneType(name) => TrimSpace(name)
    case TypeList(items) => FirstName(items)
    case NoType => ""
  }

  /** The item at k is the first that names a type other than "null". */
  ghost predicate FirstNamed(items: seq<TypeItem>, k: nat) {
    && k < |items| && items[k].TypeName? && items[k].name != "null"
    && forall j | 0 <= j < k :: items[j] == NotAName || items[j] == TypeName("null")
  }

  /** What a `type` member means: a name trimmed, of a list the first name other than "null". */
  lemma {:induction false} TypeListMeans(items: seq<TypeItem>)
    ensures forall k: nat | FirstNamed(items, k) :: TypeOf(TypeList(items)) == TrimSpace(items[k].name)
    ensures (forall k | 0 <= k < |items| :: items[k] == NotAName || items[k] == TypeName("null")) ==> TypeOf(TypeList(items)) == ""
    decreases |items|
  {
    if items != [] {
      var rest := items[1..];
      TypeListMeans(rest);
      assert forall j | 0 <= j < |rest| :: rest[j] == items[j + 1];
      forall k: nat | FirstNamed(items, k)
        ensures TypeOf(TypeList(items)) == TrimSpace(items[k].name)
      {
        if k > 0 {
          assert FirstNamed(rest, k - 1);
        }
      }
    }
  }

  const KNOWN := {"object", "array", "string", "number", "integer", "boolean", "null"}

  /** `jsonValueMatchesType`: an unknown type matches everything. */
  predicate Matches(v: Json, name: string) {
    if name == "object" then v.Obj?
    else if name == "array" then v.Arr?
    else if name == "string" then v.Leaf? && v.p.Str?
    else if name == "number" then v.Leaf? && v.p.Num?
    else if name == "integer" then v.Leaf? && v.p.Num? && v.p.n.Floor as real == v.p.n
    else if name == "boolean" then v.Leaf? && v.p.Bool?
    else if name == "null" then v == NULL
    else true
  }

  // ----- validation -----

  predicate Valid(s: Schema, v: Json)
    decreases s
  {
    match s
    case Malformed => false
    case Node(spec, required, properties, items) =>
      var name := TypeOf(spec);
      && (name != "" ==> Matches(v, name))
      && (name == "object" || properties != map[] ==>
            && v.Obj?
            && (forall k | 0 <= k < |required| :: required[k] in v.m)
            && (forall p | p in properties && p in v.m :: Valid(properties[p], v.m[p])))
      && (name == "array" && items.Some? ==> v.Arr? && forall i | 0 <= i < |v.a| :: Valid(items.value, v.a[i]))
  }

  ghost predicate Under(path: string, errors: seq<string>) {
    forall k | 0 <= k < |errors| :: path <= errors[k]
  }

  method MissingErrors(required: seq<string>, m: map<string, Json>, path: string) returns (errors: seq<string>)
    ensures errors == [] <==> forall k | 0 <= k < |required| :: required[k] in m
    ensures Under(path, errors)
  {
    errors := [];
    for k := 0 to |required|
      invariant errors == [] <==> forall j | 0 <= j < k :: required[j] in m
      invariant Under(path, errors)
    {
      if required[k] !in m {
        errors := errors + [path + "." + required[k] + ": required property is missing"];
      }
    }
  }

  /** `validateAgainstSchema`: no errors exactly for valid values; every error names a path under
      the one given. Members come in any order. */
  method Validate(v: Json, s: Schema, path: string) returns (errors: seq<string>)
    ensures errors == [] <==> Valid(s, v)
    ensures Under(path, errors)
    decreases s, 1
  {
    if s.Malformed? {
      return [path + ": schema node is not an object"];
    }
    var name := TypeOf(s.typeSpec);
    if name != "" && !Matches(v, name) {
      return [path + ": expected " + name];
    }
    errors := [];
    if name == "object" || s.properties != map[] {
      if !v.Obj? {
        return [path + ": expected object"];
      }
      errors := MissingErrors(s.required, v.m, path);
      var more := ValidateMembers(v.m, s, path);
      errors := errors + more;
    }
    if name == "array" && s.items.Some? {
      if !v.Arr? {
        return [path + ": expected array"];
      }
      var more := ValidateItems(v.a, s.items.value, path);
      errors := errors + more;
    }
  }

  /** The members p of the schema, other than those in `rest`, are valid. */
  ghost predicate MembersValid(m: map<string, Json>, s: Schema, rest: set<string>)
    requires s.Node?
  {
    forall p | p in s.properties && p in m && p !in rest :: Valid(s.properties[p], m[p])
  }

  lemma OneMemberMore(m: map<string, Json>, s: Schema, rest: set<string>, p: string)
    requires s.Node? && p in rest && p in s.properties
    ensures MembersValid(m, s, rest - {p}) <==> MembersValid(m, s, rest) && (p in m ==> Valid(s.properties[p], m[p]))
  {
    hide Valid;
    assert p !in rest - {p};
  }

  method ValidateMembers(m: map<string, Json>, s: Schema, path: string) returns (errors: seq<string>)
    requires s.Node?
    ensures errors == [] <==> forall p | p in s.properties && p in m :: Valid(s.properties[p], m[p])
    ensures Under(path, errors)
    decreases s, 0
  {
    errors := [];
    var rest := s.properties.Keys;
    assert MembersValid(m, s, rest);
    while rest != {}
      invariant rest <= s.properties.Keys
      invariant errors == [] <==> MembersValid(m, s, rest)
      invariant Under(path, errors)
      decreases |rest|
    {
      hide Valid, MembersValid;
      var p :| p in rest;
      OneMemberMore(m, s, rest, p);
      rest := rest - {p};
      if p in m {
        var more := Validate(m[p], s.properties[p], path + "." + p);
        UnderMore(path, "." + p, errors, more);
        errors := errors + more;
      }
    }
    hide Valid;
  }

  lemma UnderMore(path: string, below: string, errors: seq<string>, more: seq<string>)
    requires Under(path, errors) && Under(path + below, more)
    ensures Under(path, errors + more)
  {
    forall k | 0 <= k < |more|
      ensures path <= more[k]
    {
      assert path + below <= more[k];
      assert more[k][..|path|] == (path + below)[..|path|] == path;
    }
  }

  method ValidateItems(a: seq<Json>, s: Schema, path: string) returns (errors: seq<string>)
    ensures errors == [] <==> forall i | 0 <= i < |a| :: Valid(s, a[i])
    ensures Under(path, errors)
    decreases s, 2
  {
    errors := [];
    for i := 0 to |a|
      invariant errors == [] <==> forall k | 0 <= k < i :: Valid(s, a[k])
      invariant Under(path, errors)
    {
      var more := Validate(a[i], s, path + "[" + Itoa(i) + "]");
      errors := errors + more;
    }
  }

  // ----- where a payload fits -----

  /** A step into a payload: a member of an object, or an element of an array. */
  datatype Place = Member(name: string) | Slot(index: nat)

  /** The part of a payload at a place, with the part of the schema that is about it. */
  function Held(s: Schema, v: Json, at: seq<Place>): Option<(Schema, Json)>
    decreases |at|
  {
    if at == [] then Some((s, v))
    else
      match at[0]
      case Member(p) => if s.Node? && p in s.properties && v.Obj? && p in v.m then Held(s.properties[p], v.m[p], at[1..]) else None
      case Slot(i) =>
        if s.Node? && TypeOf(s.typeSpec) == "array" && s.items.Some? && v.Arr? && i < |v.a| then Held(s.items.value, v.a[i], at[1..])
        else None
  }

  /** The names of types a value goes by; a name that is none of the seven is no restriction. */
  ghost predicate GoesBy(v: Json, name: string) {
    name in {"object", "array", "string", "number", "integer", "boolean", "null"} ==>
      match v
      case Obj(_) => name == "object"
      case Arr(_) => name == "array"
      case Leaf(Str(_)) => name == "string"
      case Leaf(Bool(_)) => name == "boolean"
      case Leaf(Null) => name == "null"
      case Leaf(Num(n)) => name == "number" || (name == "integer" && exists i :: Equals(i, n))
  }

  predicate Equals(i: int, n: real) {
    i as real == n
  }

  /** What a schema node asks of a value, its parts apart: the type, and of an object the
      required members. */
  ghost predicate Fits(s: Schema, v: Json) {
    && s.Node? && GoesBy(v, TypeOf(s.typeSpec))
    && (TypeOf(s.typeSpec) == "object" || s.properties != map[] ==> v.Obj? && forall k | 0 <= k < |s.required| :: s.required[k] in v.m)
  }

  lemma MatchesGoesBy(v: Json, name: string)
    ensures Matches(v, name) <==> GoesBy(v, name)
  {
    if v.Leaf? && v.p.Num? {
      var n := v.p.n;
      if i :| Equals(i, n) {
        assert n.Floor == i;
      }
      assert n.Floor as real == n ==> Equals(n.Floor, n);
    }
  }

  lemma ValidFits(s: Schema, v: Json)
    requires Valid(s, v)
    ensures Fits(s, v)
  {
    MatchesGoesBy(v, TypeOf(s.typeSpec));
  }

  lemma {:induction false} ValidEverywhere(s: Schema, v: Json, at: seq<Place>)
    requires Valid(s, v) && Held(s, v, at).Some?
    ensures Fits(Held(s, v, at).value.0, Held(s, v, at).value.1)
    decreases |at|
  {
    if at == [] {
      ValidFits(s, v);
    } else {
      match at[0]
      case Member(p) => ValidEverywhere(s.properties[p], v.m[p], at[1..]);
      case Slot(i) => ValidEverywhere(s.items.value, v.a[i], at[1..]);
    }
  }

  lemma {:induction false} Misfit(s: Schema, v: Json) returns (at: seq<Place>)
    requires !Valid(s, v)
    ensures Held(s, v, at).Some? && !Fits(Held(s, v, at).value.0, Held(s, v, at).value.1)
    decreases s
  {
    at := [];
    if Fits(s, v) {
      MatchesGoesBy(v, TypeOf(s.typeSpec));
      if p :| p in s.properties && v.Obj? && p in v.m && !Valid(s.properties[p], v.m[p]) {
        var below := Misfit(s.properties[p], v.m[p]);
        at := [Member(p)] + below;
        assert at[1..] == below;
      } else {
        var i :| 0 <= i < |v.a| && !Valid(s.items.value, v.a[i]);
        var below := Misfit(s.items.value, v.a[i]);
        at := [Slot(i)] + below;
        assert at[1..] == below;
      }
    }
  }

  /** A payload is valid if and only if it fits at every place the schema reaches. */
  lemma ValidExactly(s: Schema, v: Json)
    ensures Valid(s, v) <==> forall at | Held(s, v, at).Some? :: Fits(Held(s, v, at).value.0, Held(s, v, at).value.1)
  {
    if Valid(s, v) {
      forall at | Held(s, v, at).Some?
        ensures Fits(Held(s, v, at).value.0, Held(s, v, at).value.1)
      {
        ValidEverywhere(s, v, at);
      }
    } else {
      var at := Misfit(s, v);
    }
  }

  // ----- compatibility -----

  predicate Compatible(was: Schema, now: Schema)
    decreases was
  {
    && was.Node? && now.Node?
    && (TypeOf(was.typeSpec) == "" || TypeOf(now.typeSpec) == "" || TypeOf(was.typeSpec) == TypeOf(now.typeSpec))
    && (forall k | 0 <= k < |now.required| :: now.required[k] in was.required)
    && (forall p | p in was.properties :: p in now.properties && Compatible(was.properties[p], now.properties[p]))
  }

  method RequiredErrors(was: seq<string>, now: seq<string>, path: string) returns (errors: seq<string>)
    ensures errors == [] <==> forall k | 0 <= k < |now| :: now[k] in was
  {
    errors := [];
    for k := 0 to |now|
      invariant errors == [] <==> forall j | 0 <= j < k :: now[j] in was
    {
      if now[k] !in was {
        errors := errors + [path + "." + now[k] + ": new required property is not backward compatible"];
      }
    }
  }

  /** `compareSchemaCompatibility`. */
  method Compare(was: Schema, now: Schema, path: string) returns (errors: seq<string>)
    ensures errors == [] <==> Compatible(was, now)
    decreases was
  {
    if was.Malformed? {
      return [path + ": current schema node is not an object"];
    }
    if now.Malformed? {
      return [path + ": new schema node is not an object"];
    }
    errors := [];
    var wasType, nowType := TypeOf(was.typeSpec), TypeOf(now.typeSpec);
    if wasType != "" && nowType != "" && wasType != nowType {
      errors := errors + [path + ": type changed from " + wasType + " to " + nowType];
    }
    var more := RequiredErrors(was.required, now.required, path);
    errors := errors + more;
    ghost var before := errors;
    var rest := was.properties.Keys;
    while rest != {}
      invariant rest <= was.properties.Keys
      invariant errors == [] <==>
                before == [] && forall p | p in was.properties && p !in rest :: p in now.properties && Compatible(was.properties[p], now.properties[p])
      decreases |rest|
    {
      var p :| p in rest;
      rest := rest - {p};
      if p !in now.properties {
        errors := errors + [path + "." + p + ": existing property was removed"];
      } else {
        more := Compare(was.properties[p], now.properties[p], path + "." + p);
        errors := errors + more;
      }
    }
  }

  /** The schema node under a path of property names. */
  function NodeAt(s: Schema, path: seq<string>): Option<Schema>
    decreases |path|
  {
    if path == [] then Some(s)
    else if s.Node? && path[0] in s.properties then NodeAt(s.properties[path[0]], path[1..])
    else None
  }

  /** A node that may replace another: not of another type, and with no required member more. */
  ghost predicate MayReplace(was: Schema, now: Option<Schema>) {
    && was.Node? && now.Some? && now.value.Node?
    && !(TypeOf(was.typeSpec) != "" && TypeOf(now.value.typeSpec) != "" && TypeOf(was.typeSpec) != TypeOf(now.value.typeSpec))
    && forall name | name in now.value.required :: name in was.required
  }

  lemma {:induction false} CompatibleEverywhere(was: Schema, now: Schema, path: seq<string>)
    requires Compatible(was, now) && NodeAt(was, path).Some?
    ensures MayReplace(NodeAt(was, path).value, NodeAt(now, path))
    decreases |path|
  {
    if path != [] {
      CompatibleEverywhere(was.properties[path[0]], now.properties[path[0]], path[1..]);
    }
  }

  lemma {:induction false} Clash(was: Schema, now: Schema) returns (path: seq<string>)
    requires !Compatible(was, now)
    ensures NodeAt(was, path).Some? && !MayReplace(NodeAt(was, path).value, NodeAt(now, path))
    decreases was
  {
    path := [];
    if MayReplace(was, Some(now)) {
      assert forall k | 0 <= k < |now.required| :: now.required[k] in now.required;
      var p :| p in was.properties && (p !in now.properties || !Compatible(was.properties[p], now.properties[p]));
      if p in now.properties {
        var below := Clash(was.properties[p], now.properties[p]);
        path := [p] + below;
        assert path[1..] == below;
      } else {
        path := [p];
        assert path[1..] == [];
      }
    }
  }

  /** Two versions are compatible if and only if at every path of the current one the new one
      has a node that may replace what is there. */
  lemma CompatibleExactly(was: Schema, now: Schema)
    ensures Compatible(was, now) <==> forall path | NodeAt(was, path).Some? :: MayReplace(NodeAt(was, path).value, NodeAt(now, path))
  {
    if Compatible(was, now) {
      forall path | NodeAt(was, path).Some?
        ensures MayReplace(NodeAt(was, path).value, NodeAt(now, path))
      {
        CompatibleEverywhere(was, now, path);
      }
    } else {
      var path := Clash(was, now);
    }
  }

  // ----- what compatibility is for -----

  /** Every payload valid under the current schema is valid under the new one. */
  ghost predicate KeepsPayloads(was: Schema, now: Schema) {
    forall v | Valid(was, v) :: Valid(now, v)
  }

  /** Which values a node is about, read off its members. */
  datatype Form = Never | Anything | Objects | Arrays | Scalars(name: string)

  function FormOf(s: Schema): Form {
    if s.Malformed? then Never
    else
      var name := TypeOf(s.typeSpec);
      if name == "object" then Objects
      else if name !in KNOWN then if s.properties == map[] then Anything else Objects
      else if s.properties != map[] then Never
      else if name == "array" then Arrays
      else Scalars(name)
  }

  /** Some payload is valid: no required property has a schema without valid values. */
  predicate Satisfiable(s: Schema)
    decreases s
  {
    match FormOf(s)
    case Never => false
    case Objects => forall p | p in s.properties && p in s.required :: Satisfiable(s.properties[p])
    case _ => true
  }

  predicate NarrowerScalar(was: string, now: string) {
    was == now || (was == "integer" && now == "number")
  }

  /** Decides `KeepsPayloads` by walking the two schemas. */
  predicate Subsumes(was: Schema, now: Schema)
    decreases now
  {
    if !Satisfiable(was) then true
    else
      match FormOf(now)
      case Never => false
      case Anything => true
      case Scalars(name) => FormOf(was).Scalars? && NarrowerScalar(FormOf(was).name, name)
      case Arrays =>
        && FormOf(was).Arrays?
        && (now.items.Some? ==>
              if was.items.Some? then Subsumes(was.items.value, now.items.value) else FormOf(now.items.value).Anything?)
      case Objects =>
        && FormOf(was).Objects?
        && (forall k | 0 <= k < |now.required| :: now.required[k] in was.required)
        && (forall p | p in now.properties ::
              if p in was.properties then Subsumes(was.properties[p], now.properties[p]) else FormOf(now.properties[p]).Anything?)
  }

  lemma AnythingIsValid(s: Schema, v: Json)
    requires FormOf(s).Anything?
    ensures Valid(s, v)
  {
  }

  /** A value a schema rejects, unless it accepts anything. */
  function Rejected(s: Schema): Json {
    if FormOf(s) == Scalars("null") then Leaf(Bool(true)) else NULL
  }

  lemma RejectedIsInvalid(s: Schema)
    requires !FormOf(s).Anything?
    ensures !Valid(s, Rejected(s))
  {
  }

  function Sample(name: string): Json {
    if name == "string" then Leaf(Str(""))
    else if name == "number" || name == "integer" then Leaf(Num(0.0))
    else if name == "boolean" then Leaf(Bool(true))
    else NULL
  }

  /** A value that is valid if any is: just the required members. */
  function Example(s: Schema): Json
    decreases s
  {
    match FormOf(s)
    case Never => NULL
    case Anything => NULL
    case Arrays => Arr([])
    case Scalars(name) => Sample(name)
    case Objects => Obj(map p | p in s.required :: if p in s.properties then Example(s.properties[p]) else NULL)
  }

  lemma ObjectsValid(s: Schema, v: Json)
    requires FormOf(s).Objects?
    ensures Valid(s, v) <==>
            && v.Obj? && (forall k | 0 <= k < |s.required| :: s.required[k] in v.m)
            && (forall p | p in s.properties && p in v.m :: Valid(s.properties[p], v.m[p]))
  {
  }

  lemma ArraysValid(s: Schema, v: Json)
    requires FormOf(s).Arrays?
    ensures Valid(s, v) <==> v.Arr? && (s.items.Some? ==> forall i | 0 <= i < |v.a| :: Valid(s.items.value, v.a[i]))
  {
  }

  lemma ScalarsValid(s: Schema, v: Json)
    requires FormOf(s).Scalars?
    ensures Valid(s, v) <==> Matches(v, FormOf(s).name)
    ensures FormOf(s).name in KNOWN - {"object", "array"}
  {
  }

  lemma NeverValid(s: Schema, v: Json)
    requires FormOf(s).Never?
    ensures !Valid(s, v)
  {
  }

  lemma {:induction false} ExampleIsValid(s: Schema)
    requires Satisfiable(s)
    ensures Valid(s, Example(s))
    decreases s
  {
    hide Valid;
    match FormOf(s)
    case Anything => AnythingIsValid(s, NULL);
    case Arrays => ArraysValid(s, Arr([]));
    case Scalars(name) => ScalarsValid(s, Sample(name));
    case Objects =>
      forall p | p in s.properties && p in s.required
        ensures Valid(s.properties[p], Example(s.properties[p]))
      {
        ExampleIsValid(s.properties[p]);
      }
      ObjectsValid(s, Example(s));
  }

  lemma {:induction false} ValidMeansSatisfiable(s: Schema, v: Json)
    requires Valid(s, v)
    ensures Satisfiable(s)
    decreases s
  {
    if FormOf(s).Objects? {
      forall p | p in s.properties && p in s.required
        ensures Satisfiable(s.properties[p])
      {
        ValidMeansSatisfiable(s.properties[p], v.m[p]);
      }
    }
  }

  lemma {:induction false} SubsumesIsEnough(was: Schema, now: Schema, v: Json)
    requires Subsumes(was, now) && Valid(was, v)
    ensures Valid(now, v)
    decreases now
  {
    ValidMeansSatisfiable(was, v);
    hide Valid, Satisfiable;
    match FormOf(now)
    case Anything => AnythingIsValid(now, v);
    case Scalars(name) =>
      ScalarsValid(was, v);
      ScalarsValid(now, v);
    case Arrays =>
      ArraysValid(was, v);
      if now.items.Some? {
        forall i | 0 <= i < |v.a|
          ensures Valid(now.items.value, v.a[i])
        {
          if was.items.Some? {
            SubsumesIsEnough(was.items.value, now.items.value, v.a[i]);
          } else {
            AnythingIsValid(now.items.value, v.a[i]);
          }
        }
      }
      ArraysValid(now, v);
    case Objects =>
      ObjectsValid(was, v);
      forall p | p in now.properties && p in v.m
        ensures Valid(now.properties[p], v.m[p])
      {
        if p in was.properties {
          SubsumesIsEnough(was.properties[p], now.properties[p], v.m[p]);
        } else {
          AnythingIsValid(now.properties[p], v.m[p]);
        }
      }
      ObjectsValid(now, v);
  }

  /** A payload valid under the current object schema stays so with a member set to a value its
      property allows. */
  lemma ExampleWith(s: Schema, p: string, v: Json)
    requires Satisfiable(s) && FormOf(s).Objects?
    requires p in s.properties ==> Valid(s.properties[p], v)
    ensures Example(s).Obj? && Valid(s, Obj(Example(s).m[p := v]))
  {
    ExampleIsValid(s);
    ObjectsValid(s, Example(s));
    ObjectsValid(s, Obj(Example(s).m[p := v]));
    hide Valid;
  }

  lemma ScalarsDiffer(was: Schema, now: Schema) returns (v: Json)
    requires Satisfiable(was) && FormOf(now).Scalars?
    requires !(FormOf(was).Scalars? && NarrowerScalar(FormOf(was).name, FormOf(now).name))
    ensures Valid(was, v) && !Valid(now, v)
  {
    ExampleIsValid(was);
    v := Example(was);
    match FormOf(was)
    case Anything =>
      v := Rejected(now);
      RejectedIsInvalid(now);
      AnythingIsValid(was, v);
    case Scalars(name) =>
      if name == "number" {
        v := Leaf(Num(0.5));
        assert 0.5.Floor == 0;
      }
      ScalarsValid(was, v);
      ScalarsValid(now, v);
    case _ =>
      ScalarsValid(now, v);
  }

  lemma {:induction false} ArraysDiffer(was: Schema, now: Schema) returns (v: Json)
    requires Satisfiable(was) && FormOf(now).Arrays? && !Subsumes(was, now)
    ensures Valid(was, v) && !Valid(now, v)
    decreases now, 0
  {
    v := Example(was);
    ExampleIsValid(was);
    match FormOf(was)
    case Arrays =>
      var inner := Rejected(now.items.value);
      if was.items.Some? {
        inner := Differ(was.items.value, now.items.value);
      } else {
        RejectedIsInvalid(now.items.value);
      }
      hide Valid;
      v := Arr([inner]);
      assert v.a[0] == inner;
      ArraysValid(was, v);
      ArraysValid(now, v);
    case Anything =>
      v := NULL;
      AnythingIsValid(was, v);
      ArraysValid(now, v);
    case _ =>
      ArraysValid(now, v);
  }

  lemma {:induction false} ObjectsDiffer(was: Schema, now: Schema) returns (v: Json)
    requires Satisfiable(was) && FormOf(now).Objects? && !Subsumes(was, now)
    ensures Valid(was, v) && !Valid(now, v)
    decreases now, 0
  {
    v := Example(was);
    ExampleIsValid(was);
    if !FormOf(was).Objects? {
      ObjectsValid(now, v);
    } else if exists k :: 0 <= k < |now.required| && now.required[k] !in was.required {
      ObjectsValid(now, v);
    } else {
      var p :| p in now.properties
               && !(if p in was.properties then Subsumes(was.properties[p], now.properties[p]) else FormOf(now.properties[p]).Anything?);
      var inner := Rejected(now.properties[p]);
      if p in was.properties {
        inner := Differ(was.properties[p], now.properties[p]);
      } else {
        RejectedIsInvalid(now.properties[p]);
      }
      ExampleWith(was, p, inner);
      hide Valid;
      v := Obj(Example(was).m[p := inner]);
      ObjectsValid(now, v);
    }
  }

  /** A payload that tells two schemas apart. */
  lemma {:induction false} Differ(was: Schema, now: Schema) returns (v: Json)
    requires !Subsumes(was, now)
    ensures Valid(was, v) && !Valid(now, v)
    decreases now, 1
  {
    match FormOf(now)
    case Never =>
      v := Example(was);
      ExampleIsValid(was);
      NeverValid(now, v);
    case Scalars(_) => v := ScalarsDiffer(was, now);
    case Arrays => v := ArraysDiffer(was, now);
    case Objects => v := ObjectsDiffer(was, now);
  }

  /** The exact condition, on all schemas: every payload stays valid if and only if the walk
      over the two schemas says so. */
  lemma KeepsPayloadsExactly(was: Schema, now: Schema)
    ensures KeepsPayloads(was, now) <==> Subsumes(was, now)
  {
    if Subsumes(was, now) {
      forall v | Valid(was, v)
        ensures Valid(now, v)
      {
        SubsumesIsEnough(was, now, v);
      }
    } else {
      var v := Differ(was, now);
    }
  }

  /** What the compatibility check takes for granted: a type is only added where there was one,
      no property is added, and item schemas are the same. */
  predicate WithinReach(was: Schema, now: Schema)
    decreases was
  {
    was.Node? && now.Node? ==>
      && (TypeOf(was.typeSpec) == "" ==> TypeOf(now.typeSpec) == "")
      && now.properties.Keys <= was.properties.Keys
      && now.items == was.items
      && (forall p | p in was.properties && p in now.properties :: WithinReach(was.properties[p], now.properties[p]))
  }

  /** Within its reach the check is sound: no compatibility errors, no payload lost. */
  lemma {:induction false} CompatibleIsSound(was: Schema, now: Schema, v: Json)
    requires Compatible(was, now) && WithinReach(was, now) && Valid(was, v)
    ensures Valid(now, v)
    decreases was
  {
    if now.properties != map[] || TypeOf(now.typeSpec) == "object" {
      forall p | p in now.properties && p in v.m
        ensures Valid(now.properties[p], v.m[p])
      {
        CompatibleIsSound(was.properties[p], now.properties[p], v.m[p]);
      }
    }
  }

  // ----- beyond its reach -----

  const UNTYPED := Node(NoType, [], map[], None)
  const TEXT := Node(OneType("string"), [], map[], None)

  function ListOf(items: Schema): Schema {
    Node(OneType("array"), [], map[], Some(items))
  }

  function RecordOf(properties: map<string, Schema>): Schema {
    Node(OneType("object"), [], properties, None)
  }

  lemma TypeNames()
    ensures TypeOf(OneType("string")) == "string" && TypeOf(OneType("array")) == "array" && TypeOf(OneType("object")) == "object"
  {
  }

  /** Each thing taken for granted is needed: a type added to an untyped node, a property added
      to a record and a changed item schema all pass the check and lose payloads. */
  lemma AddedTypeLosesPayloads()
    ensures Compatible(UNTYPED, TEXT) && !KeepsPayloads(UNTYPED, TEXT)
  {
    TypeNames();
    assert Valid(UNTYPED, NULL) && !Valid(TEXT, NULL);
  }

  lemma AddedPropertyLosesPayloads()
    ensures Compatible(RecordOf(map[]), RecordOf(map["a" := TEXT])) && !KeepsPayloads(RecordOf(map[]), RecordOf(map["a" := TEXT]))
  {
    TypeNames();
    var v := Obj(map["a" := NULL]);
    var now := RecordOf(map["a" := TEXT]);
    ObjectsValid(RecordOf(map[]), v);
    ObjectsValid(now, v);
    assert "a" in now.properties && "a" in v.m && !Valid(TEXT, NULL);
    assert Valid(RecordOf(map[]), v) && !Valid(now, v);
  }

  lemma ChangedItemsLosePayloads()
    ensures Compatible(ListOf(UNTYPED), ListOf(TEXT)) && !KeepsPayloads(ListOf(UNTYPED), ListOf(TEXT))
  {
    TypeNames();
    var v := Arr([NULL]);
    assert !Valid(TEXT, NULL) && Valid(UNTYPED, NULL);
    assert v.a[0] == NULL;
    assert Valid(ListOf(UNTYPED), v) && !Valid(ListOf(TEXT), v);
  }
}
