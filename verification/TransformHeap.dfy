/** The transformation engine as it runs: Go maps and slices that are changed in place.
    A ghost shape records which heap nodes a document is made of. As long as the shape is
    separated (no node occurs twice, so no sharing and no cycle), every in-place operation
    equals its meaning on immutable values. */
module TransformHeap {
  import opened Text
  import opened Json
  import opened JsonPointer
  import opened Transform

  /** A Go `any` holding decoded JSON. An array is a slice header: a backing buffer and a
      length, which may be shorter than the buffer. */
  datatype Val = VLeaf(p: Prim) | VObj(o: ObjNode) | VArr(buf: array<Val>, len: nat)

  /** A Go `map[string]any`: a reference, shared by everyone who holds it. */
  class ObjNode {
    var m: map<string, Val>

    constructor (m: map<string, Val>)
      ensures this.m == m
    {
      this.m := m;
    }
  }

  // ----- shapes -----

  datatype Shape =
    | SLeaf(p: Prim)
    | SObj(o: ObjNode, kids: map<string, Shape>)
    | SArr(buf: array<Val>, items: seq<Shape>)

  ghost function ValOf(s: Shape): Val {
    match s
    case SLeaf(p) => VLeaf(p)
    case SObj(o, _) => VObj(o)
    case SArr(buf, items) => VArr(buf, |items|)
  }

  ghost function Abs(s: Shape): Json {
    match s
    case SLeaf(p) => Leaf(p)
    case SObj(_, kids) => Obj(map k | k in kids :: Abs(kids[k]))
    case SArr(_, items) => Arr(seq(|items|, i requires 0 <= i < |items| => Abs(items[i])))
  }

  ghost predicate HasKid(s: Shape, step: Step) {
    match (s, step)
    case (SObj(_, kids), Key(k)) => k in kids
    case (SArr(_, items), Index(i)) => i < |items|
    case _ => false
  }

  ghost function Kid(s: Shape, step: Step): (kid: Shape)
    requires HasKid(s, step)
    ensures kid < s
  {
    match step
    case Key(k) => s.kids[k]
    case Index(i) => s.items[i]
  }

  ghost predicate CanHold(s: Shape, step: Step) {
    HasKid(s, step) || (s.SObj? && step.Key?)
  }

  ghost function WithKid(s: Shape, step: Step, kid: Shape): (r: Shape)
    requires CanHold(s, step)
    ensures Own(r) == Own(s) && ValOf(r) == ValOf(s)
    ensures HasKid(r, step) && Kid(r, step) == kid
    ensures forall t | t != step :: HasKid(r, t) <==> HasKid(s, t)
    ensures forall t | t != step && HasKid(s, t) :: Kid(r, t) == Kid(s, t)
  {
    match step
    case Key(k) => SObj(s.o, s.kids[k := kid])
    case Index(i) => SArr(s.buf, s.items[i := kid])
  }

  ghost function Own(s: Shape): set<object> {
    match s
    case SLeaf(_) => {}
    case SObj(o, _) => {o}
    case SArr(buf, _) => {buf}
  }

  /** All heap nodes of a shape. */
  ghost function Nodes(s: Shape): (nodes: set<object>)
    ensures Own(s) <= nodes
    ensures forall t | HasKid(s, t) :: Nodes(Kid(s, t)) <= nodes
  {
    match s
    case SLeaf(_) => {}
    case SObj(o, kids) => {o} + set k, x: object | k in kids && x in Nodes(kids[k]) :: x
    case SArr(buf, items) => {buf} + set i, x: object | 0 <= i < |items| && x in Nodes(items[i]) :: x
  }

  lemma NodesWithin(s: Shape, bound: set<object>)
    requires Own(s) <= bound
    requires forall t | HasKid(s, t) :: Nodes(Kid(s, t)) <= bound
    ensures Nodes(s) <= bound
  {
    match s
    case SLeaf(_) =>
    case SObj(o, kids) =>
      forall k | k in kids ensures Nodes(kids[k]) <= bound {
        assert HasKid(s, Key(k)) && Kid(s, Key(k)) == kids[k];
      }
    case SArr(buf, items) =>
      forall i | 0 <= i < |items| ensures Nodes(items[i]) <= bound {
        assert HasKid(s, Index(i)) && Kid(s, Index(i)) == items[i];
      }
  }

  /** The shape is a tree: a node occurs only once. */
  ghost predicate Separated(s: Shape) {
    && (forall t | HasKid(s, t) :: Separated(Kid(s, t)) && Own(s) !! Nodes(Kid(s, t)))
    && (forall a, b | HasKid(s, a) && HasKid(s, b) && a != b :: Nodes(Kid(s, a)) !! Nodes(Kid(s, b)))
  }

  lemma AbsKid(s: Shape, step: Step)
    requires CanHold(s, step)
    ensures Addressable(Abs(s), step)
    ensures Child(Abs(s), step) == if HasKid(s, step) then Some(Abs(Kid(s, step))) else None
  {
  }

  lemma AbsWithKid(s: Shape, step: Step, kid: Shape)
    requires CanHold(s, step)
    ensures Addressable(Abs(s), step)
    ensures Abs(WithKid(s, step, kid)) == Put(Abs(s), step, Abs(kid))
  {
  }

  /** Replacing one child keeps the tree, if the new child brings in only nodes of the
      old child and nodes from outside. */
  lemma WithKidSeparated(s: Shape, step: Step, kid: Shape, extra: set<object>)
    requires Separated(s) && CanHold(s, step) && Separated(kid)
    requires Nodes(kid) <= (if HasKid(s, step) then Nodes(Kid(s, step)) else {}) + extra
    requires extra !! Nodes(s)
    ensures Separated(WithKid(s, step, kid))
    ensures Nodes(WithKid(s, step, kid)) <= Nodes(s) + extra
  {
    var r := WithKid(s, step, kid);
    forall t | HasKid(r, t)
      ensures Separated(Kid(r, t)) && Own(r) !! Nodes(Kid(r, t)) && Nodes(Kid(r, t)) <= Nodes(s) + extra
      ensures t != step ==> Nodes(Kid(r, t)) !! Nodes(kid)
    {
    }
    NodesWithin(r, Nodes(s) + extra);
  }

  // ----- memory -----

  datatype Content = CObj(m: map<string, Val>) | CArr(a: seq<Val>)

  type Memory = map<object, Content>

  ghost function ContentOf(x: object): Content
    reads x
  {
    if x is ObjNode then CObj((x as ObjNode).m)
    else if x is array<Val> then CArr((x as array<Val>)[..])
    else CArr([])
  }

  /** The memory is what the heap holds now. */
  ghost predicate Current(mem: Memory)
    reads mem.Keys
  {
    forall x | x in mem :: ContentOf(x) == mem[x]
  }

  ghost predicate Linked(mem: Memory, s: Shape) {
    match s
    case SLeaf(_) => true
    case SObj(o, kids) => o in mem && mem[o] == CObj(map k | k in kids :: ValOf(kids[k]))
    case SArr(buf, items) =>
      && buf in mem && mem[buf].CArr? && |items| <= |mem[buf].a|
      && forall i | 0 <= i < |items| :: mem[buf].a[i] == ValOf(items[i])
  }

  /** The memory holds the shape. Buffer slots past a slice's length are not looked at. */
  ghost predicate Held(mem: Memory, s: Shape)
    decreases s
  {
    Linked(mem, s) && forall t | HasKid(s, t) :: Held(mem, Kid(s, t))
  }

  ghost predicate Agree(m1: Memory, m2: Memory, nodes: set<object>) {
    forall x | x in nodes && x in m1 :: x in m2 && m2[x] == m1[x]
  }

  lemma {:induction false} HeldFrame(m1: Memory, m2: Memory, s: Shape)
    requires Held(m1, s) && Agree(m1, m2, Nodes(s))
    ensures Held(m2, s)
    decreases s
  {
    forall t | HasKid(s, t) ensures Held(m2, Kid(s, t)) {
      HeldFrame(m1, m2, Kid(s, t));
    }
  }

  lemma WithKidHeld(m1: Memory, m2: Memory, s: Shape, step: Step, kid: Shape)
    requires Separated(s) && Held(m1, s) && HasKid(s, step)
    requires Agree(m1, m2, Nodes(s) - Nodes(Kid(s, step)))
    requires Held(m2, kid) && ValOf(kid) == ValOf(Kid(s, step))
    ensures Held(m2, WithKid(s, step, kid))
  {
    var r := WithKid(s, step, kid);
    forall t | HasKid(r, t) ensures Held(m2, Kid(r, t)) {
      if t != step {
        HeldFrame(m1, m2, Kid(s, t));
      }
    }
    assert Linked(m2, r) by {
      match s
      case SObj(o, kids) =>
        assert o in Own(s);
        assert (map k | k in kids :: ValOf(kids[k])) == map k | k in r.kids :: ValOf(r.kids[k]);
      case SArr(buf, items) =>
        assert buf in Own(s);
    }
  }

  // ----- shapes below a location -----

  ghost predicate Within(s: Shape, loc: Location) {
    loc == [] || (HasKid(s, loc[0]) && Within(Kid(s, loc[0]), loc[1..]))
  }

  ghost function Sub(s: Shape, loc: Location): Shape
    requires Within(s, loc)
  {
    if loc == [] then s else Sub(Kid(s, loc[0]), loc[1..])
  }

  ghost function Graft(s: Shape, loc: Location, t: Shape): Shape
    requires Within(s, loc)
  {
    if loc == [] then t else WithKid(s, loc[0], Graft(Kid(s, loc[0]), loc[1..], t))
  }

  lemma {:induction false} SubBelow(s: Shape, loc: Location, step: Step)
    requires Within(s, loc) && HasKid(Sub(s, loc), step)
    ensures Within(s, loc + [step]) && Sub(s, loc + [step]) == Kid(Sub(s, loc), step)
  {
    if loc == [] {
      assert (loc + [step])[1..] == [];
    } else {
      assert (loc + [step])[1..] == loc[1..] + [step];
      SubBelow(Kid(s, loc[0]), loc[1..], step);
    }
  }

  lemma {:induction false} AbsSub(s: Shape, loc: Location)
    requires Within(s, loc)
    ensures ReadAt(Abs(s), loc) == Some(Abs(Sub(s, loc)))
  {
    if loc != [] {
      AbsKid(s, loc[0]);
      AbsSub(Kid(s, loc[0]), loc[1..]);
    }
  }

  lemma {:induction false} SubIsTree(s: Shape, loc: Location)
    requires Within(s, loc) && Separated(s)
    ensures Nodes(Sub(s, loc)) <= Nodes(s) && Separated(Sub(s, loc))
  {
    if loc != [] {
      SubIsTree(Kid(s, loc[0]), loc[1..]);
    }
  }

  lemma {:induction false} SubHeld(mem: Memory, s: Shape, loc: Location)
    requires Within(s, loc) && Held(mem, s)
    ensures Held(mem, Sub(s, loc))
  {
    if loc != [] {
      SubHeld(mem, Kid(s, loc[0]), loc[1..]);
    }
  }

  /** Grafting `t` in place of the part at `loc`: what it does to the abstract value, and
      why the result is still a tree. */
  lemma {:induction false} GraftIsTree(s: Shape, loc: Location, t: Shape, extra: set<object>)
    requires Within(s, loc) && Separated(s) && Separated(t)
    requires Nodes(t) <= Nodes(Sub(s, loc)) + extra
    requires extra !! Nodes(s)
    ensures Separated(Graft(s, loc, t))
    ensures Nodes(Graft(s, loc, t)) <= Nodes(s) + extra
    ensures Within(Graft(s, loc, t), loc) && Sub(Graft(s, loc, t), loc) == t
    ensures ReadAt(Abs(s), loc).Some?
    ensures Abs(Graft(s, loc, t)) == PutAt(Abs(s), loc, Abs(t))
  {
    AbsSub(s, loc);
    if loc != [] {
      var kid := Kid(s, loc[0]);
      AbsKid(s, loc[0]);
      GraftIsTree(kid, loc[1..], t, extra);
      WithKidSeparated(s, loc[0], Graft(kid, loc[1..], t), extra);
      AbsWithKid(s, loc[0], Graft(kid, loc[1..], t));
    }
  }

  /** If only nodes of the part at `loc` changed, and the memory now holds `t` under the
      same reference, then it holds the whole shape with `t` grafted in. */
  lemma {:induction false} GraftHeld(m1: Memory, m2: Memory, s: Shape, loc: Location, t: Shape)
    requires Within(s, loc) && Separated(s) && Held(m1, s)
    requires Agree(m1, m2, Nodes(s) - Nodes(Sub(s, loc)))
    requires Held(m2, t) && ValOf(t) == ValOf(Sub(s, loc))
    ensures Held(m2, Graft(s, loc, t)) && ValOf(Graft(s, loc, t)) == ValOf(s)
    decreases |loc|
  {
    if loc != [] {
      var kid := Kid(s, loc[0]);
      SubIsTree(kid, loc[1..]);
      GraftHeld(m1, m2, kid, loc[1..], t);
      WithKidHeld(m1, m2, s, loc[0], Graft(kid, loc[1..], t));
    }
  }

  /** Storing `v` under `step` of the node at `loc`, seen from the whole document: memory
      `m1` before, `m2` after the one assignment. */
  lemma StoreIsGraft(m1: Memory, m2: Memory, s: Shape, loc: Location, step: Step, v: Shape)
    requires Separated(s) && Held(m1, s) && Within(s, loc) && CanHold(Sub(s, loc), step)
    requires Separated(v) && Held(m2, v) && Nodes(v) !! Nodes(s)
    requires Agree(m1, m2, Nodes(s) - Own(Sub(s, loc)))
    requires Linked(m2, WithKid(Sub(s, loc), step, v))
    ensures var t := WithKid(Sub(s, loc), step, v);
            && Separated(Graft(s, loc, t)) && Held(m2, Graft(s, loc, t))
            && Nodes(Graft(s, loc, t)) <= Nodes(s) + Nodes(v)
            && ValOf(Graft(s, loc, t)) == ValOf(s)
  {
    var part := Sub(s, loc);
    var t := WithKid(part, step, v);
    SubIsTree(s, loc);
    SubHeld(m1, s, loc);
    WithKidSeparated(part, step, v, Nodes(v));
    forall k | HasKid(t, k) ensures Held(m2, Kid(t, k)) {
      if k != step {
        HeldFrame(m1, m2, Kid(part, k));
      }
    }
    GraftIsTree(s, loc, t, Nodes(v));
    GraftHeld(m1, m2, s, loc, t);
  }

  // ----- encoding and decoding -----

  /** `json.Marshal` of a heap value, as the value it writes. */
  method Encode(v: Val, ghost mem: Memory, ghost s: Shape) returns (j: Json)
    requires v == ValOf(s) && Held(mem, s) && Current(mem)
    ensures j == Abs(s)
    decreases s, 1
  {
    match v
    case VLeaf(p) =>
      j := Leaf(p);
    case VObj(o) =>
      var members := EncodeMembers(o.m, mem, s);
      j := Obj(members);
    case VArr(buf, len) =>
      assert buf[..] == mem[buf].a;
      var items := EncodeItems(buf[..len], mem, s);
      j := Arr(items);
  }

  method EncodeMembers(m: map<string, Val>, ghost mem: Memory, ghost s: Shape) returns (members: map<string, Json>)
    requires s.SObj? && Held(mem, s) && Current(mem)
    requires m == map k | k in s.kids :: ValOf(s.kids[k])
    ensures members == map k | k in s.kids :: Abs(s.kids[k])
    decreases s, 0
  {
    members := map[];
    var keys := m.Keys;
    while keys != {}
      invariant keys <= m.Keys && members.Keys == m.Keys - keys
      invariant forall k | k in members :: members[k] == Abs(s.kids[k])
      decreases keys
    {
      var k :| k in keys;
      assert Kid(s, Key(k)) == s.kids[k];
      var member := Encode(m[k], mem, s.kids[k]);
      members := members[k := member];
      keys := keys - {k};
    }
  }

  method EncodeItems(slots: seq<Val>, ghost mem: Memory, ghost s: Shape) returns (items: seq<Json>)
    requires s.SArr? && Held(mem, s) && Current(mem)
    requires |slots| == |s.items| && forall i | 0 <= i < |slots| :: slots[i] == ValOf(s.items[i])
    ensures |items| == |s.items| && forall i | 0 <= i < |items| :: items[i] == Abs(s.items[i])
    decreases s, 0
  {
    items := [];
    for i := 0 to |slots|
      invariant |items| == i
      invariant forall k | 0 <= k < i :: items[k] == Abs(s.items[k])
    {
      assert Kid(s, Index(i)) == s.items[i];
      var item := Encode(slots[i], mem, s.items[i]);
      items := items + [item];
    }
  }

  /** Trees that share nothing, all held by one memory. */
  ghost predicate Forest(mem: Memory, trees: map<Step, Shape>) {
    && (forall t | t in trees :: Separated(trees[t]) && Held(mem, trees[t]) && Nodes(trees[t]) <= mem.Keys)
    && (forall t, u | t in trees && u in trees && t != u :: Nodes(trees[t]) !! Nodes(trees[u]))
  }

  lemma ForestGrows(mem: Memory, trees: map<Step, Shape>, more: Memory, step: Step, tree: Shape)
    requires Forest(mem, trees) && step !in trees && mem.Keys !! more.Keys
    requires Separated(tree) && Held(more, tree) && Nodes(tree) <= more.Keys
    ensures Forest(mem + more, trees[step := tree])
  {
    forall t | t in trees ensures Held(mem + more, trees[t]) {
      HeldFrame(mem, mem + more, trees[t]);
    }
    HeldFrame(more, mem + more, tree);
  }

  /** A new node over the trees of a forest is again a tree. */
  lemma RootForest(mem: Memory, trees: map<Step, Shape>, s: Shape, all: Memory)
    requires Forest(mem, trees)
    requires forall t | HasKid(s, t) :: t in trees && Kid(s, t) == trees[t]
    requires Own(s) !! mem.Keys && all.Keys == Own(s) + mem.Keys
    requires Agree(mem, all, mem.Keys) && Linked(all, s)
    ensures Separated(s) && Held(all, s) && Nodes(s) <= all.Keys
  {
    forall t | HasKid(s, t)
      ensures Held(all, Kid(s, t)) && Separated(Kid(s, t)) && Own(s) !! Nodes(Kid(s, t))
      ensures Nodes(Kid(s, t)) <= all.Keys
    {
      HeldFrame(mem, all, trees[t]);
    }
    NodesWithin(s, all.Keys);
  }

  ghost function ObjectOver(o: ObjNode, m: map<string, Json>, trees: map<Step, Shape>): Shape
    requires forall k | k in m :: Key(k) in trees
  {
    SObj(o, map k | k in m :: trees[Key(k)])
  }

  lemma ObjectOverReads(o: ObjNode, m: map<string, Json>, members: map<string, Val>, trees: map<Step, Shape>, mem: Memory)
    requires members.Keys == m.Keys && forall k | k in m :: Key(k) in trees
    requires forall k | k in m :: members[k] == ValOf(trees[Key(k)]) && Abs(trees[Key(k)]) == m[k]
    requires o in mem && mem[o] == CObj(members)
    ensures Abs(ObjectOver(o, m, trees)) == Obj(m) && Linked(mem, ObjectOver(o, m, trees))
  {
    var kids := ObjectOver(o, m, trees).kids;
    assert (map k | k in kids :: Abs(kids[k])) == m;
    assert (map k | k in kids :: ValOf(kids[k])) == members;
  }

  lemma ObjectOverKids(o: ObjNode, m: map<string, Json>, trees: map<Step, Shape>)
    requires forall k | k in m :: Key(k) in trees
    ensures var s := ObjectOver(o, m, trees); forall t | HasKid(s, t) :: t in trees && Kid(s, t) == trees[t]
  {
  }

  lemma ObjectOverForest(o: ObjNode, m: map<string, Json>, trees: map<Step, Shape>, mem: Memory, all: Memory)
    requires forall k | k in m :: Key(k) in trees
    requires Forest(mem, trees) && o !in mem && all.Keys == {o} + mem.Keys && Agree(mem, all, mem.Keys)
    requires Linked(all, ObjectOver(o, m, trees))
    ensures var s := ObjectOver(o, m, trees); Separated(s) && Held(all, s) && Nodes(s) <= all.Keys
  {
    ObjectOverKids(o, m, trees);
    RootForest(mem, trees, ObjectOver(o, m, trees), all);
  }

  ghost function ArrayOver(buf: array<Val>, a: seq<Json>, trees: map<Step, Shape>): Shape
    requires forall i | 0 <= i < |a| :: Index(i) in trees
  {
    SArr(buf, seq(|a|, i requires 0 <= i < |a| => trees[Index(i)]))
  }

  lemma ArrayOverForest(buf: array<Val>, a: seq<Json>, slots: seq<Val>, trees: map<Step, Shape>, mem: Memory)
    requires |slots| == |a| && forall i | 0 <= i < |a| :: Index(i) in trees
    requires forall i | 0 <= i < |a| :: slots[i] == ValOf(trees[Index(i)]) && Abs(trees[Index(i)]) == a[i]
    requires Forest(mem, trees) && buf !in mem
    ensures var s, all := ArrayOver(buf, a, trees), mem[buf := CArr(slots)];
            Abs(s) == Arr(a) && Separated(s) && Held(all, s) && Nodes(s) <= all.Keys
  {
    var s, all := ArrayOver(buf, a, trees), mem[buf := CArr(slots)];
    RootForest(mem, trees, s, all);
  }

  /** `json.Unmarshal` into a fresh heap value: every node is new and used once. */
  method Decode(j: Json) returns (v: Val, ghost s: Shape, ghost mem: Memory)
    ensures v == ValOf(s) && Abs(s) == j && Separated(s)
    ensures Held(mem, s) && Nodes(s) <= mem.Keys && Current(mem) && fresh(mem.Keys)
    decreases j, 1
  {
    match j
    case Leaf(p) =>
      v, s, mem := VLeaf(p), SLeaf(p), map[];
    case Obj(_) =>
      v, s, mem := DecodeObject(j);
    case Arr(_) =>
      v, s, mem := DecodeArray(j);
  }

  lemma AgreeAdded(mem: Memory, o: object, c: Content)
    requires o !in mem
    ensures mem[o := c].Keys == {o} + mem.Keys && Agree(mem, mem[o := c], mem.Keys)
  {
  }

  method DecodeObject(j: Json) returns (v: Val, ghost s: Shape, ghost mem: Memory)
    requires j.Obj?
    ensures v == ValOf(s) && Abs(s) == j && Separated(s)
    ensures Held(mem, s) && Nodes(s) <= mem.Keys && Current(mem) && fresh(mem.Keys)
    decreases j, 0, 1
  {
    hide Separated, Held, Nodes, Abs, Forest, Linked, Agree;
    var members, trees, below := DecodeMembers(j);
    var o := new ObjNode(members);
    AgreeAdded(below, o, CObj(members));
    v, s, mem := VObj(o), ObjectOver(o, j.m, trees), below[o := CObj(members)];
    ObjectOverReads(o, j.m, members, trees, mem);
    ObjectOverForest(o, j.m, trees, below, mem);
  }

  method DecodeArray(j: Json) returns (v: Val, ghost s: Shape, ghost mem: Memory)
    requires j.Arr?
    ensures v == ValOf(s) && Abs(s) == j && Separated(s)
    ensures Held(mem, s) && Nodes(s) <= mem.Keys && Current(mem) && fresh(mem.Keys)
    decreases j, 0, 1
  {
    var slots, trees, below := DecodeItems(j);
    var buf := new Val[|j.a|](i requires 0 <= i < |slots| => slots[i]);
    assert buf[..] == slots;
    v, s, mem := VArr(buf, |j.a|), ArrayOver(buf, j.a, trees), below[buf := CArr(slots)];
    ArrayOverForest(buf, j.a, slots, trees, below);
  }

  method DecodeMembers(j: Json)
    returns (members: map<string, Val>, ghost trees: map<Step, Shape>, ghost mem: Memory)
    requires j.Obj?
    ensures members.Keys == j.m.Keys && forall k | k in j.m :: Key(k) in trees
    ensures forall k | k in j.m :: members[k] == ValOf(trees[Key(k)]) && Abs(trees[Key(k)]) == j.m[k]
    ensures Forest(mem, trees) && Current(mem) && fresh(mem.Keys)
    decreases j, 0, 0
  {
    members, trees, mem := map[], map[], map[];
    var keys := j.m.Keys;
    while keys != {}
      invariant keys <= j.m.Keys && members.Keys == j.m.Keys - keys
      invariant forall t | t in trees :: t.Key? && t.k in members
      invariant forall k | k in members ::
                  Key(k) in trees && members[k] == ValOf(trees[Key(k)]) && Abs(trees[Key(k)]) == j.m[k]
      invariant Forest(mem, trees) && Current(mem) && fresh(mem.Keys)
      decreases keys
    {
      var k :| k in keys;
      var member, tree, more := Decode(j.m[k]);
      ForestGrows(mem, trees, more, Key(k), tree);
      members, trees, mem := members[k := member], trees[Key(k) := tree], mem + more;
      keys := keys - {k};
    }
  }

  method DecodeItems(j: Json)
    returns (slots: seq<Val>, ghost trees: map<Step, Shape>, ghost mem: Memory)
    requires j.Arr?
    ensures |slots| == |j.a| && forall i | 0 <= i < |j.a| :: Index(i) in trees
    ensures forall i | 0 <= i < |j.a| :: slots[i] == ValOf(trees[Index(i)]) && Abs(trees[Index(i)]) == j.a[i]
    ensures Forest(mem, trees) && Current(mem) && fresh(mem.Keys)
    decreases j, 0, 0
  {
    slots, trees, mem := [], map[], map[];
    for n := 0 to |j.a|
      invariant |slots| == n
      invariant forall t | t in trees :: t.Index? && t.i < n
      invariant forall i | 0 <= i < n ::
                  Index(i) in trees && slots[i] == ValOf(trees[Index(i)]) && Abs(trees[Index(i)]) == j.a[i]
      invariant Forest(mem, trees) && Current(mem) && fresh(mem.Keys)
    {
      var slot, tree, more := Decode(j.a[n]);
      ForestGrows(mem, trees, more, Index(n), tree);
      slots, trees, mem := slots + [slot], trees[Index(n) := tree], mem + more;
    }
  }

  // ----- the document -----

  /** A value that shares nothing with memory `mem`. */
  ghost predicate Apart(mem: Memory, v: Shape, more: Memory) {
    Separated(v) && Held(more, v) && Nodes(v) <= more.Keys && more.Keys !! mem.Keys
  }

  ghost function AfterStore(mem: Memory, s: Shape, loc: Location, step: Step, v: Shape, more: Memory): Memory
    requires Within(s, loc) && Held(mem, s) && CanHold(Sub(s, loc), step)
  {
    SubHeld(mem, s, loc);
    match Sub(s, loc)
    case SObj(o, _) => (mem + more)[o := CObj(mem[o].m[step.k := ValOf(v)])]
    case SArr(buf, _) => (mem + more)[buf := CArr(mem[buf].a[step.i := ValOf(v)])]
  }

  ghost function AfterStoreShape(s: Shape, loc: Location, step: Step, v: Shape): Shape
    requires Within(s, loc) && CanHold(Sub(s, loc), step)
  {
    Graft(s, loc, WithKid(Sub(s, loc), step, v))
  }

  lemma LinkedAfterStore(mem: Memory, s: Shape, loc: Location, step: Step, v: Shape, more: Memory)
    requires Within(s, loc) && Held(mem, s) && CanHold(Sub(s, loc), step)
    ensures Linked(AfterStore(mem, s, loc, step, v, more), WithKid(Sub(s, loc), step, v))
  {
    SubHeld(mem, s, loc);
    var t := WithKid(Sub(s, loc), step, v);
    match Sub(s, loc)
    case SObj(o, kids) =>
      assert (map k | k in t.kids :: ValOf(t.kids[k])) == (map k | k in kids :: ValOf(kids[k]))[step.k := ValOf(v)];
    case SArr(_, _) =>
  }

  /** One assignment to a map entry or a slice slot keeps the document a tree. */
  lemma StoreKeepsTree(mem: Memory, s: Shape, loc: Location, step: Step, v: Shape, more: Memory)
    requires Separated(s) && Held(mem, s) && Nodes(s) <= mem.Keys
    requires Within(s, loc) && CanHold(Sub(s, loc), step) && Apart(mem, v, more)
    ensures var s', mem' := AfterStoreShape(s, loc, step, v), AfterStore(mem, s, loc, step, v, more);
            && Separated(s') && Held(mem', s') && Nodes(s') <= mem'.Keys && mem'.Keys == mem.Keys + more.Keys
            && ValOf(s') == ValOf(s)
  {
    var mem' := AfterStore(mem, s, loc, step, v, more);
    AfterStoreAgrees(mem, s, loc, step, v, more);
    LinkedAfterStore(mem, s, loc, step, v, more);
    hide Separated, Graft, WithKid, Kid, Nodes, AfterStore, Linked, Agree, HasKid, Held;
    HeldFrame(more, mem', v);
    StoreIsGraft(mem, mem', s, loc, step, v);
  }

  lemma AfterStoreAgrees(mem: Memory, s: Shape, loc: Location, step: Step, v: Shape, more: Memory)
    requires Held(mem, s) && Nodes(s) <= mem.Keys
    requires Within(s, loc) && CanHold(Sub(s, loc), step) && Apart(mem, v, more)
    ensures var mem' := AfterStore(mem, s, loc, step, v, more);
            && mem'.Keys == mem.Keys + more.Keys
            && Agree(mem, mem', Nodes(s) - Own(Sub(s, loc))) && Agree(more, mem', Nodes(v))
            && Nodes(v) !! Nodes(s)
  {
    SubHeld(mem, s, loc);
    hide Separated, Nodes, Kid, HasKid;
  }

  /** The assignment itself, as memory sees it. */
  method AssignMember(o: ObjNode, key: string, v: Val, ghost mem: Memory, ghost more: Memory) returns (ghost after: Memory)
    requires Current(mem) && Current(more) && mem.Keys !! more.Keys
    requires o in mem && mem[o].CObj?
    modifies o
    ensures after == (mem + more)[o := CObj(mem[o].m[key := v])]
    ensures Current(after)
  {
    o.m := o.m[key := v];
    after := (mem + more)[o := CObj(mem[o].m[key := v])];
  }

  method AssignSlot(buf: array<Val>, i: nat, v: Val, ghost mem: Memory, ghost more: Memory) returns (ghost after: Memory)
    requires Current(mem) && Current(more) && mem.Keys !! more.Keys
    requires buf in mem && mem[buf].CArr? && i < buf.Length
    modifies buf
    ensures |mem[buf].a| == buf.Length
    ensures after == (mem + more)[buf := CArr(mem[buf].a[i := v])]
    ensures Current(after)
  {
    buf[i] := v;
    after := (mem + more)[buf := CArr(mem[buf].a[i := v])];
    assert buf[..] == old(buf[..])[i := v];
  }

  // ----- walking down -----

  /** What a pointer token finds at a node. */
  datatype Found = NotAddressable | NoMember | At(v: Val)

  lemma NodeReads(mem: Memory, s: Shape)
    requires Held(mem, s) && Current(mem)
    ensures s.SObj? ==> s.o.m == map k | k in s.kids :: ValOf(s.kids[k])
    ensures s.SArr? ==> |s.items| <= s.buf.Length &&
                        forall i | 0 <= i < |s.items| :: s.buf[i] == ValOf(s.items[i])
  {
    if s.SArr? {
      assert s.buf[..] == mem[s.buf].a;
    }
  }

  /** The type switch on the current node: a map entry, or a slice slot by `strconv.Atoi`. */
  method Enter(v: Val, token: string, ghost mem: Memory, ghost s: Shape) returns (r: Found)
    requires v == ValOf(s) && Held(mem, s) && Current(mem)
    ensures var step := StepOf(Abs(s), token);
            if step.None? then r == NotAddressable
            else CanHold(s, step.value) &&
                 r == if HasKid(s, step.value) then At(ValOf(Kid(s, step.value))) else NoMember
  {
    NodeReads(mem, s);
    match v
    case VLeaf(_) =>
      r := NotAddressable;
    case VObj(o) =>
      r := if token in o.m then At(o.m[token]) else NoMember;
    case VArr(buf, len) =>
      var index := ParseInt(token);
      r := if index.None? || index.value < 0 || index.value >= len then NotAddressable else At(buf[index.value]);
  }

  /** The rest of a set below `loc`, put back into the whole. */
  ghost function Plug(inner: Option<Json>, j: Json, loc: Location): Option<Json>
    requires ReadAt(j, loc).Some?
  {
    if inner.None? then None else Some(PutAt(j, loc, inner.value))
  }

  lemma PlugAtRoot(inner: Option<Json>, j: Json)
    ensures Plug(inner, j, []) == inner
  {
  }

  lemma HeldOwn(mem: Memory, s: Shape)
    requires Held(mem, s)
    ensures Own(s) <= mem.Keys
  {
  }

  lemma PlugBelow(j: Json, loc: Location, step: Step, tokens: seq<string>, v: Json)
    requires ReadAt(j, loc).Some? && |tokens| > 1
    requires StepOf(ReadAt(j, loc).value, tokens[0]) == Some(step)
    requires Child(ReadAt(j, loc).value, step).Some?
    ensures ReadAt(j, loc + [step]) == Child(ReadAt(j, loc).value, step)
    ensures Plug(SetIn(ReadAt(j, loc).value, tokens, v), j, loc) ==
            Plug(SetIn(ReadAt(j, loc + [step]).value, tokens[1..], v), j, loc + [step])
  {
    var below := ReadAt(j, loc).value;
    var inner := SetIn(Child(below, step).value, tokens[1..], v);
    PutAtBelow(j, loc, step, if inner.None? then NULL else inner.value);
  }

  /** Creating the missing member first and setting below it afterwards is one set. */
  lemma PlugBelowNew(j: Json, loc: Location, key: string, tokens: seq<string>, v: Json, j': Json)
    requires ReadAt(j, loc).Some? && |tokens| > 1
    requires ReadAt(j, loc).value.Obj? && key == tokens[0] && key !in ReadAt(j, loc).value.m
    requires j' == PutAt(j, loc, Put(ReadAt(j, loc).value, Key(key), EMPTY_OBJECT))
    ensures ReadAt(j', loc + [Key(key)]) == Some(EMPTY_OBJECT)
    ensures Plug(SetIn(ReadAt(j, loc).value, tokens, v), j, loc) ==
            Plug(SetIn(EMPTY_OBJECT, tokens[1..], v), j', loc + [Key(key)])
  {
    var below := ReadAt(j, loc).value;
    var created := Put(below, Key(key), EMPTY_OBJECT);
    var inner := SetIn(EMPTY_OBJECT, tokens[1..], v);
    var w := if inner.None? then NULL else inner.value;
    ReadPutAt(j, loc, created);
    PutAtBelow(j', loc, Key(key), w);
    PutTwice(below, Key(key), EMPTY_OBJECT, w);
    PutAtTwice(j, loc, created, Put(below, Key(key), w));
  }

  lemma StoreAbs(s: Shape, loc: Location, step: Step, v: Shape)
    requires Separated(s) && Separated(v) && Nodes(v) !! Nodes(s)
    requires Within(s, loc) && CanHold(Sub(s, loc), step)
    ensures var t := WithKid(Sub(s, loc), step, v); var s' := AfterStoreShape(s, loc, step, v);
            && Within(s', loc) && Sub(s', loc) == t
            && ReadAt(Abs(s), loc) == Some(Abs(Sub(s, loc))) && Addressable(Abs(Sub(s, loc)), step)
            && Abs(s') == PutAt(Abs(s), loc, Put(Abs(Sub(s, loc)), step, Abs(v)))
  {
    var part := Sub(s, loc);
    AbsSub(s, loc);
    SubIsTree(s, loc);
    WithKidSeparated(part, step, v, Nodes(v));
    GraftIsTree(s, loc, WithKid(part, step, v), Nodes(v));
    AbsWithKid(part, step, v);
  }

  lemma FinalStep(s: Shape, token: string, v: Json)
    ensures SetIn(Abs(s), [token], v) ==
            match s
            case SLeaf(_) => None
            case SObj(_, _) => Some(Put(Abs(s), Key(token), v))
            case SArr(_, items) =>
              var index := ParseInt(token);
              if index.Some? && 0 <= index.value < |items| then Some(Put(Abs(s), Index(index.value), v)) else None
  {
  }

  lemma NotAddressableFails(s: Shape, tokens: seq<string>, v: Json)
    requires tokens != [] && StepOf(Abs(s), tokens[0]).None?
    ensures SetIn(Abs(s), tokens, v).None?
    ensures !s.SObj?
  {
  }

  lemma NoMemberFacts(s: Shape, token: string)
    requires StepOf(Abs(s), token).Some? && !HasKid(s, StepOf(Abs(s), token).value)
    ensures s.SObj? && Abs(s).Obj? && token !in Abs(s).m
  {
  }

  lemma NewObjectApart(mem: Memory, o: ObjNode)
    requires o !in mem
    ensures Apart(mem, SObj(o, map[]), map[o := CObj(map[])])
    ensures Abs(SObj(o, map[])) == EMPTY_OBJECT
    ensures Held(mem[o := CObj(map[])], SObj(o, map[])) && Nodes(SObj(o, map[])) == {o}
  {
  }

  // ----- dropping -----

  /** The state of a subtree and the memory around it. */
  ghost predicate Tree(mem: Memory, s: Shape) {
    Separated(s) && Held(mem, s) && Nodes(s) <= mem.Keys
  }

  /** After a drop below `step`, the child is stored back: the parent is a tree again. */
  lemma StoreBack(mem: Memory, mem1: Memory, mem2: Memory, s: Shape, step: Step, kid: Shape)
    requires Tree(mem, s) && HasKid(s, step) && Tree(mem1, kid) && Nodes(kid) <= Nodes(Kid(s, step))
    requires mem1.Keys == mem2.Keys == mem.Keys
    requires Agree(mem, mem1, mem.Keys - Nodes(Kid(s, step)))
    requires Agree(mem1, mem2, mem.Keys - Own(s))
    requires Linked(mem2, WithKid(s, step, kid))
    ensures Tree(mem2, WithKid(s, step, kid)) && Nodes(WithKid(s, step, kid)) <= Nodes(s)
    ensures Agree(mem, mem2, mem.Keys - Nodes(s))
  {
    var r := WithKid(s, step, kid);
    WithKidSeparated(s, step, kid, {});
    hide Linked, WithKid, Kid;
    forall t | HasKid(r, t) ensures Held(mem2, Kid(r, t)) {
      if t == step {
        HeldFrame(mem1, mem2, kid);
      } else {
        HeldFrame(mem, mem2, Kid(s, t));
      }
    }
  }

  ghost function WithoutKid(s: Shape, step: Step): Shape
    requires CanHold(s, step)
  {
    match step
    case Key(k) => SObj(s.o, s.kids - {k})
    case Index(i) => SArr(s.buf, s.items[..i] + s.items[i + 1..])
  }

  /** The kid of the shortened node that `t` names was named `Before(t)` in the full one. */
  ghost function Before(step: Step, t: Step): Step {
    if step.Index? && t.Index? && step.i <= t.i then Index(t.i + 1) else t
  }

  lemma WithoutKidKids(s: Shape, step: Step)
    requires CanHold(s, step)
    ensures var r := WithoutKid(s, step);
            Own(r) == Own(s) &&
            forall t | HasKid(r, t) :: HasKid(s, Before(step, t)) && Kid(r, t) == Kid(s, Before(step, t))
  {
  }

  lemma WithoutKidTree(mem: Memory, mem': Memory, s: Shape, step: Step)
    requires Tree(mem, s) && CanHold(s, step) && mem'.Keys == mem.Keys
    requires Agree(mem, mem', mem.Keys - Own(s))
    requires Linked(mem', WithoutKid(s, step))
    ensures Tree(mem', WithoutKid(s, step)) && Nodes(WithoutKid(s, step)) <= Nodes(s)
  {
    var r := WithoutKid(s, step);
    WithoutKidKids(s, step);
    forall t | HasKid(r, t) ensures Held(mem', Kid(r, t)) {
      HeldFrame(mem, mem', Kid(s, Before(step, t)));
    }
    NodesWithin(r, Nodes(s));
  }

  lemma AbsWithoutKid(s: Shape, step: Step)
    requires CanHold(s, step)
    ensures Addressable(Abs(s), step) && Abs(WithoutKid(s, step)) == Remove(Abs(s), step)
  {
    match step
    case Key(k) =>
      assert Abs(WithoutKid(s, step)).m == Abs(s).m - {k};
    case Index(i) =>
      assert Abs(WithoutKid(s, step)).a == Abs(s).a[..i] + Abs(s).a[i + 1..];
  }

  /** `delete(node, final)`. */
  method DeleteMember(o: ObjNode, key: string, ghost mem: Memory, ghost s: Shape) returns (ghost after: Memory)
    requires Tree(mem, s) && Current(mem) && ValOf(s) == VObj(o)
    modifies o
    ensures Current(after) && after.Keys == mem.Keys && Agree(mem, after, mem.Keys - Own(s))
    ensures Linked(after, WithoutKid(s, Key(key)))
  {
    NodeReads(mem, s);
    o.m := o.m - {key};
    after := mem[o := CObj(o.m)];
    assert o.m == map k | k in s.kids - {key} :: ValOf(s.kids[k]);
  }

  /** `copy(node[index:], node[index+1:])`: the slots after `index` move down by one, the
      last slot of the buffer keeps its stale content. */
  method CloseGap(buf: array<Val>, len: nat, index: nat, ghost mem: Memory, ghost s: Shape) returns (ghost after: Memory)
    requires Tree(mem, s) && Current(mem) && ValOf(s) == VArr(buf, len) && index < len
    modifies buf
    ensures Current(after) && after.Keys == mem.Keys && Agree(mem, after, mem.Keys - Own(s))
    ensures Linked(after, WithoutKid(s, Index(index)))
  {
    NodeReads(mem, s);
    forall k | index <= k < len - 1 {
      buf[k] := buf[k + 1];
    }
    after := mem[buf := CArr(buf[..])];
  }

  lemma LinkedBack(mem: Memory, mem1: Memory, mem2: Memory, s: Shape, step: Step, kid: Shape)
    requires Tree(mem, s) && HasKid(s, step) && mem1.Keys == mem.Keys
    requires Agree(mem, mem1, mem.Keys - Nodes(Kid(s, step)))
    requires s.SObj? ==> s.o in mem2 && mem1[s.o].CObj? && mem2[s.o] == CObj(mem1[s.o].m[step.k := ValOf(kid)])
    requires s.SArr? ==> s.buf in mem2 && mem1[s.buf].CArr? && step.i < |mem1[s.buf].a| &&
                         mem2[s.buf] == CArr(mem1[s.buf].a[step.i := ValOf(kid)])
    ensures Linked(mem2, WithKid(s, step, kid))
  {
    var r := WithKid(s, step, kid);
    match s
    case SObj(o, kids) =>
      assert o in Own(s) && mem1[o] == mem[o];
      assert (map k | k in r.kids :: ValOf(r.kids[k])) == (map k | k in kids :: ValOf(kids[k]))[step.k := ValOf(kid)];
    case SArr(buf, items) =>
      assert buf in Own(s) && mem1[buf] == mem[buf];
  }

  /** `node[final] = next` on the way back up. */
  method StoreKid(current: Val, token: string, v: Val, ghost mem: Memory, ghost mem1: Memory, ghost s: Shape, ghost kid: Shape)
    returns (ghost mem2: Memory)
    requires Tree(mem, s) && current == ValOf(s) && v == ValOf(kid)
    requires StepOf(Abs(s), token).Some? && HasKid(s, StepOf(Abs(s), token).value)
    requires Tree(mem1, kid) && Nodes(kid) <= Nodes(Kid(s, StepOf(Abs(s), token).value))
    requires mem1.Keys == mem.Keys && Current(mem1)
    requires Agree(mem, mem1, mem.Keys - Nodes(Kid(s, StepOf(Abs(s), token).value)))
    modifies Own(s)
    ensures Current(mem2) && mem2.Keys == mem.Keys && Agree(mem, mem2, mem.Keys - Nodes(s))
    ensures var r := WithKid(s, StepOf(Abs(s), token).value, kid); Tree(mem2, r) && Nodes(r) <= Nodes(s)
  {
    hide Separated, Held, Nodes, Current, Kid, WithKid, Tree;
    ghost var step := StepOf(Abs(s), token).value;
    OwnSurvives(mem, mem1, s, step);
    match current
    case VObj(o) =>
      mem2 := AssignMember(o, token, v, mem1, map[]);
      LinkedBack(mem, mem1, mem2, s, step, kid);
      StoreBack(mem, mem1, mem2, s, step, kid);
    case VArr(buf, len) =>
      mem2 := AssignSlot(buf, ParseInt(token).value, v, mem1, map[]);
      LinkedBack(mem, mem1, mem2, s, step, kid);
      StoreBack(mem, mem1, mem2, s, step, kid);
  }

  lemma OwnSurvives(mem: Memory, mem1: Memory, s: Shape, step: Step)
    requires Tree(mem, s) && HasKid(s, step) && mem1.Keys == mem.Keys && Current(mem1)
    requires Agree(mem, mem1, mem.Keys - Nodes(Kid(s, step)))
    ensures Own(s) <= mem.Keys && Linked(mem1, s)
    ensures s.SArr? ==> |s.items| <= s.buf.Length
  {
    if s.SArr? {
      assert s.buf in Own(s) && mem1[s.buf] == mem[s.buf];
      assert s.buf[..] == mem1[s.buf].a;
    }
  }

  method RemoveKid(current: Val, token: string, ghost mem: Memory, ghost s: Shape)
    returns (next: Val, ghost s': Shape, ghost mem': Memory)
    requires current == ValOf(s) && Tree(mem, s) && Current(mem)
    requires StepOf(Abs(s), token).Some? && CanHold(s, StepOf(Abs(s), token).value)
    modifies Own(s)
    ensures Current(mem') && mem'.Keys == mem.Keys && Agree(mem, mem', mem.Keys - Own(s))
    ensures Tree(mem', s') && Nodes(s') <= Nodes(s) && next == ValOf(s')
    ensures Drop(Abs(s), [token]) == Some(Abs(s'))
  {
    ghost var step := StepOf(Abs(s), token).value;
    s' := WithoutKid(s, step);
    AbsWithoutKid(s, step);
    hide Separated, Held, Nodes, Current;
    match current
    case VObj(o) =>
      mem' := DeleteMember(o, token, mem, s);
      next := current;
      WithoutKidTree(mem, mem', s, step);
    case VArr(buf, len) =>
      mem' := CloseGap(buf, len, ParseInt(token).value, mem, s);
      next := VArr(buf, len - 1);
      WithoutKidTree(mem, mem', s, step);
  }

  /** `dropAt`: removes the named member or slot in place and hands back what the caller
      must store in its own slot, which for a shortened slice is a new header. */
  method DropAt(current: Val, tokens: seq<string>, ghost mem: Memory, ghost s: Shape)
    returns (ok: bool, next: Val, ghost s': Shape, ghost mem': Memory)
    requires tokens != [] && current == ValOf(s) && Tree(mem, s) && Current(mem)
    modifies mem.Keys
    ensures Current(mem') && mem'.Keys == mem.Keys && Agree(mem, mem', mem.Keys - Nodes(s))
    ensures Tree(mem', s') && Nodes(s') <= Nodes(s) && next == ValOf(s')
    ensures ok ==> Drop(Abs(s), tokens) == Some(Abs(s'))
    ensures !ok ==> Drop(Abs(s), tokens).None? && s' == s && mem' == mem
    decreases |tokens|
  {
    ok, next, s', mem' := false, current, s, mem;
    hide Separated, Held, Current, Linked, Abs;
    var found := Enter(current, tokens[0], mem, s);
    if found.NotAddressable? || (found.NoMember? && |tokens| > 1) {
      NotAddressableDrop(s, tokens);
      return;
    }
    HeldOwn(mem, s);
    if |tokens| == 1 {
      assert tokens == [tokens[0]];
      next, s', mem' := RemoveKid(current, tokens[0], mem, s);
      ok := true;
    } else {
      ghost var step := StepOf(Abs(s), tokens[0]).value;
      AbsKid(s, step);
      KidTree(mem, s, step);
      var dropped, below, kid, mem1 := DropAt(found.v, tokens[1..], mem, Kid(s, step));
      ok := dropped;
      if ok {
        mem' := StoreKid(current, tokens[0], below, mem, mem1, s, kid);
        s' := WithKid(s, step, kid);
        AbsWithKid(s, step, kid);
      }
    }
  }

  lemma KidTree(mem: Memory, s: Shape, step: Step)
    requires Tree(mem, s) && HasKid(s, step)
    ensures Tree(mem, Kid(s, step))
  {
  }

  lemma NotAddressableDrop(s: Shape, tokens: seq<string>)
    requires tokens != []
    requires var step := StepOf(Abs(s), tokens[0]);
             step.None? || (CanHold(s, step.value) && !HasKid(s, step.value) && |tokens| > 1)
    ensures Drop(Abs(s), tokens).None?
  {
    var step := StepOf(Abs(s), tokens[0]);
    if step.Some? {
      AbsKid(s, step.value);
    }
  }

  class Document {
    var root: Val
    ghost var shape: Shape
    ghost var mem: Memory

    ghost predicate Valid()
      reads this, mem.Keys
    {
      && this !in mem.Keys && root == ValOf(shape)
      && Separated(shape) && Held(mem, shape) && Nodes(shape) <= mem.Keys && Current(mem)
    }

    ghost function Value(): Json
      reads this
    {
      Abs(shape)
    }

    constructor (j: Json)
      ensures Valid() && Value() == j && fresh(mem.Keys)
    {
      var v, s, m := Decode(j);
      root, shape, mem := v, s, m;
    }

    /** `node[final] = value` on a map that is part of the document. */
    method PutMember(ghost loc: Location, o: ObjNode, key: string, v: Val, ghost s: Shape, ghost more: Memory)
      requires Valid() && Within(shape, loc) && ValOf(Sub(shape, loc)) == VObj(o)
      requires v == ValOf(s) && Apart(mem, s, more) && Current(more) && this !in more.Keys
      modifies this`shape, this`mem, o
      ensures Valid() && mem.Keys == old(mem.Keys) + more.Keys
      ensures shape == AfterStoreShape(old(shape), loc, Key(key), s)
    {
      hide Separated, Nodes, Graft, Current, WithKid, Kid, AfterStoreShape;
      StoreKeepsTree(mem, shape, loc, Key(key), s, more);
      SubHeld(mem, shape, loc);
      ghost var after := AssignMember(o, key, v, mem, more);
      mem, shape := after, AfterStoreShape(shape, loc, Key(key), s);
    }

    /** `node[index] = value` on a slice that is part of the document. */
    method PutSlot(ghost loc: Location, buf: array<Val>, len: nat, i: nat, v: Val, ghost s: Shape, ghost more: Memory)
      requires Valid() && Within(shape, loc) && ValOf(Sub(shape, loc)) == VArr(buf, len) && i < len <= buf.Length
      requires v == ValOf(s) && Apart(mem, s, more) && Current(more) && this !in more.Keys
      modifies this`shape, this`mem, buf
      ensures Valid() && mem.Keys == old(mem.Keys) + more.Keys
      ensures shape == AfterStoreShape(old(shape), loc, Index(i), s)
    {
      hide Separated, Nodes, Graft, Current, WithKid, Kid, AfterStoreShape;
      StoreKeepsTree(mem, shape, loc, Index(i), s, more);
      SubHeld(mem, shape, loc);
      ghost var after := AssignSlot(buf, i, v, mem, more);
      mem, shape := after, AfterStoreShape(shape, loc, Index(i), s);
    }
  
    /** `getValue`: the value a pointer names, or nothing. */
    method GetValue(tokens: seq<string>) returns (found: Option<Val>, ghost loc: Location)
      requires Valid()
      ensures found.Some? <==> Get(Value(), tokens).Some?
      ensures found.Some? ==> Within(shape, loc) && found.value == ValOf(Sub(shape, loc)) &&
                              Get(Value(), tokens) == Some(Abs(Sub(shape, loc)))
    {
      var current := root;
      loc := [];
      for i := 0 to |tokens|
        invariant Within(shape, loc) && current == ValOf(Sub(shape, loc))
        invariant Get(Value(), tokens) == Get(Abs(Sub(shape, loc)), tokens[i..])
      {
        ghost var part := Sub(shape, loc);
        SubHeld(mem, shape, loc);
        var next := Enter(current, tokens[i], mem, part);
        ghost var step := StepOf(Abs(part), tokens[i]);
        if !next.At? {
          if step.Some? {
            AbsKid(part, step.value);
          }
          return None, loc;
        }
        AbsKid(part, step.value);
        SubBelow(shape, loc, step.value);
        loc := loc + [step.value];
        current := next.v;
        assert tokens[i..][1..] == tokens[i + 1..];
      }
      return Some(current), loc;
    }

    /** `next = map[string]any{}; node[token] = next` for a member that is missing. */
    method CreateMember(ghost loc: Location, o: ObjNode, key: string) returns (child: ObjNode)
      requires Valid() && Within(shape, loc) && ValOf(Sub(shape, loc)) == VObj(o)
      requires ReadAt(Value(), loc) == Some(Abs(Sub(shape, loc)))
      modifies this`shape, this`mem, o
      ensures Valid() && old(mem.Keys) <= mem.Keys && fresh(mem.Keys - old(mem.Keys))
      ensures Within(shape, loc + [Key(key)]) && Sub(shape, loc + [Key(key)]) == SObj(child, map[])
      ensures Value() == PutAt(old(Value()), loc, Put(Abs(Sub(old(shape), loc)), Key(key), EMPTY_OBJECT))
    {
      child := new ObjNode(map[]);
      ghost var leaf := SObj(child, map[]);
      ghost var more: Memory := map[child := CObj(map[])];
      assert Current(more);
      NewObjectApart(mem, child);
      hide Separated, Held, Nodes, Graft, Current, WithKid, Kid, PutAt, Abs, AfterStoreShape;
      StoreAbs(shape, loc, Key(key), leaf);
      PutMember(loc, o, key, VObj(child), leaf, more);
      SubBelow(shape, loc, Key(key));
    }

    /** A null document becomes an empty object. */
    method EnsureRoot() returns (ghost touched: bool)
      requires Valid()
      modifies this
      ensures Valid() && old(mem.Keys) <= mem.Keys && fresh(mem.Keys - old(mem.Keys))
      ensures Value() == RootForSet(old(Value()))
      ensures touched ==> shape.SObj? && shape.kids == map[]
      ensures !touched ==> shape == old(shape) && mem == old(mem) && root == old(root)
    {
      touched := false;
      if root == VLeaf(Null) {
        var o := new ObjNode(map[]);
        NewObjectApart(mem, o);
        root, shape, mem, touched := VObj(o), SObj(o, map[]), mem[o := CObj(map[])], true;
      }
    }

    /** The focus of a set: the node at `loc`, and nothing created so far unless that node
        is an object still empty. */
    ghost predicate Focus(loc: Location, node: Val, touched: bool)
      reads this
    {
      && Within(shape, loc) && node == ValOf(Sub(shape, loc))
      && ReadAt(Value(), loc) == Some(Abs(Sub(shape, loc)))
      && (touched ==> Sub(shape, loc).SObj? && Sub(shape, loc).kids == map[])
    }

    /** What is left to do below the focus, put back into the whole document. */
    ghost function Pending(loc: Location, tokens: seq<string>, v: Json): Option<Json>
      requires Within(shape, loc) && ReadAt(Value(), loc).Some? && tokens != []
      reads this
    {
      Plug(SetIn(Abs(Sub(shape, loc)), tokens, v), Value(), loc)
    }

    /** One round of the loop in `parentForSet`. */
    method Descend(node: Val, ghost loc: Location, tokens: seq<string>, ghost v: Json, ghost touched: bool)
      returns (ok: bool, next: Val, ghost loc': Location, ghost touched': bool)
      requires Valid() && Focus(loc, node, touched) && |tokens| > 1
      modifies this`shape, this`mem, mem.Keys
      ensures Valid() && old(mem.Keys) <= mem.Keys && fresh(mem.Keys - old(mem.Keys))
      ensures !ok ==> !touched' && old(Pending(loc, tokens, v)).None?
      ensures Focus(loc', next, touched')
      ensures ok ==> Pending(loc', tokens[1..], v) == old(Pending(loc, tokens, v))
      ensures !touched' ==> !touched && shape == old(shape) && mem == old(mem)
    {
      hide Separated, Held, Nodes, Graft, Current, WithKid, Kid, PutAt, Linked, SetIn, Abs;
      ghost var part := Sub(shape, loc);
      SubHeld(mem, shape, loc);
      var found := Enter(node, tokens[0], mem, part);
      ok, next, loc', touched' := true, node, loc, touched;
      match found {
        case NotAddressable =>
          ok := false;
          NotAddressableFails(part, tokens, v);
        case NoMember =>
          ghost var before := Value();
          HeldOwn(mem, part);
          NoMemberFacts(part, tokens[0]);
          var o := CreateMember(loc, node.o, tokens[0]);
          PlugBelowNew(before, loc, tokens[0], tokens, v, Value());
          NewObjectApart(map[], o);
          next, loc', touched' := VObj(o), loc + [Key(tokens[0])], true;
        case At(below) =>
          ghost var step := StepOf(Abs(part), tokens[0]).value;
          AbsKid(part, step);
          SubBelow(shape, loc, step);
          PlugBelow(Value(), loc, step, tokens, v);
          next, loc' := below, loc + [step];
      }
    }

    /** `parentForSet`: walks to the node that will hold the last token, creating an object
        for every missing member on the way and for a null root. */
    method ParentForSet(tokens: seq<string>, ghost v: Json)
      returns (ok: bool, parent: Val, ghost loc: Location, ghost touched: bool)
      requires Valid() && tokens != []
      modifies this, mem.Keys
      ensures Valid() && old(mem.Keys) <= mem.Keys && fresh(mem.Keys - old(mem.Keys))
      ensures Focus(loc, parent, touched)
      ensures !ok ==> !touched && Set(old(Value()), tokens, v).None?
      ensures ok ==> Set(old(Value()), tokens, v) == Pending(loc, [tokens[|tokens| - 1]], v)
      ensures !touched ==> shape == old(shape) && mem == old(mem) && root == old(root)
    {
      hide Separated, Held, Nodes, Current, PutAt, SetIn, Abs;
      touched := EnsureRoot();
      parent, loc, ok := root, [], true;
      assert tokens[0..] == tokens;
      PlugAtRoot(SetIn(Value(), tokens, v), Value());
      for i := 0 to |tokens| - 1
        invariant Valid() && old(mem.Keys) <= mem.Keys && fresh(mem.Keys - old(mem.Keys))
        invariant Focus(loc, parent, touched)
        invariant Set(old(Value()), tokens, v) == Pending(loc, tokens[i..], v)
        invariant !touched ==> shape == old(shape) && mem == old(mem) && root == old(root)
      {
        ok, parent, loc, touched := Descend(parent, loc, tokens[i..], v, touched);
        if !ok {
          return;
        }
        assert tokens[i..][1..] == tokens[i + 1..];
      }
      assert tokens[|tokens| - 1..] == [tokens[|tokens| - 1]];
    }

    /** `*doc = value`. */
    method ReplaceRoot(v: Val, ghost s: Shape, ghost more: Memory)
      requires Valid() && v == ValOf(s) && Apart(mem, s, more) && Current(more) && this !in more.Keys
      modifies this
      ensures Valid() && Value() == Abs(s) && mem.Keys == old(mem.Keys) + more.Keys
    {
      HeldFrame(more, mem + more, s);
      hide Held, Separated, Nodes;
      root, shape, mem := v, s, mem + more;
    }

    /** The assignment at the end of `setValue`, on whatever node the parent turned out to be. */
    method StoreFinal(parent: Val, ghost loc: Location, token: string, v: Val, ghost s: Shape, ghost more: Memory)
      returns (ok: bool)
      requires Valid() && Focus(loc, parent, false)
      requires v == ValOf(s) && Apart(mem, s, more) && Current(more) && this !in more.Keys
      modifies this`shape, this`mem, mem.Keys
      ensures Valid() && ok == old(Pending(loc, [token], Abs(s))).Some?
      ensures ok ==> Some(Value()) == old(Pending(loc, [token], Abs(s))) && mem.Keys == old(mem.Keys) + more.Keys
      ensures !ok ==> shape == old(shape) && mem == old(mem) && !Sub(shape, loc).SObj?
    {
      hide Separated, Nodes, Graft, Current, WithKid, PutAt, AfterStoreShape, Held, Abs;
      ghost var part := Sub(shape, loc);
      SubHeld(mem, shape, loc);
      HeldOwn(mem, part);
      FinalStep(part, token, Abs(s));
      ok := false;
      match parent
      case VObj(o) =>
        StoreAbs(shape, loc, Key(token), s);
        PutMember(loc, o, token, v, s, more);
        ok := true;
      case VArr(buf, len) =>
        NodeReads(mem, part);
        var index := ParseInt(token);
        if index.Some? && 0 <= index.value < len {
          StoreAbs(shape, loc, Index(index.value), s);
          PutSlot(loc, buf, len, index.value, v, s, more);
          ok := true;
        }
      case VLeaf(_) =>
    }
  
    /** `setValue`: succeeds exactly when the set on values does, with that result; a failing
        set leaves the document as it was, node for node. */
    method SetValue(tokens: seq<string>, v: Val, ghost s: Shape, ghost more: Memory) returns (ok: bool)
      requires Valid() && v == ValOf(s) && Apart(mem, s, more) && Current(more) && this !in more.Keys
      modifies this, mem.Keys
      ensures Valid() && old(mem.Keys) <= mem.Keys && fresh(mem.Keys - old(mem.Keys) - more.Keys)
      ensures ok ==> Set(old(Value()), tokens, Abs(s)) == Some(Value())
      ensures !ok ==> Set(old(Value()), tokens, Abs(s)).None?
      ensures !ok ==> shape == old(shape) && mem == old(mem) && root == old(root)
    {
      hide Separated, Held, Nodes, Current, SetIn, Abs;
      if tokens == [] {
        ReplaceRoot(v, s, more);
        return true;
      }
      var found, parent, loc, touched := ParentForSet(tokens, Abs(s));
      if !found {
        return false;
      }
      ok := StoreFinal(parent, loc, tokens[|tokens| - 1], v, s, more);
    }

    /** `dropValue` on the document. */
    method DropValue(tokens: seq<string>) returns (ok: bool)
      requires Valid()
      modifies this, mem.Keys
      ensures Valid() && mem.Keys == old(mem.Keys)
      ensures ok ==> tokens != [] && Drop(old(Value()), tokens) == Some(Value())
      ensures !ok ==> tokens == [] || Drop(old(Value()), tokens).None?
      ensures !ok ==> shape == old(shape) && mem == old(mem) && root == old(root)
    {
      hide Separated, Held, Nodes, Current, Abs;
      if tokens == [] {
        return false;
      }
      var dropped, next, s, m := DropAt(root, tokens, mem, shape);
      if dropped {
        root, shape, mem := next, s, m;
      }
      ok := dropped;
    }

    /** Stores a freshly decoded value: `set`, `redact`, and the second half of `copy`. */
    method SetJson(tokens: seq<string>, j: Json) returns (ok: bool)
      requires Valid()
      modifies this, mem.Keys
      ensures Valid() && old(mem.Keys) <= mem.Keys && fresh(mem.Keys - old(mem.Keys))
      ensures ok ==> Set(old(Value()), tokens, j) == Some(Value())
      ensures !ok ==> Set(old(Value()), tokens, j).None? && shape == old(shape) && mem == old(mem) && root == old(root)
    {
      hide Separated, Held, Nodes, Current, Abs, Set;
      var v, s, more := Decode(j);
      ok := SetValue(tokens, v, s, more);
    }

    /** `cloneJSON` between `getValue` and `setValue`: the copy shares no node with the
        document, so a copy into its own descendant is still a tree. */
    method CopyValue(from: seq<string>, tokens: seq<string>) returns (ok: bool)
      requires Valid()
      modifies this, mem.Keys
      ensures Valid() && old(mem.Keys) <= mem.Keys && fresh(mem.Keys - old(mem.Keys))
      ensures ok ==> Get(old(Value()), from).Some? && Set(old(Value()), tokens, Get(old(Value()), from).value) == Some(Value())
      ensures !ok ==> Get(old(Value()), from).None? || Set(old(Value()), tokens, Get(old(Value()), from).value).None?
      ensures !ok ==> shape == old(shape) && mem == old(mem) && root == old(root)
    {
      hide Separated, Held, Nodes, Current, Abs, Set, Get;
      var found, loc := GetValue(from);
      if found.None? {
        return false;
      }
      SubHeld(mem, shape, loc);
      var copied := Encode(found.value, mem, Sub(shape, loc));
      ok := SetJson(tokens, copied);
    }

    /** One operation in place: the same result, or the same error and nothing changed. */
    method Run(op: Operation) returns (failed: Option<Error>)
      requires Valid()
      modifies this, mem.Keys
      ensures Valid() && old(mem.Keys) <= mem.Keys && fresh(mem.Keys - old(mem.Keys))
      ensures ApplyOp(old(Value()), op) == if failed.Some? then Err(failed.value) else Ok(Value())
      ensures failed.Some? ==> shape == old(shape) && mem == old(mem) && root == old(root)
      ensures failed.None? && op.op != "drop" ==>
                Get(Value(), Tokens(op.path)).Some? && Stores(old(Value()), op, Get(Value(), Tokens(op.path)).value)
    {
      if ApplyOp(Value(), op).Ok? && op.op != "drop" {
        OperationStores(Value(), op);
      }
      hide Separated, Held, Nodes, Current, Abs, Set, Get, Drop, Stores;
      failed := Validate(op);
      if failed.Some? {
        return;
      }
      var tokens := PointerTokens(op.path);
      var ok := false;
      match op.op {
        case "set" =>
          if op.value.Decoded? {
            ok := SetJson(tokens, op.value.json);
          }
        case "copy" =>
          var from := PointerTokens(op.from);
          ok := CopyValue(from, tokens);
        case "drop" =>
          ok := DropValue(tokens);
        case _ =>
          ok := SetJson(tokens, REDACTED);
      }
      failed := if ok then None else Some(InvalidOperation);
    }
  }

  /** `Apply`: decode the input, run the operations in place, encode the document. For every
      input and every operation list the result is that of the fold on immutable values. */
  method ApplyInPlace(input: Option<Json>, ops: seq<Operation>) returns (r: Result<Json>)
    ensures r == if input.None? then Err(InvalidOperation) else Apply(input.value, ops)
  {
    if input.None? {
      return Err(InvalidOperation);
    }
    hide Separated, Held, Nodes, Current, Abs, ApplyOp;
    var doc := new Document(input.value);
    for i := 0 to |ops|
      invariant doc.Valid() && fresh(doc.mem.Keys)
      invariant Apply(input.value, ops) == Apply(doc.Value(), ops[i..])
    {
      var failed := doc.Run(ops[i]);
      assert ops[i..][1..] == ops[i + 1..];
      if failed.Some? {
        return Err(failed.value);
      }
    }
    var out := Encode(doc.root, doc.mem, doc.shape);
    r := Ok(out);
  }
}
