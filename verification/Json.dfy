/** JSON values and resolved locations inside them. */
module Json {
  import opened Text

  datatype Prim = Null | Bool(b: bool) | Num(n: real) | Str(s: string)

  datatype Json = Leaf(p: Prim) | Obj(m: map<string, Json>) | Arr(a: seq<Json>)

  const NULL := Leaf(Null)
  const EMPTY_OBJECT := Obj(map[])

  /** A resolved location: unlike a pointer token, a step says whether it names an
      object member or an array slot, and each slot has exactly one name. */
  datatype Step = Key(k: string) | Index(i: nat)

  type Location = seq<Step>

  function Child(j: Json, step: Step): Option<Json> {
    match (j, step)
    case (Obj(m), Key(k)) => if k in m then Some(m[k]) else None
    case (Arr(a), Index(i)) => if i < |a| then Some(a[i]) else None
    case _ => None
  }

  /** Whether a value can be stored at `step` of `j`. */
  predicate Addressable(j: Json, step: Step) {
    match (j, step)
    case (Obj(_), Key(_)) => true
    case (Arr(a), Index(i)) => i < |a|
    case _ => false
  }

  function Put(j: Json, step: Step, v: Json): (r: Json)
    requires Addressable(j, step)
    ensures Child(r, step) == Some(v)
    ensures forall s | s != step :: Child(r, s) == Child(j, s)
    ensures forall s | Addressable(j, s) :: Addressable(r, s)
  {
    match step
    case Key(k) => Obj(j.m[k := v])
    case Index(i) => Arr(j.a[i := v])
  }

  function ReadAt(j: Json, loc: Location): Option<Json> {
    if loc == [] then Some(j)
    else
      match Child(j, loc[0])
      case None => None
      case Some(c) => ReadAt(c, loc[1..])
  }

  lemma {:induction false} ReadAtConcat(j: Json, a: Location, b: Location)
    ensures ReadAt(j, a + b) ==
            match ReadAt(j, a) { case None => None case Some(c) => ReadAt(c, b) }
  {
    if a == [] {
      assert a + b == b;
    } else {
      assert (a + b)[1..] == a[1..] + b;
      if Child(j, a[0]).Some? {
        ReadAtConcat(Child(j, a[0]).value, a[1..], b);
      }
    }
  }

  /** Replaces the value at a location that exists. */
  function PutAt(j: Json, loc: Location, v: Json): Json
    requires ReadAt(j, loc).Some?
  {
    if loc == [] then v
    else Put(j, loc[0], PutAt(Child(j, loc[0]).value, loc[1..], v))
  }

  lemma {:induction false} ReadPutAt(j: Json, loc: Location, v: Json)
    requires ReadAt(j, loc).Some?
    ensures ReadAt(PutAt(j, loc, v), loc) == Some(v)
  {
    if loc != [] {
      ReadPutAt(Child(j, loc[0]).value, loc[1..], v);
    }
  }

  lemma PutTwice(j: Json, step: Step, v: Json, w: Json)
    requires Addressable(j, step)
    ensures Put(Put(j, step, v), step, w) == Put(j, step, w)
  {
  }

  lemma {:induction false} PutAtTwice(j: Json, loc: Location, v: Json, w: Json)
    requires ReadAt(j, loc).Some?
    ensures ReadAt(PutAt(j, loc, v), loc).Some?
    ensures PutAt(PutAt(j, loc, v), loc, w) == PutAt(j, loc, w)
  {
    ReadPutAt(j, loc, v);
    if loc != [] {
      var child := Child(j, loc[0]).value;
      PutAtTwice(child, loc[1..], v, w);
      PutTwice(j, loc[0], PutAt(child, loc[1..], v), PutAt(child, loc[1..], w));
    }
  }

  /** One more step down: replacing below a node is replacing the node by itself with
      that child replaced. */
  lemma {:induction false} PutAtBelow(j: Json, loc: Location, step: Step, v: Json)
    requires ReadAt(j, loc).Some? && Child(ReadAt(j, loc).value, step).Some?
    ensures ReadAt(j, loc + [step]) == Child(ReadAt(j, loc).value, step)
    ensures PutAt(j, loc + [step], v) == PutAt(j, loc, Put(ReadAt(j, loc).value, step, v))
  {
    ReadAtConcat(j, loc, [step]);
    if loc == [] {
      assert loc + [step] == [step] && [step][1..] == [];
    } else {
      assert (loc + [step])[1..] == loc[1..] + [step];
      PutAtBelow(Child(j, loc[0]).value, loc[1..], step, v);
    }
  }
}
