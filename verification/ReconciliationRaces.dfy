/** Reconciliation runs that overlap: workers look for an object's event, capture it and write
    their items in any interleaving, while events keep coming in. The capture transaction looks
    for an event with its deduplication key, which is made from the object's id, before it
    inserts one. */
module ReconciliationRaces {
  import opened Text

  type Id = string

  /** `seen` is how many events there were when the capturing run looked; nothing reads it. */
  datatype Event = Received(obj: Id) | Recovered(obj: Id, asked: Id, seen: nat)

  datatype Outcome = Matched(event: nat) | Missing | Captured(event: nat) | Failed

  /** `target` is the object whose payload was looked up. */
  datatype Item = Item(obj: Id, target: Id, outcome: Outcome)

  datatype Phase = Idle | Looked(obj: Id, seen: nat) | Decided(item: Item)

  datatype State = State(events: seq<Event>, workers: map<nat, Phase>, items: seq<Item>)

  const INITIAL := State([], map[], [])

  datatype Step =
    | Receive(obj: Id)
    | Find(worker: nat, obj: Id, captureMissing: bool)
    | Capture(worker: nat, target: Id)
    | GiveUp(worker: nat)
    | Insert(worker: nat)
    | Cut(worker: nat)

  function PhaseOf(s: State, worker: nat): Phase {
    if worker in s.workers then s.workers[worker] else Idle
  }

  function At(s: State, worker: nat, phase: Phase): State {
    s.(workers := s.workers[worker := phase])
  }

  /** The first event of an object, as `FindLocalProviderEvent` finds it. */
  function FirstEvent(events: seq<Event>, obj: Id): (r: Option<nat>)
    ensures r.Some? ==> r.value < |events| && events[r.value].obj == obj
    ensures r.None? ==> forall i | 0 <= i < |events| :: events[i].obj != obj
    decreases |events|
  {
    if events == [] then None
    else
      var n := |events| - 1;
      var before := FirstEvent(events[..n], obj);
      if before.Some? then before else if events[n].obj == obj then Some(n) else None
  }

  /** The event with the deduplication key of an object. */
  function WithKey(events: seq<Event>, obj: Id): (r: Option<nat>)
    ensures r.Some? ==> r.value < |events| && events[r.value].Recovered? && events[r.value].obj == obj
    ensures r.None? ==> forall i | 0 <= i < |events| :: !(events[i].Recovered? && events[i].obj == obj)
    decreases |events|
  {
    if events == [] then None
    else
      var n := |events| - 1;
      var before := WithKey(events[..n], obj);
      if before.Some? then before else if events[n].Recovered? && events[n].obj == obj then Some(n) else None
  }

  /** One call; `None` where the worker is not at that point. */
  function Next(s: State, step: Step): Option<State> {
    match step
    case Receive(obj) => Some(s.(events := s.events + [Received(obj)]))
    case Find(w, obj, captureMissing) =>
      if !PhaseOf(s, w).Idle? then None
      else
        var found := FirstEvent(s.events, obj);
        if found.Some? then Some(At(s, w, Decided(Item(obj, obj, Matched(found.value)))))
        else if captureMissing then Some(At(s, w, Looked(obj, |s.events|)))
        else Some(At(s, w, Decided(Item(obj, obj, Missing))))
    case Capture(w, target) =>
      if !PhaseOf(s, w).Looked? then None
      else
        var p := PhaseOf(s, w);
        var existing := WithKey(s.events, target);
        if existing.Some? then Some(At(s, w, Decided(Item(p.obj, target, Captured(existing.value)))))
        else
          Some(At(s.(events := s.events + [Recovered(target, p.obj, p.seen)]), w,
                  Decided(Item(p.obj, target, Captured(|s.events|)))))
    case GiveUp(w) =>
      if !PhaseOf(s, w).Looked? then None
      else Some(At(s, w, Decided(Item(PhaseOf(s, w).obj, PhaseOf(s, w).obj, Failed))))
    case Insert(w) =>
      if !PhaseOf(s, w).Decided? then None
      else Some(At(s.(items := s.items + [PhaseOf(s, w).item]), w, Idle))
    case Cut(w) => Some(At(s, w, Idle))
  }

  function Run(s: State, steps: seq<Step>): Option<State>
    decreases |steps|
  {
    if steps == [] then Some(s)
    else if Next(s, steps[0]).None? then None
    else Run(Next(s, steps[0]).value, steps[1..])
  }

  // ----- what every step keeps -----

  ghost predicate OneRecovered(events: seq<Event>) {
    forall i, j | 0 <= i < j < |events| && events[i].Recovered? && events[j].Recovered? :: events[i].obj != events[j].obj
  }

  /** What an item says about the events. */
  ghost predicate Tells(events: seq<Event>, x: Item) {
    && (x.outcome.Matched? ==> x.outcome.event < |events| && events[x.outcome.event].obj == x.obj)
    && (x.outcome.Captured? ==>
          x.outcome.event < |events| && events[x.outcome.event].Recovered? && events[x.outcome.event].obj == x.target)
  }

  /** A run that captures found no event of the object it asked for when it looked. */
  ghost predicate NoneBefore(events: seq<Event>, obj: Id, seen: nat) {
    seen <= |events| && forall i | 0 <= i < seen :: events[i].obj != obj
  }

  ghost predicate PhaseSound(events: seq<Event>, p: Phase) {
    match p
    case Idle => true
    case Looked(obj, seen) => NoneBefore(events, obj, seen)
    case Decided(item) => Tells(events, item)
  }

  ghost predicate Inv(s: State) {
    && OneRecovered(s.events)
    && (forall k | 0 <= k < |s.events| && s.events[k].Recovered? :: s.events[k].seen <= k && NoneBefore(s.events, s.events[k].asked, s.events[k].seen))
    && (forall w | w in s.workers :: PhaseSound(s.events, s.workers[w]))
    && (forall k | 0 <= k < |s.items| :: Tells(s.events, s.items[k]))
  }

  /** Nothing that holds of the events stops holding when one is added. */
  lemma Grows(s: State, e: Event)
    requires Inv(s) && (e.Recovered? ==> WithKey(s.events, e.obj).None? && NoneBefore(s.events, e.asked, e.seen))
    ensures Inv(s.(events := s.events + [e]))
  {
    var s' := s.(events := s.events + [e]);
    assert forall i | 0 <= i < |s.events| :: s'.events[i] == s.events[i];
    forall w | w in s.workers
      ensures PhaseSound(s'.events, s.workers[w])
    {
      assert PhaseSound(s.events, s.workers[w]);
    }
    forall k | 0 <= k < |s.items|
      ensures Tells(s'.events, s.items[k])
    {
      assert Tells(s.events, s.items[k]);
    }
    hide FirstEvent, WithKey;
  }

  lemma Moves(s: State, w: nat, p: Phase)
    requires Inv(s) && PhaseSound(s.events, p)
    ensures Inv(At(s, w, p))
  {
  }

  lemma StepKeeps(s: State, step: Step)
    requires Inv(s) && Next(s, step).Some?
    ensures Inv(Next(s, step).value)
  {
    hide Inv, FirstEvent, WithKey;
    match step
    case Receive(obj) => Grows(s, Received(obj));
    case Find(w, obj, captureMissing) =>
      if FirstEvent(s.events, obj).Some? {
        Moves(s, w, Decided(Item(obj, obj, Matched(FirstEvent(s.events, obj).value))));
      } else {
        Moves(s, w, if captureMissing then Looked(obj, |s.events|) else Decided(Item(obj, obj, Missing)));
      }
    case Capture(w, target) =>
      var p := PhaseOf(s, w);
      Sound(s, w);
      if WithKey(s.events, target).Some? {
        Moves(s, w, Decided(Item(p.obj, target, Captured(WithKey(s.events, target).value))));
      } else {
        Grows(s, Recovered(target, p.obj, p.seen));
        var s' := s.(events := s.events + [Recovered(target, p.obj, p.seen)]);
        Moves(s', w, Decided(Item(p.obj, target, Captured(|s.events|))));
      }
    case GiveUp(w) => Moves(s, w, Decided(Item(PhaseOf(s, w).obj, PhaseOf(s, w).obj, Failed)));
    case Insert(w) =>
      Sound(s, w);
      Noted(s, PhaseOf(s, w).item);
      Moves(s.(items := s.items + [PhaseOf(s, w).item]), w, Idle);
    case Cut(w) => Moves(s, w, Idle);
  }

  lemma Sound(s: State, w: nat)
    requires Inv(s)
    ensures PhaseSound(s.events, PhaseOf(s, w))
  {
  }

  lemma Noted(s: State, item: Item)
    requires Inv(s) && Tells(s.events, item)
    ensures Inv(s.(items := s.items + [item]))
  {
  }

  lemma {:induction false} RunKeeps(s: State, steps: seq<Step>)
    requires Inv(s) && Run(s, steps).Some?
    ensures Inv(Run(s, steps).value)
    decreases |steps|
  {
    hide Inv, Next;
    if steps != [] {
      StepKeeps(s, steps[0]);
      RunKeeps(Next(s, steps[0]).value, steps[1..]);
    }
  }

  // ----- guarantees over all interleavings -----

  predicate SameCapture(x: Item, y: Item) {
    x.outcome.Captured? && y.outcome.Captured? && x.target == y.target
  }

  /** However runs overlap, and whatever lookups answer, an object gets one recovered event, and
      all items that report its capture name that event. */
  lemma OneEventPerObject(steps: seq<Step>, a: nat, b: nat)
    requires Run(INITIAL, steps).Some?
    ensures OneRecovered(Run(INITIAL, steps).value.events)
    ensures var items := Run(INITIAL, steps).value.items;
            a < |items| && b < |items| && SameCapture(items[a], items[b]) ==> items[a].outcome == items[b].outcome
  {
    RunKeeps(INITIAL, steps);
    var s := Run(INITIAL, steps).value;
    if a < |s.items| && b < |s.items| {
      assert Tells(s.events, s.items[a]) && Tells(s.events, s.items[b]);
    }
  }

  /** A recovered event can have an earlier event of the same object beside it only if that one
      came in between the look and the capture of the run that recovered it; provided the lookup
      kept the id. */
  lemma DuplicatesComeInBetween(steps: seq<Step>, i: nat, k: nat)
    requires Run(INITIAL, steps).Some? && i < k < |Run(INITIAL, steps).value.events|
    requires var events := Run(INITIAL, steps).value.events;
             events[k].Recovered? && events[k].asked == events[k].obj && events[i].obj == events[k].obj
    ensures var events := Run(INITIAL, steps).value.events;
            events[i].Received? && events[k].seen <= i
  {
    RunKeeps(INITIAL, steps);
  }

  lemma {:induction false} RunThen(s: State, steps: seq<Step>, step: Step)
    requires Run(s, steps).Some?
    ensures Run(s, steps + [step]) == Next(Run(s, steps).value, step)
    decreases |steps|
  {
    hide Next;
    var all := steps + [step];
    if steps == [] {
      assert all[0] == step && all[1..] == [];
    } else {
      assert all[0] == steps[0] && all[1..] == steps[1..] + [step];
      RunThen(Next(s, steps[0]).value, steps[1..], step);
    }
  }

  lemma Then(steps: seq<Step>, step: Step, s: State, s': State)
    requires Run(INITIAL, steps) == Some(s) && Next(s, step) == Some(s')
    ensures Run(INITIAL, steps + [step]) == Some(s')
  {
    hide Next, Run;
    RunThen(INITIAL, steps, step);
  }

  const OVERLAP := [Find(1, "o", true), Find(2, "o", true), Capture(1, "o"), Capture(2, "o"), Insert(1), Insert(2)]

  const EVENT := Recovered("o", "o", 0)
  const ITEM := Item("o", "o", Captured(0))

  const BOTH_LOOKED := State([], map[1 := Looked("o", 0), 2 := Looked("o", 0)], [])
  const BOTH_CAPTURED := State([EVENT], map[1 := Decided(ITEM), 2 := Decided(ITEM)], [])
  const BOTH_REPORTED := State([EVENT], map[1 := Idle, 2 := Idle], [ITEM, ITEM])

  lemma Looking()
    ensures Run(INITIAL, [] + [OVERLAP[0]] + [OVERLAP[1]]) == Some(BOTH_LOOKED)
  {
    var s := State([], map[1 := Looked("o", 0)], []);
    assert Run(INITIAL, []) == Some(INITIAL);
    assert s.workers[2 := Looked("o", 0)] == BOTH_LOOKED.workers;
    assert Next(INITIAL, OVERLAP[0]) == Some(s) && Next(s, OVERLAP[1]) == Some(BOTH_LOOKED);
    hide Run, Next;
    Then([], OVERLAP[0], INITIAL, s);
    Then([] + [OVERLAP[0]], OVERLAP[1], s, BOTH_LOOKED);
  }

  lemma Capturing(steps: seq<Step>)
    requires Run(INITIAL, steps) == Some(BOTH_LOOKED)
    ensures Run(INITIAL, steps + [OVERLAP[2]] + [OVERLAP[3]]) == Some(BOTH_CAPTURED)
  {
    var s := State([EVENT], map[1 := Decided(ITEM), 2 := Looked("o", 0)], []);
    assert WithKey([EVENT], "o") == Some(0) by { assert WithKey([EVENT], "o").Some?; }
    assert BOTH_LOOKED.workers[1 := Decided(ITEM)] == s.workers && s.workers[2 := Decided(ITEM)] == BOTH_CAPTURED.workers;
    assert BOTH_LOOKED.events + [EVENT] == s.events;
    assert Next(BOTH_LOOKED, OVERLAP[2]) == Some(s);
    assert Next(s, OVERLAP[3]) == Some(BOTH_CAPTURED);
    hide Run, Next;
    Then(steps, OVERLAP[2], BOTH_LOOKED, s);
    Then(steps + [OVERLAP[2]], OVERLAP[3], s, BOTH_CAPTURED);
  }

  lemma Reporting(steps: seq<Step>)
    requires Run(INITIAL, steps) == Some(BOTH_CAPTURED)
    ensures Run(INITIAL, steps + [OVERLAP[4]] + [OVERLAP[5]]) == Some(BOTH_REPORTED)
  {
    var s := State([EVENT], map[1 := Idle, 2 := Decided(ITEM)], [ITEM]);
    assert BOTH_CAPTURED.workers[1 := Idle] == s.workers && s.workers[2 := Idle] == BOTH_REPORTED.workers;
    assert BOTH_CAPTURED.items + [ITEM] == s.items && s.items + [ITEM] == BOTH_REPORTED.items;
    assert Next(BOTH_CAPTURED, OVERLAP[4]) == Some(s);
    assert Next(s, OVERLAP[5]) == Some(BOTH_REPORTED);
    hide Run, Next;
    Then(steps, OVERLAP[4], BOTH_CAPTURED, s);
    Then(steps + [OVERLAP[4]], OVERLAP[5], s, BOTH_REPORTED);
  }

  /** Two overlapping runs can both report the capture: there is still one event. */
  lemma OverlapReportsTwice()
    ensures Run(INITIAL, OVERLAP).Some?
    ensures var s := Run(INITIAL, OVERLAP).value;
            s.events == [Recovered("o", "o", 0)] && s.items == [Item("o", "o", Captured(0)), Item("o", "o", Captured(0))]
  {
    hide Run;
    var o := OVERLAP;
    Looking();
    Capturing([] + [o[0]] + [o[1]]);
    Reporting([] + [o[0]] + [o[1]] + [o[2]] + [o[3]]);
    assert [] + [o[0]] + [o[1]] + [o[2]] + [o[3]] + [o[4]] + [o[5]] == o;
  }
}
