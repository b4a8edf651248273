/** The evaluator of `LogicBoard.runSimulation`: sweep the gate list in order,
    each gate seeing the outputs already updated earlier in the same sweep,
    until a sweep changes nothing or 50 sweeps have run. */
module Simulation {
  import opened Options
  import opened LogicGate

  /** The sweep cap of `runSimulation`. */
  const MaxSweeps: nat := 50

  /** The gate list after the first `k` gates of one sweep have been evaluated in place. */
  function SweepPrefix(gs: seq<Gate>, k: nat): (r: seq<Gate>)
    requires k <= |gs|
    ensures SameShapes(r, gs)
    ensures forall j :: k <= j < |gs| ==> r[j] == gs[j]
    ensures forall j :: 0 <= j < |gs| && gs[j].kind == SWITCH ==> r[j] == gs[j]
  {
    if k == 0 then gs
    else
      var s := SweepPrefix(gs, k - 1);
      s[k - 1 := Evaluate(s[k - 1], s)]
  }

  /** One sweep of `runSimulation`: every gate evaluated once, in list order. */
  function Sweep(gs: seq<Gate>): (r: seq<Gate>)
    ensures SameShapes(r, gs)
    ensures forall j :: 0 <= j < |gs| && gs[j].kind == SWITCH ==> r[j] == gs[j]
  {
    SweepPrefix(gs, |gs|)
  }

  /** Some gate's output bit differs between the two lists. */
  predicate Changed(before: seq<Gate>, after: seq<Gate>)
    requires |before| == |after|
  {
    exists j :: 0 <= j < |before| && before[j].outputState != after[j].outputState
  }

  /** Every gate already equals its own evaluation: a fixed point of the evaluator. */
  predicate Stable(gs: seq<Gate>)
  {
    forall i :: 0 <= i < |gs| ==> Evaluate(gs[i], gs) == gs[i]
  }

  /** The gates a run ends with and the number of sweeps it took. */
  datatype Run = Run(gates: seq<Gate>, sweeps: nat)

  /** The sweeps still to come once `done` sweeps have run and the last one changed something. */
  function Settle(gs: seq<Gate>, done: nat): (r: Run)
    requires done < MaxSweeps
    ensures done < r.sweeps <= MaxSweeps
    ensures SameShapes(r.gates, gs)
    ensures forall j :: 0 <= j < |gs| && gs[j].kind == SWITCH ==> r.gates[j] == gs[j]
    decreases MaxSweeps - done
  {
    var next := Sweep(gs);
    if Changed(gs, next) && done + 1 < MaxSweeps then Settle(next, done + 1)
    else Run(next, done + 1)
  }

  /** The whole `while (changed && limit < 50)` loop of `runSimulation`. */
  function Simulate(gs: seq<Gate>): (r: Run)
    ensures 1 <= r.sweeps <= MaxSweeps
    ensures SameShapes(r.gates, gs)
    ensures forall j :: 0 <= j < |gs| && gs[j].kind == SWITCH ==> r.gates[j] == gs[j]
  {
    Settle(gs, 0)
  }

  /** Where a run stands after `limit` sweeps, `changed` telling whether the
      last of them changed something: the loop test decides whether it goes on. */
  function Resume(gs: seq<Gate>, changed: bool, limit: nat): Run
    requires limit <= MaxSweeps
  {
    if changed && limit < MaxSweeps then Settle(gs, limit) else Run(gs, limit)
  }

  /** Some gate below position `i` has a different output bit in the two lists. */
  predicate ChangedBelow(before: seq<Gate>, after: seq<Gate>, i: nat)
    requires i <= |before| == |after|
  {
    exists j :: 0 <= j < i && before[j].outputState != after[j].outputState
  }

  /** Where a sweep over `before` stands after `i` gates: the list as the
      sweep has left it, and whether any of those gates changed. */
  predicate SweptTo(before: seq<Gate>, gs: seq<Gate>, i: nat, changed: bool)
  {
    i <= |before| && gs == SweepPrefix(before, i) && changed == ChangedBelow(before, gs, i)
  }

  /** One more gate of a sweep: it is evaluated over the list as the sweep has
      left it so far, and it changed exactly when its bit differs from before. */
  lemma SweepStep(before: seq<Gate>, gs: seq<Gate>, i: nat, changed: bool)
    requires SweptTo(before, gs, i, changed) && i < |before|
    ensures |gs| == |before|
    ensures var next := gs[i := Evaluate(gs[i], gs)];
            SweptTo(before, next, i + 1, changed || next[i].outputState != gs[i].outputState)
  {
    var next := gs[i := Evaluate(gs[i], gs)];
    if ChangedBelow(before, next, i + 1) {
      var j :| 0 <= j < i + 1 && before[j].outputState != next[j].outputState;
      if j < i {
        assert before[j].outputState != gs[j].outputState;
      }
    }
    if ChangedBelow(before, gs, i) {
      var j :| 0 <= j < i && before[j].outputState != gs[j].outputState;
      assert before[j].outputState != next[j].outputState;
    }
  }

  /** A sweep that has passed every gate is the whole sweep. */
  lemma SweptAll(before: seq<Gate>, gs: seq<Gate>, changed: bool)
    requires SweptTo(before, gs, |before|, changed)
    ensures gs == Sweep(before) && changed == Changed(before, gs)
  {
  }

  /** A run that goes on after `limit` sweeps continues with the next sweep. */
  lemma ResumeAfterSweep(before: seq<Gate>, gs: seq<Gate>, changed: bool, limit: nat)
    requires limit < MaxSweeps && gs == Sweep(before) && changed == Changed(before, gs)
    ensures Resume(gs, changed, limit + 1) == Settle(before, limit)
  {
  }

  /** Two gates of the same shape with the same output bit are the same gate. */
  lemma ShapeAndOutputDetermine(gs: seq<Gate>, hs: seq<Gate>)
    requires SameShapes(gs, hs)
    requires forall j :: 0 <= j < |gs| ==> gs[j].outputState == hs[j].outputState
    ensures gs == hs
  {
  }

  /** Positions before `k` are final once the sweep has passed them. */
  lemma {:induction false} SweepPrefixKeepsDone(gs: seq<Gate>, k: nat, m: nat)
    requires k <= m <= |gs|
    ensures forall j :: 0 <= j < k ==> SweepPrefix(gs, m)[j] == SweepPrefix(gs, k)[j]
    decreases m
  {
    if m > k {
      SweepPrefixKeepsDone(gs, k, m - 1);
    }
  }

  /** A sweep that changes no output bit leaves the list as it was, and then
      every gate equals its own evaluation. */
  lemma {:induction false} UnchangedSweepIsStable(gs: seq<Gate>)
    requires !Changed(gs, Sweep(gs))
    ensures Sweep(gs) == gs
    ensures Stable(gs)
  {
    var n := |gs|;
    ShapeAndOutputDetermine(Sweep(gs), gs);
    forall k | 0 <= k < n
      ensures Evaluate(gs[k], gs) == gs[k]
    {
      var p := SweepPrefix(gs, k);
      assert p == gs by {
        SweepPrefixKeepsDone(gs, k, n);
        forall j | 0 <= j < n ensures p[j] == gs[j] {
          if j < k {
            assert p[j] == Sweep(gs)[j];
          }
        }
      }
      SweepPrefixKeepsDone(gs, k + 1, n);
      assert SweepPrefix(gs, k + 1)[k] == Sweep(gs)[k];
    }
  }

  /** Every step of a sweep over a stable list leaves it as it is. */
  lemma {:induction false} StableSweepPrefix(gs: seq<Gate>, k: nat)
    requires Stable(gs) && k <= |gs|
    ensures SweepPrefix(gs, k) == gs
    decreases k
  {
    if k > 0 {
      StableSweepPrefix(gs, k - 1);
    }
  }

  /** A run stops before the cap only at a fixed point: every gate then
      equals its own evaluation. */
  lemma {:induction false} SettleStopsAtFixedPoint(gs: seq<Gate>, done: nat)
    requires done < MaxSweeps
    requires Settle(gs, done).sweeps < MaxSweeps
    ensures Stable(Settle(gs, done).gates)
    ensures !Changed(Settle(gs, done).gates, Sweep(Settle(gs, done).gates))
    decreases MaxSweeps - done
  {
    var next := Sweep(gs);
    if Changed(gs, next) && done + 1 < MaxSweeps {
      SettleStopsAtFixedPoint(next, done + 1);
    } else {
      assert !Changed(gs, next);
      UnchangedSweepIsStable(gs);
    }
  }

  /** `runSimulation` ends at a fixed point whenever it stops before 50 sweeps. */
  lemma SimulateStopsAtFixedPoint(gs: seq<Gate>)
    requires Simulate(gs).sweeps < MaxSweeps
    ensures Stable(Simulate(gs).gates)
  {
    SettleStopsAtFixedPoint(gs, 0);
  }

  /** On a list that is already a fixed point, a run is one sweep that changes nothing. */
  lemma SimulateStable(gs: seq<Gate>)
    requires Stable(gs)
    ensures Simulate(gs) == Run(gs, 1)
  {
    StableSweepPrefix(gs, |gs|);
  }

  /** Running the evaluator again after it settled changes nothing. */
  lemma SimulateIdempotent(gs: seq<Gate>)
    requires Simulate(gs).sweeps < MaxSweeps
    ensures Simulate(Simulate(gs).gates).gates == Simulate(gs).gates
  {
    SimulateStopsAtFixedPoint(gs);
    SimulateStable(Simulate(gs).gates);
  }

  /** When one sweep already reaches a fixed point, the run shows that sweep's result. */
  lemma SimulateOneSweep(gs: seq<Gate>)
    requires Stable(Sweep(gs))
    ensures Simulate(gs).gates == Sweep(gs)
    ensures Simulate(gs).sweeps <= 2
  {
    StableSweepPrefix(Sweep(gs), |gs|);
  }

  /** A NOT gate at position `p` whose first slot names the gate itself. */
  predicate SelfFedNot(gs: seq<Gate>, p: nat)
  {
    p < |gs| && gs[p].kind == NOT && gs[p].input0 == Some(gs[p].id)
  }

  /** Whatever else the board holds, one sweep flips a self-fed NOT gate: when
      the sweep reaches it, its own slot still reads its bit from before. */
  lemma SweepFlipsSelfFed(gs: seq<Gate>, p: nat)
    requires UniqueIds(gs) && SelfFedNot(gs, p)
    ensures SelfFedNot(Sweep(gs), p) && UniqueIds(Sweep(gs))
    ensures Sweep(gs)[p].outputState == !gs[p].outputState
  {
    var q := SweepPrefix(gs, p);
    assert q[p] == gs[p];
    assert UniqueIds(q) by {
      forall i, j | 0 <= i < j < |q| ensures q[i].id != q[j].id {
        assert SameShape(q[i], gs[i]) && SameShape(q[j], gs[j]);
      }
    }
    FindListed(q, p);
    PrefixNext(gs, p, q, Evaluate(q[p], q));
    SweepPrefixKeepsDone(gs, p + 1, |gs|);
    var r := Sweep(gs);
    assert SameShape(r[p], gs[p]);
    forall i, j | 0 <= i < j < |r| ensures r[i].id != r[j].id {
      assert SameShape(r[i], gs[i]) && SameShape(r[j], gs[j]);
    }
  }

  /** A self-fed NOT gate anywhere on a board with distinct ids: every sweep
      flips it, so every run reaches the cap, and the gate's bit at the end is
      set by the parity of the sweeps left. */
  lemma {:induction false} SelfFedNotHitsCap(gs: seq<Gate>, p: nat, done: nat)
    requires UniqueIds(gs) && SelfFedNot(gs, p) && done < MaxSweeps
    ensures Settle(gs, done).sweeps == MaxSweeps
    ensures Settle(gs, done).gates[p].outputState ==
            if (MaxSweeps - done) % 2 == 0 then gs[p].outputState else !gs[p].outputState
    decreases MaxSweeps - done
  {
    var next := Sweep(gs);
    SweepFlipsSelfFed(gs, p);
    assert Changed(gs, next) by { assert gs[p].outputState != next[p].outputState; }
    assert ((MaxSweeps - (done + 1)) % 2 == 0) == ((MaxSweeps - done) % 2 != 0);
    if done + 1 < MaxSweeps {
      SelfFedNotHitsCap(next, p, done + 1);
    }
  }

  /** A board holding a self-fed NOT gate never settles: `runSimulation` stops
      at the cap of 50 sweeps, with that gate's bit as it was before the run. */
  lemma SelfFedNotNeverSettles(gs: seq<Gate>, p: nat)
    requires UniqueIds(gs) && SelfFedNot(gs, p)
    ensures Simulate(gs).sweeps == MaxSweeps
    ensures Simulate(gs).gates[p] == gs[p]
  {
    var r := Settle(gs, 0);
    assert Simulate(gs) == r;
    assert (MaxSweeps - 0) % 2 == 0;
    SelfFedNotHitsCap(gs, p, 0);
    assert SameShape(r.gates[p], gs[p]) && r.gates[p].outputState == gs[p].outputState;
  }

  /** One gate of a sweep, evaluated over the list as the sweep has left it. */
  lemma PrefixNext(gs: seq<Gate>, k: nat, p: seq<Gate>, g: Gate)
    requires k < |gs| && p == SweepPrefix(gs, k) && Evaluate(p[k], p) == g
    ensures SweepPrefix(gs, k + 1) == p[k := g]
  {
  }

  /** SWITCH, then NOT, then LIGHT, listed in that order: the light shows the
      negation of the switch. */
  lemma SwitchNotLight(s: GateId, n: GateId, l: GateId, on: bool, bn: bool, bl: bool)
    requires s != n && n != l && s != l
    ensures Simulate([Gate(s, SWITCH, None, None, on),
                      Gate(n, NOT, Some(s), None, bn),
                      Gate(l, LIGHT, Some(n), None, bl)]).gates[2].outputState == !on
  {
    var g0, h1 := Gate(s, SWITCH, None, None, on), Gate(n, NOT, Some(s), None, !on);
    var gs := [g0, Gate(n, NOT, Some(s), None, bn), Gate(l, LIGHT, Some(n), None, bl)];
    var done := [g0, h1, Gate(l, LIGHT, Some(n), None, !on)];
    SwitchNotSweep(gs, done, [g0, h1, gs[2]]);
    SwitchNotStable(s, n, l, on);
    SimulateOneSweep(gs);
  }

  lemma SwitchNotStable(s: GateId, n: GateId, l: GateId, on: bool)
    requires s != n && n != l && s != l
    ensures Stable([Gate(s, SWITCH, None, None, on), Gate(n, NOT, Some(s), None, !on),
                    Gate(l, LIGHT, Some(n), None, !on)])
  {
    var done := [Gate(s, SWITCH, None, None, on), Gate(n, NOT, Some(s), None, !on),
                 Gate(l, LIGHT, Some(n), None, !on)];
    ReadFirst(done, 0);
    ReadFirst(done, 1);
  }

  lemma SwitchNotSweep(gs: seq<Gate>, done: seq<Gate>, p2: seq<Gate>)
    requires |gs| == 3 && gs[0].kind == SWITCH && gs[1].kind == NOT && gs[2].kind == LIGHT
    requires gs[0].id != gs[1].id && gs[1].input0 == Some(gs[0].id) && gs[2].input0 == Some(gs[1].id)
    requires p2 == gs[1 := gs[1].(outputState := !gs[0].outputState)]
    requires done == p2[2 := gs[2].(outputState := !gs[0].outputState)]
    ensures Sweep(gs) == done
  {
    PrefixNext(gs, 0, gs, gs[0]);
    ReadFirst(gs, 0);
    PrefixNext(gs, 1, gs, p2[1]);
    ReadFirst(p2, 1);
    PrefixNext(gs, 2, p2, done[2]);
  }
  /** A SWITCH and an AND gate with one input wired to the switch and the
      other left empty, then a LIGHT on the AND: the light stays off whatever
      the switch says, because the empty slot reads false. */
  lemma SwitchAndOpenSlotLight(s: GateId, a: GateId, l: GateId, on: bool, ba: bool, bl: bool)
    requires s != a && a != l && s != l
    ensures !Simulate([Gate(s, SWITCH, None, None, on),
                       Gate(a, AND, Some(s), None, ba),
                       Gate(l, LIGHT, Some(a), None, bl)]).gates[2].outputState
  {
    var g0, h1 := Gate(s, SWITCH, None, None, on), Gate(a, AND, Some(s), None, false);
    var gs := [g0, Gate(a, AND, Some(s), None, ba), Gate(l, LIGHT, Some(a), None, bl)];
    var done := [g0, h1, Gate(l, LIGHT, Some(a), None, false)];
    OpenSlotSweep(gs, done, [g0, h1, gs[2]]);
    OpenSlotStable(s, a, l, on);
    SimulateOneSweep(gs);
  }

  lemma OpenSlotStable(s: GateId, a: GateId, l: GateId, on: bool)
    requires s != a && a != l && s != l
    ensures Stable([Gate(s, SWITCH, None, None, on), Gate(a, AND, Some(s), None, false),
                    Gate(l, LIGHT, Some(a), None, false)])
  {
    var done := [Gate(s, SWITCH, None, None, on), Gate(a, AND, Some(s), None, false),
                 Gate(l, LIGHT, Some(a), None, false)];
    ReadFirst(done, 1);
  }

  lemma OpenSlotSweep(gs: seq<Gate>, done: seq<Gate>, p2: seq<Gate>)
    requires |gs| == 3 && gs[0].kind == SWITCH && gs[1].kind == AND && gs[2].kind == LIGHT
    requires gs[1].input1 == None && gs[2].input0 == Some(gs[1].id) && gs[0].id != gs[1].id
    requires p2 == gs[1 := gs[1].(outputState := false)]
    requires done == p2[2 := gs[2].(outputState := false)]
    ensures Sweep(gs) == done
  {
    PrefixNext(gs, 0, gs, gs[0]);
    PrefixNext(gs, 1, gs, p2[1]);
    ReadFirst(p2, 1);
    PrefixNext(gs, 2, p2, done[2]);
  }

  /** The same circuit with a second SWITCH wired into the AND's other slot:
      with both switches on, the light comes on. */
  lemma TwoSwitchesAndLight(s1: GateId, s2: GateId, a: GateId, l: GateId, ba: bool, bl: bool)
    requires s1 != s2 && s1 != a && s1 != l && s2 != a && s2 != l && a != l
    ensures Simulate([Gate(s1, SWITCH, None, None, true),
                      Gate(s2, SWITCH, None, None, true),
                      Gate(a, AND, Some(s1), Some(s2), ba),
                      Gate(l, LIGHT, Some(a), None, bl)]).gates[3].outputState
  {
    var g0, g1 := Gate(s1, SWITCH, None, None, true), Gate(s2, SWITCH, None, None, true);
    var h2 := Gate(a, AND, Some(s1), Some(s2), true);
    var gs := [g0, g1, Gate(a, AND, Some(s1), Some(s2), ba), Gate(l, LIGHT, Some(a), None, bl)];
    var done := [g0, g1, h2, Gate(l, LIGHT, Some(a), None, true)];
    TwoSwitchesSweep(gs, done, [g0, g1, h2, gs[3]]);
    TwoSwitchesStable(s1, s2, a, l);
    SimulateOneSweep(gs);
  }

  lemma TwoSwitchesStable(s1: GateId, s2: GateId, a: GateId, l: GateId)
    requires s1 != s2 && s1 != a && s1 != l && s2 != a && s2 != l && a != l
    ensures Stable([Gate(s1, SWITCH, None, None, true), Gate(s2, SWITCH, None, None, true),
                    Gate(a, AND, Some(s1), Some(s2), true), Gate(l, LIGHT, Some(a), None, true)])
  {
    var done := [Gate(s1, SWITCH, None, None, true), Gate(s2, SWITCH, None, None, true),
                 Gate(a, AND, Some(s1), Some(s2), true), Gate(l, LIGHT, Some(a), None, true)];
    ReadFirst(done, 0);
    ReadFirst(done, 1);
    ReadFirst(done, 2);
  }

  lemma TwoSwitchesSweep(gs: seq<Gate>, done: seq<Gate>, p3: seq<Gate>)
    requires |gs| == 4 && gs[0].kind == SWITCH && gs[1].kind == SWITCH && gs[2].kind == AND && gs[3].kind == LIGHT
    requires gs[0].id != gs[1].id && gs[0].id != gs[2].id && gs[1].id != gs[2].id
    requires gs[2].input0 == Some(gs[0].id) && gs[2].input1 == Some(gs[1].id) && gs[3].input0 == Some(gs[2].id)
    requires p3 == gs[2 := gs[2].(outputState := gs[0].outputState && gs[1].outputState)]
    requires done == p3[3 := gs[3].(outputState := p3[2].outputState)]
    ensures Sweep(gs) == done
  {
    PrefixNext(gs, 0, gs, gs[0]);
    PrefixNext(gs, 1, gs, gs[1]);
    ReadFirst(gs, 0);
    ReadFirst(gs, 1);
    PrefixNext(gs, 2, gs, p3[2]);
    ReadFirst(p3, 2);
    PrefixNext(gs, 3, p3, done[3]);
  }
}
