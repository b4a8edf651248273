/** The board's gate and wire lists and the changes `LogicBoard` makes to
    them (script.js), as functions on a value. The class `LogicBoard` in
    module Board performs these changes in place and is proved to match them. */
module BoardLogic {
  import opened Options
  import opened LogicGate
  import opened Simulation

  type WireId = nat

  /** A wire record `{id, fromGate, toGate, toInputIndex}`. */
  datatype Wire = Wire(id: WireId, fromGate: GateId, toGate: GateId, toInputIndex: SlotIndex)

  /** The board's two lists, `this.gates` and `this.wires`. */
  datatype Circuit = Circuit(gates: seq<Gate>, wires: seq<Wire>)

  predicate UniqueWireIds(ws: seq<Wire>)
  {
    forall i, j :: 0 <= i < j < |ws| ==> ws[i].id != ws[j].id
  }

  predicate WireIdIn(ws: seq<Wire>, id: WireId)
  {
    exists k :: 0 <= k < |ws| && ws[k].id == id
  }

  /** Some wire of `ws` runs from gate `src` into slot `s` of gate `tgt`. */
  predicate Backed(ws: seq<Wire>, src: GateId, tgt: GateId, s: SlotIndex)
  {
    exists k :: 0 <= k < |ws| && ws[k].fromGate == src && ws[k].toGate == tgt && ws[k].toInputIndex == s
  }

  /** Every occupied input slot names a listed gate and is backed by a wire
      from that gate into that slot. Under this invariant, resolving a slot by
      id through the list reaches the gate object the program's slot refers to. */
  predicate SlotsBacked(c: Circuit)
  {
    forall i, s: SlotIndex :: 0 <= i < |c.gates| && c.gates[i].Input(s).Some? ==>
      Present(c.gates, c.gates[i].Input(s).value) &&
      Backed(c.wires, c.gates[i].Input(s).value, c.gates[i].id, s)
  }

  /** The invariant every operation of the board keeps. */
  predicate Consistent(c: Circuit)
  {
    UniqueIds(c.gates) && UniqueWireIds(c.wires) && SlotsBacked(c)
  }

  /** The position of the first wire with the given id, as `wires.findIndex` finds it. */
  function WireIndex(ws: seq<Wire>, id: WireId): (r: Option<nat>)
    ensures r.None? <==> !WireIdIn(ws, id)
    ensures r.Some? ==> r.value < |ws| && ws[r.value].id == id
    ensures r.Some? ==> forall k :: 0 <= k < r.value ==> ws[k].id != id
  {
    if ws == [] then None
    else if ws[0].id == id then Some(0)
    else match WireIndex(ws[1..], id)
      case None => None
      case Some(k) => Some(k + 1)
  }

  /** `targetGate.inputs[i] = v` on the gate that `gates.find` returns for
      `target`; nothing happens when no gate has that id. */
  function SetSlot(gs: seq<Gate>, target: GateId, i: SlotIndex, v: Option<GateId>): (r: seq<Gate>)
    ensures |r| == |gs|
    ensures forall j :: 0 <= j < |gs| ==>
              r[j].id == gs[j].id && r[j].kind == gs[j].kind && r[j].outputState == gs[j].outputState
    ensures forall j, s: SlotIndex :: 0 <= j < |gs| ==>
              r[j].Input(s) == if gs[j].id == target && s == i && IndexOf(gs, target) == Some(j)
                               then v else gs[j].Input(s)
  {
    match IndexOf(gs, target)
    case None => gs
    case Some(k) => gs[k := gs[k].WithInput(i, v)]
  }

  /** `removeWire(wireId)`: an unknown id changes nothing; otherwise the
      target's slot is emptied, the record is spliced out and the board re-evaluated. */
  function RemoveWire(c: Circuit, wid: WireId): Circuit
  {
    match WireIndex(c.wires, wid)
    case None => c
    case Some(k) =>
      var w := c.wires[k];
      var gs := SetSlot(c.gates, w.toGate, w.toInputIndex, None);
      Circuit(Simulate(gs).gates, c.wires[..k] + c.wires[k + 1..])
  }

  /** The connecting part of `completeWiring`: append the wire, point the
      target's slot at the source gate (at nothing when no gate has the
      source's id: `find` gave `undefined`) and re-evaluate. The old wire
      into that slot, if any, stays in the list. */
  function Connect(c: Circuit, src: GateId, tgt: GateId, idx: SlotIndex, wid: WireId): Circuit
  {
    var v := if Find(c.gates, src).Some? then Some(src) else None;
    var gs := SetSlot(c.gates, tgt, idx, v);
    Circuit(Simulate(gs).gates, c.wires + [Wire(wid, src, tgt, idx)])
  }

  predicate Touches(w: Wire, gid: GateId)
  {
    w.fromGate == gid || w.toGate == gid
  }

  /** The wires from or into the gate, in their order: the `filter` of `removeGate`. */
  function Touching(ws: seq<Wire>, gid: GateId): (r: seq<Wire>)
    ensures forall w :: w in r <==> w in ws && Touches(w, gid)
  {
    if ws == [] then []
    else (if Touches(ws[0], gid) then [ws[0]] else []) + Touching(ws[1..], gid)
  }

  /** The wires that do not touch the gate, in their order. */
  function Untouched(ws: seq<Wire>, gid: GateId): (r: seq<Wire>)
    ensures forall w :: w in r <==> w in ws && !Touches(w, gid)
  {
    if ws == [] then []
    else (if Touches(ws[0], gid) then [] else [ws[0]]) + Untouched(ws[1..], gid)
  }

  /** Filtering a joined list filters each part, so the wires kept stay in their order. */
  lemma {:induction false} UntouchedAppend(a: seq<Wire>, b: seq<Wire>, gid: GateId)
    ensures Untouched(a + b, gid) == Untouched(a, gid) + Untouched(b, gid)
  {
    if a != [] {
      assert (a + b)[1..] == a[1..] + b;
      UntouchedAppend(a[1..], b, gid);
    } else {
      assert a + b == b;
    }
  }

  /** The ids of the wires, one per wire, in order. */
  function WireIds(ws: seq<Wire>): (r: seq<WireId>)
    ensures |r| == |ws| && forall k :: 0 <= k < |ws| ==> r[k] == ws[k].id
  {
    if ws == [] then [] else [ws[0].id] + WireIds(ws[1..])
  }

  /** The wires with the given ids removed with `removeWire`, one after another in the order given. */
  function RemoveWires(c: Circuit, ids: seq<WireId>): Circuit
  {
    if ids == [] then c
    else RemoveWire(RemoveWires(c, ids[..|ids| - 1]), ids[|ids| - 1])
  }

  /** One more removal extends the cascade by the next id. */
  lemma RemoveWiresSnoc(c: Circuit, ids: seq<WireId>, i: nat)
    requires i < |ids|
    ensures RemoveWires(c, ids[..i + 1]) == RemoveWire(RemoveWires(c, ids[..i]), ids[i])
  {
    assert ids[..i + 1][..i] == ids[..i];
  }

  /** `removeGate(gateId)`: an unknown id changes nothing; otherwise every
      wire touching the gate is removed with `removeWire`, the gate is
      spliced out of the list and the board re-evaluated. */
  function RemoveGate(c: Circuit, gid: GateId): Circuit
  {
    match IndexOf(c.gates, gid)
    case None => c
    case Some(p) =>
      var c1 := RemoveWires(c, WireIds(Touching(c.wires, gid)));
      RemoveWiresShape(c, WireIds(Touching(c.wires, gid)));
      var gs := c1.gates[..p] + c1.gates[p + 1..];
      Circuit(Simulate(gs).gates, c1.wires)
  }

  /** `addGate` without its drawing: a new gate with both slots empty and output off. */
  function AddGate(c: Circuit, id: GateId, kind: GateType): Circuit
  {
    Circuit(c.gates + [NewGate(id, kind)], c.wires)
  }

  /** The click handler of a switch: flip its bit and re-evaluate. Other gates
      have no such handler, so for them, and for an unknown id, nothing changes. */
  function ToggleSwitch(c: Circuit, gid: GateId): Circuit
  {
    match IndexOf(c.gates, gid)
    case None => c
    case Some(k) =>
      if c.gates[k].kind != SWITCH then c
      else
        var gs := c.gates[k := c.gates[k].(outputState := !c.gates[k].outputState)];
        Circuit(Simulate(gs).gates, c.wires)
  }

  // ----- shape facts -----

  /** The same gates, position by position, with the same ids and kinds. */
  predicate SameIdsKinds(a: seq<Gate>, b: seq<Gate>)
  {
    |a| == |b| && forall j :: 0 <= j < |a| ==> a[j].id == b[j].id && a[j].kind == b[j].kind
  }

  /** Removing wires changes neither which gates are listed nor their kinds. */
  lemma {:induction false} RemoveWiresShape(c: Circuit, ids: seq<WireId>)
    ensures SameIdsKinds(RemoveWires(c, ids).gates, c.gates)
    decreases |ids|
  {
    if ids != [] {
      RemoveWiresShape(c, ids[..|ids| - 1]);
    }
  }

  // ----- removing wires by id -----

  /** The wires whose id is not among `ids`, in their order. */
  function Keep(ws: seq<Wire>, ids: seq<WireId>): (r: seq<Wire>)
    ensures forall w :: w in r <==> w in ws && w.id !in ids
  {
    if ws == [] then []
    else (if ws[0].id in ids then [] else [ws[0]]) + Keep(ws[1..], ids)
  }

  lemma {:induction false} KeepAll(ws: seq<Wire>, ids: seq<WireId>)
    requires forall k :: 0 <= k < |ws| ==> ws[k].id !in ids
    ensures Keep(ws, ids) == ws
  {
    if ws != [] {
      KeepAll(ws[1..], ids);
    }
  }

  lemma {:induction false} KeepSnoc(ws: seq<Wire>, ids: seq<WireId>, x: WireId)
    ensures Keep(ws, ids + [x]) == Keep(Keep(ws, ids), [x])
  {
    if ws != [] {
      KeepSnoc(ws[1..], ids, x);
      var rest := Keep(ws[1..], ids);
      assert ws[0].id in ids + [x] <==> ws[0].id in ids || ws[0].id == x;
      if ws[0].id !in ids {
        assert Keep(ws, ids) == [ws[0]] + rest;
        assert ([ws[0]] + rest)[1..] == rest;
      } else {
        assert Keep(ws, ids) == rest;
      }
    }
  }

  lemma {:induction false} KeepUnique(ws: seq<Wire>, ids: seq<WireId>)
    requires UniqueWireIds(ws)
    ensures UniqueWireIds(Keep(ws, ids))
  {
    if ws != [] {
      KeepUnique(ws[1..], ids);
      var rest := Keep(ws[1..], ids);
      if ws[0].id !in ids {
        forall j | 0 <= j < |rest| ensures rest[j].id != ws[0].id {
          assert rest[j] in ws[1..];
        }
      }
    }
  }

  lemma SpliceCons(ws: seq<Wire>, k: nat)
    requires 0 < k < |ws|
    ensures ws[..k] + ws[k + 1..] == [ws[0]] + (ws[1..][..k - 1] + ws[1..][k..])
  {
    assert ws[..k] == [ws[0]] + ws[1..][..k - 1];
    assert ws[k + 1..] == ws[1..][k..];
  }

  /** Splicing out the one wire with id `x` keeps exactly the wires whose id is not `x`. */
  lemma {:induction false} DeleteAt(ws: seq<Wire>, x: WireId, k: nat)
    requires UniqueWireIds(ws) && WireIndex(ws, x) == Some(k)
    ensures ws[..k] + ws[k + 1..] == Keep(ws, [x])
  {
    var tail := ws[1..];
    if k == 0 {
      forall m | 0 <= m < |tail| ensures tail[m].id !in [x] {
        assert tail[m] == ws[m + 1];
      }
      KeepAll(tail, [x]);
    } else {
      assert WireIndex(tail, x) == Some(k - 1);
      DeleteAt(tail, x, k - 1);
      SpliceCons(ws, k);
    }
  }

  /** Some wire of `ws` whose id is among `ids` runs into slot `s` of gate `tgt`. */
  predicate Clears(ws: seq<Wire>, ids: seq<WireId>, tgt: GateId, s: SlotIndex)
  {
    exists w :: w in ws && w.id in ids && w.toGate == tgt && w.toInputIndex == s
  }

  /** `removeWire(wid)` keeps exactly the wires whose id is not `wid`, in their
      order, empties the slot that the removed wire feeds and no other slot,
      and leaves the gates and their kinds where they were. */
  lemma RemoveWireEffect(c: Circuit, wid: WireId)
    requires UniqueIds(c.gates) && UniqueWireIds(c.wires)
    ensures RemoveWire(c, wid).wires == Keep(c.wires, [wid])
    ensures SameIdsKinds(RemoveWire(c, wid).gates, c.gates)
    ensures forall j, s: SlotIndex :: 0 <= j < |c.gates| ==>
              RemoveWire(c, wid).gates[j].Input(s) ==
                if Clears(c.wires, [wid], c.gates[j].id, s) then None else c.gates[j].Input(s)
    ensures !WireIdIn(c.wires, wid) ==> RemoveWire(c, wid) == c
  {
    var r := RemoveWire(c, wid);
    match WireIndex(c.wires, wid)
    case None =>
      KeepAll(c.wires, [wid]);
    case Some(k) =>
      DeleteAt(c.wires, wid, k);
      var w := c.wires[k];
      var gs := SetSlot(c.gates, w.toGate, w.toInputIndex, None);
      forall j, s: SlotIndex | 0 <= j < |c.gates|
        ensures r.gates[j].Input(s) ==
                  if Clears(c.wires, [wid], c.gates[j].id, s) then None else c.gates[j].Input(s)
      {
        FindListed(c.gates, j);
        assert r.gates[j].Input(s) == gs[j].Input(s);
        if Clears(c.wires, [wid], c.gates[j].id, s) {
          var v :| v in c.wires && v.id in [wid] && v.toGate == c.gates[j].id && v.toInputIndex == s;
          var m :| 0 <= m < |c.wires| && c.wires[m] == v;
          assert m == k by { if m < k { } else if m > k { } }
        }
      }
  }

  /** Removing a list of wire ids one after another keeps exactly the wires
      whose id is not listed, and empties exactly the slots that a removed
      wire fed. */
  lemma {:induction false} RemoveWiresEffect(c: Circuit, ids: seq<WireId>)
    requires UniqueIds(c.gates) && UniqueWireIds(c.wires)
    ensures RemoveWires(c, ids).wires == Keep(c.wires, ids)
    ensures SameIdsKinds(RemoveWires(c, ids).gates, c.gates)
    ensures forall j, s: SlotIndex :: 0 <= j < |c.gates| ==>
              RemoveWires(c, ids).gates[j].Input(s) ==
                if Clears(c.wires, ids, c.gates[j].id, s) then None else c.gates[j].Input(s)
    decreases |ids|
  {
    if ids == [] {
      KeepAll(c.wires, ids);
    } else {
      var front, x := ids[..|ids| - 1], ids[|ids| - 1];
      assert ids == front + [x];
      RemoveWiresEffect(c, front);
      var m := RemoveWires(c, front);
      KeepUnique(c.wires, front);
      RemoveWireEffect(m, x);
      KeepSnoc(c.wires, front, x);
      forall j, s: SlotIndex | 0 <= j < |c.gates|
        ensures RemoveWires(c, ids).gates[j].Input(s) ==
                  if Clears(c.wires, ids, c.gates[j].id, s) then None else c.gates[j].Input(s)
      {
        var t := c.gates[j].id;
        assert m.gates[j].id == t;
        if Clears(m.wires, [x], t, s) {
          var v :| v in m.wires && v.id in [x] && v.toGate == t && v.toInputIndex == s;
          assert v in c.wires && v.id in ids;
        }
        if Clears(c.wires, ids, t, s) && !Clears(c.wires, front, t, s) {
          var v :| v in c.wires && v.id in ids && v.toGate == t && v.toInputIndex == s;
          assert v.id !in front;
          assert v in m.wires;
        }
      }
    }
  }

  // ----- the invariant -----

  /** The invariant depends on the gates' ids and slots only, not on their output bits. */
  lemma ConsistentSameShapes(c: Circuit, gs: seq<Gate>)
    requires Consistent(c) && SameShapes(gs, c.gates)
    ensures Consistent(Circuit(gs, c.wires))
  {
    var d := Circuit(gs, c.wires);
    forall i, s: SlotIndex | 0 <= i < |gs| && gs[i].Input(s).Some?
      ensures Present(gs, gs[i].Input(s).value) && Backed(c.wires, gs[i].Input(s).value, gs[i].id, s)
    {
      assert c.gates[i].Input(s) == gs[i].Input(s);
      var q :| 0 <= q < |c.gates| && c.gates[q].id == gs[i].Input(s).value;
      assert gs[q].id == c.gates[q].id;
    }
  }

  /** Emptying exactly the slots that removed wires fed keeps the invariant. */
  lemma ClearedConsistent(c: Circuit, r: Circuit, ids: seq<WireId>)
    requires Consistent(c)
    requires r.wires == Keep(c.wires, ids) && SameIdsKinds(r.gates, c.gates)
    requires forall j, s: SlotIndex :: 0 <= j < |c.gates| ==>
               r.gates[j].Input(s) == if Clears(c.wires, ids, c.gates[j].id, s) then None else c.gates[j].Input(s)
    ensures Consistent(r)
  {
    KeepUnique(c.wires, ids);
    forall i, s: SlotIndex | 0 <= i < |r.gates| && r.gates[i].Input(s).Some?
      ensures Present(r.gates, r.gates[i].Input(s).value)
      ensures Backed(r.wires, r.gates[i].Input(s).value, r.gates[i].id, s)
    {
      var src := r.gates[i].Input(s).value;
      assert c.gates[i].Input(s) == Some(src);
      var q :| 0 <= q < |c.gates| && c.gates[q].id == src;
      assert r.gates[q].id == src;
      var k :| 0 <= k < |c.wires| && c.wires[k].fromGate == src && c.wires[k].toGate == c.gates[i].id
               && c.wires[k].toInputIndex == s;
      var w := c.wires[k];
      assert !Clears(c.wires, ids, c.gates[i].id, s);
      assert w in c.wires;
      assert w.id !in ids;
      assert w in r.wires;
      var m :| 0 <= m < |r.wires| && r.wires[m] == w;
    }
  }

  /** `removeWire` keeps the invariant. */
  lemma RemoveWireConsistent(c: Circuit, wid: WireId)
    requires Consistent(c)
    ensures Consistent(RemoveWire(c, wid))
  {
    RemoveWireEffect(c, wid);
    ClearedConsistent(c, RemoveWire(c, wid), [wid]);
  }

  /** Keeping the wires whose id is not among those of the wires touching a
      gate is keeping the wires that do not touch it. */
  lemma {:induction false} KeepSameAsUntouched(vs: seq<Wire>, ids: seq<WireId>, gid: GateId)
    requires forall k :: 0 <= k < |vs| ==> (vs[k].id in ids <==> Touches(vs[k], gid))
    ensures Keep(vs, ids) == Untouched(vs, gid)
  {
    if vs != [] {
      KeepSameAsUntouched(vs[1..], ids, gid);
    }
  }

  lemma KeepTouching(ws: seq<Wire>, gid: GateId)
    requires UniqueWireIds(ws)
    ensures Keep(ws, WireIds(Touching(ws, gid))) == Untouched(ws, gid)
  {
    var t := Touching(ws, gid);
    var ids := WireIds(t);
    forall k | 0 <= k < |ws| ensures ws[k].id in ids <==> Touches(ws[k], gid)
    {
      if Touches(ws[k], gid) {
        assert ws[k] in t;
        var m :| 0 <= m < |t| && t[m] == ws[k];
        assert ids[m] == ws[k].id;
      }
      if ws[k].id in ids {
        var m :| 0 <= m < |ids| && ids[m] == ws[k].id;
        assert t[m] in ws;
        var k2 :| 0 <= k2 < |ws| && ws[k2] == t[m];
        assert k2 == k by { if k2 < k { } else if k < k2 { } }
      }
    }
    KeepSameAsUntouched(ws, ids, gid);
  }

  /** A slot naming a gate is fed by a wire touching that gate. */
  lemma TouchingWireClears(c: Circuit, gid: GateId, j: nat, s: SlotIndex)
    requires Consistent(c) && j < |c.gates| && c.gates[j].Input(s) == Some(gid)
    ensures Clears(c.wires, WireIds(Touching(c.wires, gid)), c.gates[j].id, s)
  {
    var ids := WireIds(Touching(c.wires, gid));
    var k :| 0 <= k < |c.wires| && c.wires[k].fromGate == gid && c.wires[k].toGate == c.gates[j].id
             && c.wires[k].toInputIndex == s;
    var t := Touching(c.wires, gid);
    assert c.wires[k] in t;
    var m :| 0 <= m < |t| && t[m] == c.wires[k];
    assert ids[m] == c.wires[k].id;
    assert c.wires[k] in c.wires;
  }

  /** After the wires touching a gate are removed, no slot names that gate. */
  lemma TouchingCleared(c: Circuit, gid: GateId)
    requires Consistent(c)
    ensures var c1 := RemoveWires(c, WireIds(Touching(c.wires, gid)));
            forall j, s: SlotIndex :: 0 <= j < |c1.gates| ==> c1.gates[j].Input(s) != Some(gid)
  {
    var ids := WireIds(Touching(c.wires, gid));
    var c1 := RemoveWires(c, ids);
    RemoveWiresEffect(c, ids);
    forall j, s: SlotIndex | 0 <= j < |c1.gates| ensures c1.gates[j].Input(s) != Some(gid)
    {
      if c.gates[j].Input(s) == Some(gid) {
        TouchingWireClears(c, gid, j, s);
      }
    }
  }

  /** Splicing out a gate that no slot names keeps the invariant. */
  lemma DropGateConsistent(c: Circuit, p: nat)
    requires Consistent(c) && p < |c.gates|
    requires forall j, s: SlotIndex :: 0 <= j < |c.gates| ==> c.gates[j].Input(s) != Some(c.gates[p].id)
    ensures Consistent(Circuit(c.gates[..p] + c.gates[p + 1..], c.wires))
  {
    var gs := c.gates[..p] + c.gates[p + 1..];
    forall i, s: SlotIndex | 0 <= i < |gs| && gs[i].Input(s).Some?
      ensures Present(gs, gs[i].Input(s).value) && Backed(c.wires, gs[i].Input(s).value, gs[i].id, s)
    {
      var i1 := if i < p then i else i + 1;
      assert gs[i] == c.gates[i1];
      var src := gs[i].Input(s).value;
      var q :| 0 <= q < |c.gates| && c.gates[q].id == src;
      var q1 := if q < p then q else q - 1;
      assert gs[q1] == c.gates[q];
    }
  }

  /** `removeGate` on a listed gate: exactly the wires that did not touch it
      remain, in their order, and the other gates keep their order and kinds. */
  lemma RemoveGateEffect(c: Circuit, gid: GateId)
    requires Consistent(c) && IndexOf(c.gates, gid).Some?
    ensures var r := RemoveGate(c, gid);
            var p := IndexOf(c.gates, gid).value;
            && r.wires == Untouched(c.wires, gid)
            && |r.gates| == |c.gates| - 1
            && (forall j :: 0 <= j < |r.gates| ==>
                  r.gates[j].id == c.gates[if j < p then j else j + 1].id &&
                  r.gates[j].kind == c.gates[if j < p then j else j + 1].kind)
  {
    var ids := WireIds(Touching(c.wires, gid));
    RemoveWiresEffect(c, ids);
    KeepTouching(c.wires, gid);
  }

  /** After `removeGate` on a listed gate nothing refers to it: it is gone from
      the list, no wire and no slot names it, and the invariant holds. */
  lemma RemoveGateForgets(c: Circuit, gid: GateId)
    requires Consistent(c) && IndexOf(c.gates, gid).Some?
    ensures var r := RemoveGate(c, gid);
            && !Present(r.gates, gid)
            && (forall w :: w in r.wires ==> w.fromGate != gid && w.toGate != gid)
            && (forall j, s: SlotIndex :: 0 <= j < |r.gates| ==> r.gates[j].Input(s) != Some(gid))
            && Consistent(r)
  {
    var p := IndexOf(c.gates, gid).value;
    var ids := WireIds(Touching(c.wires, gid));
    var c1 := RemoveWires(c, ids);
    RemoveWiresEffect(c, ids);
    ClearedConsistent(c, c1, ids);
    KeepTouching(c.wires, gid);
    TouchingCleared(c, gid);
    assert c1.gates[p].id == gid;
    var d := Circuit(c1.gates[..p] + c1.gates[p + 1..], c1.wires);
    DropGateConsistent(c1, p);
    ConsistentSameShapes(d, Simulate(d.gates).gates);
    var r := RemoveGate(c, gid);
    assert r == Circuit(Simulate(d.gates).gates, c1.wires);
    forall j | 0 <= j < |r.gates| ensures r.gates[j].id != gid
    {
      var j1 := if j < p then j else j + 1;
      assert r.gates[j].id == c1.gates[j1].id;
    }
  }

  /** `removeGate` on a listed gate empties exactly the slots the removed
      wires fed: every other slot of the remaining gates keeps its gate. */
  lemma RemoveGateSlots(c: Circuit, gid: GateId)
    requires Consistent(c) && IndexOf(c.gates, gid).Some?
    ensures var r := RemoveGate(c, gid);
            var p := IndexOf(c.gates, gid).value;
            var ids := WireIds(Touching(c.wires, gid));
            && |r.gates| == |c.gates| - 1
            && forall j, s: SlotIndex :: 0 <= j < |r.gates| ==>
                 var j1 := if j < p then j else j + 1;
                 r.gates[j].Input(s) == if Clears(c.wires, ids, c.gates[j1].id, s) then None else c.gates[j1].Input(s)
  {
    var p := IndexOf(c.gates, gid).value;
    var ids := WireIds(Touching(c.wires, gid));
    var c1 := RemoveWires(c, ids);
    RemoveWiresEffect(c, ids);
    var r := RemoveGate(c, gid);
    assert r.gates == Simulate(c1.gates[..p] + c1.gates[p + 1..]).gates;
    DropSlots(c1.gates, p, r.gates);
  }

  /** Re-evaluating the list with one gate spliced out leaves every other gate's slots as they were. */
  lemma DropSlots(gs: seq<Gate>, p: nat, rs: seq<Gate>)
    requires p < |gs| && rs == Simulate(gs[..p] + gs[p + 1..]).gates
    ensures |rs| == |gs| - 1
    ensures forall j, s: SlotIndex :: 0 <= j < |rs| ==> rs[j].Input(s) == gs[if j < p then j else j + 1].Input(s)
  {
    var hs := gs[..p] + gs[p + 1..];
    forall j, s: SlotIndex | 0 <= j < |rs|
      ensures rs[j].Input(s) == gs[if j < p then j else j + 1].Input(s)
    {
      assert SameShape(rs[j], hs[j]);
      assert hs[j] == gs[if j < p then j else j + 1];
    }
  }

  /** `removeGate` with an id no gate has changes nothing. */
  lemma RemoveGateUnknown(c: Circuit, gid: GateId)
    requires !Present(c.gates, gid)
    ensures RemoveGate(c, gid) == c
  {
  }

  // ----- connecting, adding, toggling -----

  /** The connecting part of `completeWiring` with a fresh wire id appends the
      wire record, points the target's slot at the source (at nothing when the
      source is not listed), leaves every other slot, id and kind alone, and
      keeps the invariant. */
  lemma ConnectEffect(c: Circuit, src: GateId, tgt: GateId, idx: SlotIndex, wid: WireId)
    requires Consistent(c) && !WireIdIn(c.wires, wid)
    ensures var r := Connect(c, src, tgt, idx, wid);
            && r.wires == c.wires + [Wire(wid, src, tgt, idx)]
            && SameIdsKinds(r.gates, c.gates)
            && (forall j, s: SlotIndex :: 0 <= j < |c.gates| ==>
                  r.gates[j].Input(s) ==
                    if c.gates[j].id == tgt && s == idx
                    then (if Present(c.gates, src) then Some(src) else None)
                    else c.gates[j].Input(s))
            && Consistent(r)
  {
    var v := if Find(c.gates, src).Some? then Some(src) else None;
    var gs := SetSlot(c.gates, tgt, idx, v);
    forall j | 0 <= j < |c.gates| && c.gates[j].id == tgt ensures IndexOf(c.gates, tgt) == Some(j)
    {
      FindListed(c.gates, j);
    }
    SlotSetConsistent(c, src, tgt, idx, wid);
    ConsistentSameShapes(Circuit(gs, c.wires + [Wire(wid, src, tgt, idx)]), Simulate(gs).gates);
  }

  /** Setting the slot and appending the wire that backs it keeps the invariant. */
  lemma SlotSetConsistent(c: Circuit, src: GateId, tgt: GateId, idx: SlotIndex, wid: WireId)
    requires Consistent(c) && !WireIdIn(c.wires, wid)
    ensures Consistent(Circuit(SetSlot(c.gates, tgt, idx, if Find(c.gates, src).Some? then Some(src) else None),
                               c.wires + [Wire(wid, src, tgt, idx)]))
  {
    var v := if Find(c.gates, src).Some? then Some(src) else None;
    var gs := SetSlot(c.gates, tgt, idx, v);
    var w := Wire(wid, src, tgt, idx);
    var d := Circuit(gs, c.wires + [w]);
    forall j | 0 <= j < |c.gates| && c.gates[j].id == tgt ensures IndexOf(c.gates, tgt) == Some(j)
    {
      FindListed(c.gates, j);
    }
    assert UniqueIds(gs) by {
      forall i, j | 0 <= i < j < |gs| ensures gs[i].id != gs[j].id {
        assert gs[i].id == c.gates[i].id && gs[j].id == c.gates[j].id;
      }
    }
    assert UniqueWireIds(d.wires);
    forall i, s: SlotIndex | 0 <= i < |gs| && gs[i].Input(s).Some?
      ensures Present(gs, gs[i].Input(s).value) && Backed(d.wires, gs[i].Input(s).value, gs[i].id, s)
    {
      var a := gs[i].Input(s).value;
      if c.gates[i].id == tgt && s == idx {
        assert a == src && Present(c.gates, src);
        assert d.wires[|c.wires|] == w;
      } else {
        assert c.gates[i].Input(s) == Some(a);
        var k :| 0 <= k < |c.wires| && c.wires[k].fromGate == a && c.wires[k].toGate == c.gates[i].id
                 && c.wires[k].toInputIndex == s;
        assert d.wires[k] == c.wires[k];
      }
      var q :| 0 <= q < |c.gates| && c.gates[q].id == a;
      assert gs[q].id == a;
    }
    assert Consistent(d);
  }

  /** `addGate` with an id no listed gate has keeps the invariant and lists the new gate last. */
  lemma AddGateConsistent(c: Circuit, id: GateId, kind: GateType)
    requires Consistent(c) && !Present(c.gates, id)
    ensures Consistent(AddGate(c, id, kind))
    ensures IndexOf(AddGate(c, id, kind).gates, id) == Some(|c.gates|)
  {
    var r := AddGate(c, id, kind);
    forall i, s: SlotIndex | 0 <= i < |r.gates| && r.gates[i].Input(s).Some?
      ensures Present(r.gates, r.gates[i].Input(s).value)
    {
      var q :| 0 <= q < |c.gates| && c.gates[q].id == r.gates[i].Input(s).value;
      assert r.gates[q] == c.gates[q];
    }
    FindListed(r.gates, |c.gates|);
  }

  /** Clicking a listed switch flips its bit and re-evaluates the board over
      the flipped list: every switch but this one keeps its bit (the evaluation
      never changes a switch), every id, kind, slot and wire stays, and the
      invariant holds. The other gates' bits are those of the re-evaluation. */
  lemma ToggleSwitchEffect(c: Circuit, k: nat)
    requires Consistent(c) && k < |c.gates| && c.gates[k].kind == SWITCH
    ensures var r := ToggleSwitch(c, c.gates[k].id);
            && r.wires == c.wires
            && SameShapes(r.gates, c.gates)
            && r.gates[k].outputState == !c.gates[k].outputState
            && (forall j :: 0 <= j < |c.gates| && j != k && c.gates[j].kind == SWITCH ==> r.gates[j] == c.gates[j])
            && r.gates == Simulate(c.gates[k := c.gates[k].(outputState := !c.gates[k].outputState)]).gates
            && Consistent(r)
  {
    FindListed(c.gates, k);
    var gs := c.gates[k := c.gates[k].(outputState := !c.gates[k].outputState)];
    assert SameShapes(gs, c.gates);
    ConsistentSameShapes(c, Simulate(gs).gates);
  }

  /** A click reaches the gates downstream of the switch: on a board where a
      switch drives a NOT that drives a light, both settled, clicking the
      switch changes the light's bit. */
  lemma ToggleSwitchRelightsLight(s: GateId, n: GateId, l: GateId, on: bool, ws: seq<Wire>)
    requires s != n && n != l && s != l
    ensures var c := Circuit([Gate(s, SWITCH, None, None, on), Gate(n, NOT, Some(s), None, !on),
                              Gate(l, LIGHT, Some(n), None, !on)], ws);
            ToggleSwitch(c, s).gates[2].outputState == on != c.gates[2].outputState
  {
    var c := Circuit([Gate(s, SWITCH, None, None, on), Gate(n, NOT, Some(s), None, !on),
                      Gate(l, LIGHT, Some(n), None, !on)], ws);
    assert IndexOf(c.gates, s) == Some(0);
    var gs := c.gates[0 := c.gates[0].(outputState := !on)];
    assert gs == [Gate(s, SWITCH, None, None, !on), Gate(n, NOT, Some(s), None, !on),
                  Gate(l, LIGHT, Some(n), None, !on)];
    SwitchNotLight(s, n, l, !on, !on, !on);
  }

  /** ConnectEffect seen from one target gate. */
  lemma ConnectAt(c: Circuit, src: GateId, j: nat, idx: SlotIndex, wid: WireId)
    requires Consistent(c) && !WireIdIn(c.wires, wid) && j < |c.gates| && Present(c.gates, src)
    ensures var r := Connect(c, src, c.gates[j].id, idx, wid);
            && Consistent(r)
            && r.wires == c.wires + [Wire(wid, src, c.gates[j].id, idx)]
            && SameIdsKinds(r.gates, c.gates)
            && r.gates[j].Input(idx) == Some(src)
  {
    ConnectEffect(c, src, c.gates[j].id, idx, wid);
  }

  /** RemoveWireEffect seen from one slot. */
  lemma RemoveWireAt(c: Circuit, wid: WireId, j: nat, s: SlotIndex)
    requires Consistent(c) && j < |c.gates|
    ensures RemoveWire(c, wid).wires == Keep(c.wires, [wid])
    ensures Clears(c.wires, [wid], c.gates[j].id, s) ==> RemoveWire(c, wid).gates[j].Input(s) == None
  {
    RemoveWireEffect(c, wid);
  }

  lemma FreshAfterAppend(ws: seq<Wire>, w: Wire, id: WireId)
    requires !WireIdIn(ws, id) && w.id != id
    ensures !WireIdIn(ws + [w], id)
  {
  }

  lemma PresentKept(a: seq<Gate>, b: seq<Gate>, y: GateId)
    requires SameIdsKinds(a, b) && Present(b, y)
    ensures Present(a, y)
  {
    var q :| 0 <= q < |b| && b[q].id == y;
    assert a[q].id == y;
  }

  /** Two wires connected one after the other into the same slot. */
  lemma TwoConnections(c: Circuit, x: GateId, y: GateId, j: nat, s: SlotIndex,
                       w1: WireId, w2: WireId, c1: Circuit, c2: Circuit)
    requires Consistent(c) && Present(c.gates, x) && Present(c.gates, y) && j < |c.gates|
    requires !WireIdIn(c.wires, w1) && !WireIdIn(c.wires, w2) && w1 != w2
    requires c1 == Connect(c, x, c.gates[j].id, s, w1)
    requires c2 == Connect(c1, y, c.gates[j].id, s, w2)
    ensures Consistent(c2) && j < |c2.gates| && c2.gates[j].id == c.gates[j].id
    ensures c2.gates[j].Input(s) == Some(y)
    ensures c2.wires == c.wires + [Wire(w1, x, c.gates[j].id, s)] + [Wire(w2, y, c.gates[j].id, s)]
  {
    var t := c.gates[j].id;
    ConnectAt(c, x, j, s, w1);
    FreshAfterAppend(c.wires, Wire(w1, x, t, s), w2);
    PresentKept(c1.gates, c.gates, y);
    ConnectAt(c1, y, j, s, w2);
  }

  /** Connecting a second source into an occupied slot of gate `gs[j]` leaves
      the first wire record in the list; removing that stale wire afterwards
      empties the slot although the newer wire still runs into it. */
  lemma StaleWireAfterReplacement(c: Circuit, x: GateId, y: GateId, j: nat, s: SlotIndex,
                                  w1: WireId, w2: WireId, c1: Circuit, c2: Circuit, c3: Circuit)
    requires Consistent(c) && Present(c.gates, x) && Present(c.gates, y) && j < |c.gates|
    requires !WireIdIn(c.wires, w1) && !WireIdIn(c.wires, w2) && w1 != w2
    requires c1 == Connect(c, x, c.gates[j].id, s, w1)
    requires c2 == Connect(c1, y, c.gates[j].id, s, w2)
    requires c3 == RemoveWire(c2, w1)
    ensures c2.gates[j].Input(s) == Some(y)
    ensures Wire(w1, x, c.gates[j].id, s) in c2.wires && Wire(w2, y, c.gates[j].id, s) in c2.wires
    ensures c3.gates[j].Input(s) == None
    ensures Wire(w2, y, c.gates[j].id, s) in c3.wires
  {
    var t := c.gates[j].id;
    TwoConnections(c, x, y, j, s, w1, w2, c1, c2);
    RemoveWireAt(c2, w1, j, s);
    assert Wire(w1, x, t, s) in c2.wires;
    assert Clears(c2.wires, [w1], t, s);
  }
}
