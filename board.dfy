/** The class `LogicBoard` of script.js without its drawing: the gate and wire
    lists, the state of a wire being drawn, and the text of the expression
    panel, changed in place by the board's operations. Each operation is
    proved to leave the lists as the matching function of module BoardLogic
    says, and to keep the board's invariant. */
module Board {
  import opened Options
  import opened Text
  import opened Ids
  import opened LogicGate
  import opened Simulation
  import opened BoardLogic
  import opened Wiring
  import opened Report

  /** What `completeWiring` does to the lists: connect the two points when
      they pair up, leave the lists alone when they do not. */
  function Complete(c: Circuit, startGate: GateId, startType: string,
                    endGate: GateId, endType: string, wid: WireId): Circuit
  {
    match Pair(startGate, startType, endGate, endType)
    case None => c
    case Some(l) => Connect(c, l.outGate, l.inGate, l.index, wid)
  }

  /** One pass of `runSimulation`'s `this.gates.forEach(...)`: each gate in
      list order is evaluated over the list as the pass has left it so far, and
      `changed` records whether any output bit moved. */
  method SweepGates(gs: seq<Gate>) returns (next: seq<Gate>, changed: bool)
    ensures next == Sweep(gs)
    ensures changed == Changed(gs, next)
  {
    next := gs;
    changed := false;
    var i := 0;
    while i < |gs|
      invariant SweptTo(gs, next, i, changed)
    {
      SweepStep(gs, next, i, changed);
      var g := Evaluate(next[i], next);
      changed := changed || g.outputState != next[i].outputState;
      next := next[i := g];
      i := i + 1;
    }
    SweptAll(gs, next, changed);
  }

  class LogicBoard {
    var gates: seq<Gate>
    var wires: seq<Wire>
    var isWiring: bool
    var wiringStartNode: Option<Node>
    var wiringStartGateId: GateId
    var wiringStartType: string
    /** The text of the expression panel. */
    var display: string

    ghost function State(): Circuit
      reads this
    {
      Circuit(gates, wires)
    }

    /** The lists are consistent, and a wire is being drawn exactly when a start
        point is recorded, whose gate and type are the ones kept beside it. */
    ghost predicate Valid()
      reads this
    {
      && Consistent(State())
      && (isWiring <==> wiringStartNode.Some?)
      && (isWiring ==> wiringStartGateId == wiringStartNode.value.gate &&
                       wiringStartType == PortType(wiringStartNode.value.port))
    }

    /** An empty board, not drawing; the panel's initial text belongs to the page. */
    constructor()
      ensures Valid()
      ensures gates == [] && wires == [] && !isWiring && display == ""
    {
      gates := [];
      wires := [];
      isWiring := false;
      wiringStartNode := None;
      wiringStartGateId := 0;
      wiringStartType := "";
      display := "";
    }

    /** `runSimulation()`: sweep until a sweep changes nothing or 50 sweeps
        have run, then rewrite the panel. */
    method RunSimulation()
      modifies this
      ensures gates == Simulate(old(gates)).gates
      ensures SameShapes(gates, old(gates))
      ensures display == DisplayText(State())
      ensures wires == old(wires) && isWiring == old(isWiring) && wiringStartNode == old(wiringStartNode)
      ensures wiringStartGateId == old(wiringStartGateId) && wiringStartType == old(wiringStartType)
    {
      var gs := gates;
      var changed := true;
      var limit := 0;
      while changed && limit < 50
        invariant limit <= MaxSweeps
        invariant Resume(gs, changed, limit) == Simulate(old(gates))
        modifies {}
        decreases MaxSweeps - limit
      {
        ghost var before := gs;
        gs, changed := SweepGates(gs);
        ResumeAfterSweep(before, gs, changed, limit);
        limit := limit + 1;
      }
      gates := gs;
      display := DisplayText(Circuit(gates, wires));
    }

    /** `addGate(type, x, y)` without the drawing: the id is made from the clock
        reading `now` and the random suffix, and the new gate is listed last.
        The board is not re-evaluated. */
    method AddGate(kind: GateType, now: nat, suffix: string) returns (id: GateId)
      requires Valid() && IdString(suffix) && !Present(gates, GeneratedId(now, suffix))
      modifies this
      ensures id == GeneratedId(now, suffix)
      ensures State() == BoardLogic.AddGate(old(State()), id, kind)
      ensures Valid()
      ensures isWiring == old(isWiring) && wiringStartNode == old(wiringStartNode) && display == old(display)
      ensures wiringStartGateId == old(wiringStartGateId) && wiringStartType == old(wiringStartType)
    {
      id := GeneratedId(now, suffix);
      AddGateConsistent(State(), id, kind);
      gates := gates + [NewGate(id, kind)];
    }

    /** The click handler of a switch: flip its bit and re-evaluate. Only
        switches have one, so for another gate or an unknown id nothing happens. */
    method ToggleSwitch(gid: GateId)
      requires Valid()
      modifies this
      ensures State() == BoardLogic.ToggleSwitch(old(State()), gid)
      ensures Valid()
      ensures isWiring == old(isWiring) && wiringStartNode == old(wiringStartNode)
      ensures wiringStartGateId == old(wiringStartGateId) && wiringStartType == old(wiringStartType)
      ensures Find(old(gates), gid).Some? && Find(old(gates), gid).value.kind == SWITCH ==>
                display == DisplayText(State())
      ensures !(Find(old(gates), gid).Some? && Find(old(gates), gid).value.kind == SWITCH) ==>
                display == old(display)
    {
      var k := IndexOf(gates, gid);
      if k.None? || gates[k.value].kind != SWITCH {
        return;
      }
      ToggleSwitchEffect(State(), k.value);
      FindListed(gates, k.value);
      var p := k.value;
      gates := gates[p := gates[p].(outputState := !gates[p].outputState)];
      RunSimulation();
    }

    /** `removeWire(wireId)`: an unknown id changes nothing; otherwise the slot
        the wire fed is emptied, the record is spliced out and the board
        re-evaluated. */
    method RemoveWire(wid: WireId)
      requires Valid()
      modifies this
      ensures State() == BoardLogic.RemoveWire(old(State()), wid)
      ensures Valid()
      ensures isWiring == old(isWiring) && wiringStartNode == old(wiringStartNode)
      ensures wiringStartGateId == old(wiringStartGateId) && wiringStartType == old(wiringStartType)
      ensures WireIdIn(old(wires), wid) ==> display == DisplayText(State())
      ensures !WireIdIn(old(wires), wid) ==> display == old(display)
    {
      RemoveWireConsistent(State(), wid);
      var index := WireIndex(wires, wid);
      if index.None? {
        return;
      }
      var k := index.value;
      var w := wires[k];
      gates := SetSlot(gates, w.toGate, w.toInputIndex, None);
      wires := wires[..k] + wires[k + 1..];
      RunSimulation();
    }

    /** The loop of `removeGate` over the wires touching the gate: each one is
        removed with `removeWire`, in list order. */
    method RemoveEach(toRemove: seq<Wire>)
      requires Valid()
      modifies this
      ensures State() == RemoveWires(old(State()), WireIds(toRemove))
      ensures Valid()
      ensures isWiring == old(isWiring) && wiringStartNode == old(wiringStartNode)
      ensures wiringStartGateId == old(wiringStartGateId) && wiringStartType == old(wiringStartType)
    {
      ghost var c0 := State();
      ghost var ids := WireIds(toRemove);
      var i := 0;
      while i < |toRemove|
        invariant i <= |toRemove|
        invariant State() == RemoveWires(c0, ids[..i])
        invariant Valid()
        invariant isWiring == old(isWiring) && wiringStartNode == old(wiringStartNode)
        invariant wiringStartGateId == old(wiringStartGateId) && wiringStartType == old(wiringStartType)
      {
        RemoveWire(toRemove[i].id);
        RemoveWiresSnoc(c0, ids, i);
        i := i + 1;
      }
      assert ids[..i] == ids;
    }

    /** `removeGate(gateId)`: remove every wire touching the gate, one
        `removeWire` after another, then the gate itself, and re-evaluate. */
    method RemoveGate(gid: GateId)
      requires Valid()
      modifies this
      ensures State() == BoardLogic.RemoveGate(old(State()), gid)
      ensures Valid()
      ensures isWiring == old(isWiring) && wiringStartNode == old(wiringStartNode)
      ensures wiringStartGateId == old(wiringStartGateId) && wiringStartType == old(wiringStartType)
      ensures Present(old(gates), gid) ==> display == DisplayText(State())
      ensures !Present(old(gates), gid) ==> display == old(display)
    {
      var index := IndexOf(gates, gid);
      if index.None? {
        return;
      }
      var p := index.value;
      ghost var c0 := State();
      RemoveGateForgets(c0, gid);
      var toRemove := Touching(wires, gid);
      RemoveEach(toRemove);
      RemoveWiresShape(c0, WireIds(toRemove));
      gates := gates[..p] + gates[p + 1..];
      RunSimulation();
    }

    /** `cleanupWiringEvents()`: stop drawing and forget the start point;
        the start gate id and type stay behind, as in the program. */
    method CleanupWiringEvents()
      modifies this
      ensures !isWiring && wiringStartNode == None
      ensures gates == old(gates) && wires == old(wires) && display == old(display)
      ensures wiringStartGateId == old(wiringStartGateId) && wiringStartType == old(wiringStartType)
      ensures Valid() <==> Consistent(State())
    {
      isWiring := false;
      wiringStartNode := None;
    }

    /** `cancelWiring()`: drop the wire being drawn. */
    method CancelWiring()
      modifies this
      ensures !isWiring && wiringStartNode == None
      ensures gates == old(gates) && wires == old(wires) && display == old(display)
      ensures wiringStartGateId == old(wiringStartGateId) && wiringStartType == old(wiringStartType)
      ensures Valid() <==> Consistent(State())
    {
      CleanupWiringEvents();
    }

    /** `completeWiring(endNode, endGateId, endType)`: pair the start point with
        the end point; a pair becomes a wire with id `now` (the clock reading)
        whose target slot is pointed at the source, and the board is
        re-evaluated; anything else cancels. Either way drawing stops. */
    method CompleteWiring(endGateId: GateId, endType: string, now: WireId)
      requires Valid() && isWiring && !WireIdIn(wires, now)
      modifies this
      ensures State() == Complete(old(State()), old(wiringStartGateId), old(wiringStartType), endGateId, endType, now)
      ensures !isWiring && wiringStartNode == None
      ensures wiringStartGateId == old(wiringStartGateId) && wiringStartType == old(wiringStartType)
      ensures Valid()
      ensures Pair(old(wiringStartGateId), old(wiringStartType), endGateId, endType).None? ==> display == old(display)
      ensures Pair(old(wiringStartGateId), old(wiringStartType), endGateId, endType).Some? ==> display == DisplayText(State())
    {
      var link := Pair(wiringStartGateId, wiringStartType, endGateId, endType);
      if link.None? {
        CancelWiring();
        return;
      }
      var l := link.value;
      ghost var c0 := State();
      ConnectEffect(c0, l.outGate, l.inGate, l.index, now);
      wires := wires + [Wire(now, l.outGate, l.inGate, l.index)];
      var sourceGate := Find(gates, l.outGate);
      var v := if sourceGate.Some? then Some(l.outGate) else None;
      var target := IndexOf(gates, l.inGate);
      if target.Some? {
        var t := target.value;
        gates := gates[t := gates[t].WithInput(l.index, v)];
      }
      assert gates == SetSlot(c0.gates, l.inGate, l.index, v);
      CleanupWiringEvents();
      RunSimulation();
    }

    /** `startWiring(node, gateId, type)` as the mouse handlers call it, with
        `type` the first word of the point's class name: while drawing, a press
        either goes on to `completeWiring` or cancels; otherwise it starts
        drawing from the point. */
    method StartWiring(node: Node, now: WireId)
      requires Valid() && !WireIdIn(wires, now)
      modifies this
      ensures Valid()
      ensures old(isWiring) && Forwards(old(wiringStartNode).value, node) ==>
                State() == Complete(old(State()), old(wiringStartGateId), old(wiringStartType),
                                    node.gate, PortType(node.port), now) && !isWiring
      ensures old(isWiring) && !Forwards(old(wiringStartNode).value, node) ==>
                State() == old(State()) && !isWiring
      ensures !old(isWiring) ==>
                State() == old(State()) && isWiring && wiringStartNode == Some(node) && display == old(display)
      ensures !old(isWiring) ==> wiringStartGateId == node.gate && wiringStartType == PortType(node.port)
      ensures old(isWiring) ==> wiringStartGateId == old(wiringStartGateId) && wiringStartType == old(wiringStartType)
      ensures old(isWiring) && Forwards(old(wiringStartNode).value, node) &&
              Pair(old(wiringStartGateId), old(wiringStartType), node.gate, PortType(node.port)).Some? ==>
                display == DisplayText(State())
      ensures old(isWiring) && !(Forwards(old(wiringStartNode).value, node) &&
              Pair(old(wiringStartGateId), old(wiringStartType), node.gate, PortType(node.port)).Some?) ==>
                display == old(display)
    {
      if isWiring {
        if Forwards(wiringStartNode.value, node) {
          CompleteWiring(node.gate, PortType(node.port), now);
        } else {
          CancelWiring();
        }
        return;
      }
      isWiring := true;
      wiringStartNode := Some(node);
      wiringStartGateId := node.gate;
      wiringStartType := PortType(node.port);
    }

    /** `completeWiringTouch(e)`: `target` is the point under the lifted finger,
        if it is one and a listed gate holds it. That point ends the wire with
        the type the touch handler reads; no point cancels. */
    method CompleteWiringTouch(target: Option<Node>, now: WireId)
      requires Valid() && !WireIdIn(wires, now)
      modifies this
      ensures Valid() && !isWiring
      ensures !old(isWiring) ==> State() == old(State()) && display == old(display)
      ensures old(isWiring) && target.Some? ==>
                State() == Complete(old(State()), old(wiringStartGateId), old(wiringStartType),
                                    target.value.gate, TouchType(target.value.port), now)
      ensures old(isWiring) && target.None? ==> State() == old(State())
      ensures wiringStartGateId == old(wiringStartGateId) && wiringStartType == old(wiringStartType)
      ensures old(isWiring) && target.Some? &&
              Pair(old(wiringStartGateId), old(wiringStartType), target.value.gate, TouchType(target.value.port)).Some? ==>
                display == DisplayText(State())
      ensures old(isWiring) && !(target.Some? &&
              Pair(old(wiringStartGateId), old(wiringStartType), target.value.gate, TouchType(target.value.port)).Some?) ==>
                display == old(display)
    {
      if !isWiring {
        return;
      }
      if target.Some? {
        CompleteWiring(target.value.gate, TouchType(target.value.port), now);
        return;
      }
      CancelWiring();
    }

    /** `clearBoard()`: empty both lists. The board is not re-evaluated, so
        the panel keeps its text, and a wire being drawn stays in progress. */
    method ClearBoard()
      requires Valid()
      modifies this
      ensures gates == [] && wires == []
      ensures display == old(display) && isWiring == old(isWiring) && wiringStartNode == old(wiringStartNode)
      ensures wiringStartGateId == old(wiringStartGateId) && wiringStartType == old(wiringStartType)
      ensures Valid()
    {
      gates := [];
      wires := [];
    }
  }
}
