/** A single logic element of the board (class `LogicGate` in script.js).
    In the program a gate's input slot holds a reference to another gate
    object; here it holds that gate's id, resolved through the board's
    gate list (the list the board owns, in its order). */
module LogicGate {
  import opened Options

  datatype GateType = AND | OR | NOT | XOR | SWITCH | LIGHT

  /** A gate id. The program's ids are strings over the digits and the
      lower-case letters; the id stands for the string `Ids.IdText(id)`, a
      one-to-one correspondence between numbers and such strings. */
  type GateId = nat

  /** Index of an input slot: `inputs[0]` or `inputs[1]`. */
  type SlotIndex = i: nat | i < 2

  datatype Gate = Gate(id: GateId, kind: GateType,
                       input0: Option<GateId>, input1: Option<GateId>,
                       outputState: bool)
  {
    /** What input slot `i` holds: the id of the gate it refers to, or nothing. */
    function Input(i: SlotIndex): Option<GateId>
    {
      if i == 0 then input0 else input1
    }

    /** The same gate with `inputs[i]` set to `v`. */
    function WithInput(i: SlotIndex, v: Option<GateId>): (g: Gate)
      ensures g.Input(i) == v && g.Input(1 - i) == Input(1 - i)
      ensures g.id == id && g.kind == kind && g.outputState == outputState
    {
      if i == 0 then this.(input0 := v) else this.(input1 := v)
    }
  }

  /** A freshly constructed gate: both slots empty, output off. */
  function NewGate(id: GateId, kind: GateType): Gate
  {
    Gate(id, kind, None, None, false)
  }

  /** A fresh gate reads false on both slots, so its first evaluation turns
      it on exactly when it is a NOT, whatever the rest of the board holds. */
  lemma NewGateEvaluates(id: GateId, kind: GateType, gs: seq<Gate>)
    ensures Evaluate(NewGate(id, kind), gs).outputState == (kind == NOT)
    ensures SameShape(Evaluate(NewGate(id, kind), gs), NewGate(id, kind))
  {
    assert Read(gs, None) == false;
  }

  /** Two gates are the same element wired the same way; only the output bit may differ. */
  predicate SameShape(a: Gate, b: Gate)
  {
    a.id == b.id && a.kind == b.kind && a.input0 == b.input0 && a.input1 == b.input1
  }

  /** Position-wise SameShape of two gate lists of equal length. */
  predicate SameShapes(a: seq<Gate>, b: seq<Gate>)
  {
    |a| == |b| && forall i :: 0 <= i < |a| ==> SameShape(a[i], b[i])
  }

  predicate Present(gs: seq<Gate>, id: GateId)
  {
    exists j :: 0 <= j < |gs| && gs[j].id == id
  }

  predicate UniqueIds(gs: seq<Gate>)
  {
    forall i, j :: 0 <= i < j < |gs| ==> gs[i].id != gs[j].id
  }

  /** The first position of the list holding a gate with that id, as `findIndex` finds it. */
  function IndexOf(gs: seq<Gate>, id: GateId): (r: Option<nat>)
    ensures r.None? <==> !Present(gs, id)
    ensures r.Some? ==> r.value < |gs| && gs[r.value].id == id
    ensures r.Some? ==> forall j :: 0 <= j < r.value ==> gs[j].id != id
  {
    if gs == [] then None
    else if gs[0].id == id then Some(0)
    else match IndexOf(gs[1..], id)
      case None => None
      case Some(k) => Some(k + 1)
  }

  /** The first gate of the list with that id, as `find` finds it. */
  function Find(gs: seq<Gate>, id: GateId): (r: Option<Gate>)
    ensures r.None? <==> !Present(gs, id)
    ensures r.Some? ==> r.value in gs && r.value.id == id
  {
    match IndexOf(gs, id)
    case None => None
    case Some(k) => Some(gs[k])
  }

  /** With unique ids, looking up a listed gate's id finds that very gate. */
  lemma FindListed(gs: seq<Gate>, i: nat)
    requires UniqueIds(gs) && i < |gs|
    ensures IndexOf(gs, gs[i].id) == Some(i) && Find(gs, gs[i].id) == Some(gs[i])
  {
  }

  /** A slot naming the first gate with that id reads that gate's bit. */
  lemma ReadFirst(gs: seq<Gate>, k: nat)
    requires k < |gs| && forall j :: 0 <= j < k ==> gs[j].id != gs[k].id
    ensures Read(gs, Some(gs[k].id)) == gs[k].outputState
  {
    assert Present(gs, gs[k].id);
  }

  /** The value an input slot carries into `evaluate`: the output bit of the
      gate it names; an empty slot, or one naming no listed gate, reads false. */
  function Read(gs: seq<Gate>, slot: Option<GateId>): (v: bool)
    ensures slot.None? || !Present(gs, slot.value) ==> !v
    ensures slot.Some? && Present(gs, slot.value) ==>
              v == gs[IndexOf(gs, slot.value).value].outputState
  {
    match slot
    case None => false
    case Some(id) =>
      match Find(gs, id)
      case None => false
      case Some(g) => g.outputState
  }

  /** `LogicGate.evaluate`: a SWITCH is left as it is; any other gate takes the
      value of its truth table over the current values of its two slots. */
  function Evaluate(g: Gate, gs: seq<Gate>): (r: Gate)
    ensures SameShape(r, g)
    ensures g.kind == SWITCH ==> r == g
    ensures g.kind == AND ==> r.outputState == (Read(gs, g.input0) && Read(gs, g.input1))
    ensures g.kind == OR ==> r.outputState == (Read(gs, g.input0) || Read(gs, g.input1))
    ensures g.kind == NOT ==> r.outputState == !Read(gs, g.input0)
    ensures g.kind == XOR ==> r.outputState == (Read(gs, g.input0) != Read(gs, g.input1))
    ensures g.kind == LIGHT ==> r.outputState == Read(gs, g.input0)
  {
    if g.kind == SWITCH then g
    else
      var v1 := Read(gs, g.input0);
      var v2 := Read(gs, g.input1);
      var res := match g.kind
        case AND => v1 && v2
        case OR => v1 || v2
        case NOT => !v1
        case XOR => if v1 then !v2 else v2
        case LIGHT => v1
        case SWITCH => false;
      g.(outputState := res)
  }
}
