/** `LogicGate.getExpression`: the boolean expression that drives a gate,
    printed by recursion over its input slots. The list of gate ids on the
    current path is the cycle guard: a gate met again prints `...`. */
module GateExpression {
  import opened Options
  import opened Text
  import opened LogicGate
  import opened Ids

  /** The ids of the listed gates. */
  function IdSet(gs: seq<Gate>): set<GateId>
  {
    set g | g in gs :: g.id
  }

  /** `SW${id.substr(-2)}`: the leaf printed for a switch, `SW` followed by
      the last two characters of its id (all of it when it is shorter). */
  function SwitchToken(id: GateId): (t: string)
    ensures |t| == 2 + (if |IdText(id)| < 2 then |IdText(id)| else 2)
    ensures t[..2] == "SW" && t[2..] == IdText(id)[|IdText(id)| - (|t| - 2)..]
  {
    "SW" + LastTwo(IdText(id))
  }

  /** `gate.getExpression(visited)`, with the gate list standing in for the
      gate objects its slots refer to. */
  function GetExpression(gs: seq<Gate>, g: Gate, visited: seq<GateId>): string
    requires g in gs
    decreases IdSet(gs) - set x | x in visited, 0
  {
    if g.id in visited then "..."
    else if g.kind == SWITCH then SwitchToken(g.id)
    else
      var seen := visited + [g.id];
      assert g.id in IdSet(gs) - set x | x in visited;
      var i1 := InputExpression(gs, g.input0, seen);
      var i2 := InputExpression(gs, g.input1, seen);
      match g.kind
      case AND => "(" + i1 + " & " + i2 + ")"
      case OR => "(" + i1 + " | " + i2 + ")"
      case NOT => "!(" + i1 + ")"
      case XOR => "(" + i1 + " ^ " + i2 + ")"
      case LIGHT => i1
      case SWITCH => "?"
  }

  /** What an input slot contributes to a printed expression: the expression
      of the gate it names, or `0` when the slot is empty or names no listed gate. */
  function InputExpression(gs: seq<Gate>, slot: Option<GateId>, visited: seq<GateId>): string
    decreases IdSet(gs) - set x | x in visited, 1
  {
    match slot
    case None => "0"
    case Some(id) =>
      match Find(gs, id)
      case None => "0"
      case Some(h) => GetExpression(gs, h, visited)
  }

  /** What a printed expression denotes: a boolean formula over switches. */
  datatype Term =
    | Cycle
    | SwitchLeaf(id: GateId)
    | Zero
    | AndOf(left: Term, right: Term)
    | OrOf(left: Term, right: Term)
    | XorOf(left: Term, right: Term)
    | NotOf(arg: Term)

  /** The text of a formula, in the notation `getExpression` prints. */
  function Render(t: Term): string
  {
    match t
    case Cycle => "..."
    case SwitchLeaf(id) => SwitchToken(id)
    case Zero => "0"
    case AndOf(a, b) => "(" + Render(a) + " & " + Render(b) + ")"
    case OrOf(a, b) => "(" + Render(a) + " | " + Render(b) + ")"
    case XorOf(a, b) => "(" + Render(a) + " ^ " + Render(b) + ")"
    case NotOf(a) => "!(" + Render(a) + ")"
  }

  /** The value of a formula when every switch leaf reads its switch's bit;
      None when the formula was cut short by the cycle guard. */
  function Value(t: Term, gs: seq<Gate>): Option<bool>
  {
    match t
    case Cycle => None
    case SwitchLeaf(id) => Some(Read(gs, Some(id)))
    case Zero => Some(false)
    case AndOf(a, b) =>
      (match (Value(a, gs), Value(b, gs))
       case (Some(x), Some(y)) => Some(x && y)
       case _ => None)
    case OrOf(a, b) =>
      (match (Value(a, gs), Value(b, gs))
       case (Some(x), Some(y)) => Some(x || y)
       case _ => None)
    case XorOf(a, b) =>
      (match (Value(a, gs), Value(b, gs))
       case (Some(x), Some(y)) => Some(x != y)
       case _ => None)
    case NotOf(a) =>
      (match Value(a, gs)
       case Some(x) => Some(!x)
       case None => None)
  }

  /** The formula that drives a gate, following the same recursion as
      `getExpression`. */
  ghost function TermOf(gs: seq<Gate>, g: Gate, visited: seq<GateId>): Term
    requires g in gs
    decreases IdSet(gs) - set x | x in visited, 0
  {
    if g.id in visited then Cycle
    else if g.kind == SWITCH then SwitchLeaf(g.id)
    else
      var seen := visited + [g.id];
      assert g.id in IdSet(gs) - set x | x in visited;
      Combine(g.kind, InputTerm(gs, g.input0, seen), InputTerm(gs, g.input1, seen))
  }

  /** The formula a gate of kind `k` builds from the formulas of its two slots. */
  function Combine(k: GateType, t1: Term, t2: Term): Term
  {
    match k
    case AND => AndOf(t1, t2)
    case OR => OrOf(t1, t2)
    case NOT => NotOf(t1)
    case XOR => XorOf(t1, t2)
    case LIGHT => t1
    case SWITCH => Zero
  }

  ghost function InputTerm(gs: seq<Gate>, slot: Option<GateId>, visited: seq<GateId>): Term
    decreases IdSet(gs) - set x | x in visited, 1
  {
    match slot
    case None => Zero
    case Some(id) =>
      match Find(gs, id)
      case None => Zero
      case Some(h) => TermOf(gs, h, visited)
  }

  /** The printed expression is exactly the text of the gate's formula. */
  lemma {:induction false} GetExpressionRendersTerm(gs: seq<Gate>, g: Gate, visited: seq<GateId>)
    requires g in gs
    ensures GetExpression(gs, g, visited) == Render(TermOf(gs, g, visited))
    decreases IdSet(gs) - set x | x in visited, 0
  {
    if g.id !in visited && g.kind != SWITCH {
      var seen := visited + [g.id];
      assert g.id in IdSet(gs) - set x | x in visited;
      InputExpressionRendersTerm(gs, g.input0, seen);
      InputExpressionRendersTerm(gs, g.input1, seen);
    }
  }

  lemma {:induction false} InputExpressionRendersTerm(gs: seq<Gate>, slot: Option<GateId>, visited: seq<GateId>)
    ensures InputExpression(gs, slot, visited) == Render(InputTerm(gs, slot, visited))
    decreases IdSet(gs) - set x | x in visited, 1
  {
    if slot.Some? && Find(gs, slot.value).Some? {
      GetExpressionRendersTerm(gs, Find(gs, slot.value).value, visited);
    }
  }

  /** At a fixed point of the evaluator, the formula shown for a gate, when
      the cycle guard did not cut it short, evaluates to the gate's output bit. */
  lemma {:induction false} FormulaAgreesAtFixedPoint(gs: seq<Gate>, g: Gate, visited: seq<GateId>)
    requires UniqueIds(gs)
    requires forall i :: 0 <= i < |gs| ==> Evaluate(gs[i], gs) == gs[i]
    requires g in gs
    ensures Value(TermOf(gs, g, visited), gs).Some? ==>
              Value(TermOf(gs, g, visited), gs) == Some(g.outputState)
    decreases IdSet(gs) - set x | x in visited, 0
  {
    var i :| 0 <= i < |gs| && gs[i] == g;
    FindListed(gs, i);
    if g.id !in visited && g.kind != SWITCH {
      var seen := visited + [g.id];
      assert g.id in IdSet(gs) - set x | x in visited;
      SlotAgreesAtFixedPoint(gs, g.input0, seen);
      SlotAgreesAtFixedPoint(gs, g.input1, seen);
      CombineValue(g.kind, InputTerm(gs, g.input0, seen), InputTerm(gs, g.input1, seen), gs,
                   Read(gs, g.input0), Read(gs, g.input1));
      assert Evaluate(g, gs) == g;
    }
  }

  /** The formula a gate builds computes its truth table over whatever its
      slots' formulas compute, unless the cycle guard cut one of them short. */
  lemma CombineValue(k: GateType, t1: Term, t2: Term, gs: seq<Gate>, v0: bool, v1: bool)
    requires Value(t1, gs).Some? ==> Value(t1, gs) == Some(v0)
    requires Value(t2, gs).Some? ==> Value(t2, gs) == Some(v1)
    ensures var c := Value(Combine(k, t1, t2), gs);
            && (k == AND && c.Some? ==> c == Some(v0 && v1))
            && (k == OR && c.Some? ==> c == Some(v0 || v1))
            && (k == XOR && c.Some? ==> c == Some(v0 != v1))
            && (k == NOT && c.Some? ==> c == Some(!v0))
            && (k == LIGHT && c.Some? ==> c == Some(v0))
  {
  }


  lemma {:induction false} SlotAgreesAtFixedPoint(gs: seq<Gate>, slot: Option<GateId>, visited: seq<GateId>)
    requires UniqueIds(gs)
    requires forall i :: 0 <= i < |gs| ==> Evaluate(gs[i], gs) == gs[i]
    ensures Value(InputTerm(gs, slot, visited), gs).Some? ==>
              Value(InputTerm(gs, slot, visited), gs) == Some(Read(gs, slot))
    decreases IdSet(gs) - set x | x in visited, 1
  {
    if slot.Some? && Find(gs, slot.value).Some? {
      FormulaAgreesAtFixedPoint(gs, Find(gs, slot.value).value, visited);
    }
  }

  /** Two NOT gates feeding each other: the repeated gate prints the sentinel. */
  lemma TwoCyclePrintsSentinel(gs: seq<Gate>, a: Gate, b: Gate)
    requires UniqueIds(gs) && a in gs && b in gs && a.id != b.id
    requires a.kind == NOT && b.kind == NOT
    requires a.input0 == Some(b.id) && b.input0 == Some(a.id)
    ensures GetExpression(gs, a, []) == "!(!(...))"
  {
    FindIn(gs, a);
    FindIn(gs, b);
    var t := TwoCycleTerm(gs, a, b);
    GetExpressionRendersTerm(gs, a, []);
    assert Render(t) == "!(" + "!(" + "..." + ")" + ")";
  }

  lemma TwoCycleTerm(gs: seq<Gate>, a: Gate, b: Gate) returns (t: Term)
    requires a in gs && b in gs && a.id != b.id
    requires Find(gs, a.id) == Some(a) && Find(gs, b.id) == Some(b)
    requires a.kind == NOT && b.kind == NOT
    requires a.input0 == Some(b.id) && b.input0 == Some(a.id)
    ensures t == TermOf(gs, a, []) == NotOf(NotOf(Cycle))
  {
    var va: seq<GateId> := [a.id];
    assert [] + [a.id] == va;
    var vab := va + [b.id];
    assert TermOf(gs, a, vab) == Cycle;
    assert TermOf(gs, b, va) == NotOf(Cycle);
    t := NotOf(NotOf(Cycle));
  }

  /** Looking up a listed gate's id, in a list with unique ids, finds it. */
  lemma FindIn(gs: seq<Gate>, g: Gate)
    requires UniqueIds(gs) && g in gs
    ensures Find(gs, g.id) == Some(g)
  {
    var i :| 0 <= i < |gs| && gs[i] == g;
    FindListed(gs, i);
  }

  /** An AND gate with its first input on a switch and its second slot empty
      prints the switch's leaf, `&` and the literal `0`. */
  lemma AndWithEmptySlot(gs: seq<Gate>, g: Gate, sw: Gate)
    requires UniqueIds(gs) && g in gs && sw in gs
    requires g.kind == AND && sw.kind == SWITCH
    requires g.input0 == Some(sw.id) && g.input1 == None
    ensures GetExpression(gs, g, []) == "(" + SwitchToken(sw.id) + " & 0)"
  {
    FindIn(gs, sw);
    assert g.id != sw.id by {
      var i :| 0 <= i < |gs| && gs[i] == g;
      var j :| 0 <= j < |gs| && gs[j] == sw;
      assert i != j;
      if i < j { } else { }
    }
    var t := AndTerm(gs, g, sw);
    GetExpressionRendersTerm(gs, g, []);
    RenderAndZero(SwitchLeaf(sw.id));
  }

  lemma AndTerm(gs: seq<Gate>, g: Gate, sw: Gate) returns (t: Term)
    requires g in gs && sw in gs && Find(gs, sw.id) == Some(sw) && g.id != sw.id
    requires g.kind == AND && sw.kind == SWITCH
    requires g.input0 == Some(sw.id) && g.input1 == None
    ensures t == TermOf(gs, g, []) == AndOf(SwitchLeaf(sw.id), Zero)
  {
    var seen: seq<GateId> := [g.id];
    assert [] + [g.id] == seen;
    assert TermOf(gs, sw, seen) == SwitchLeaf(sw.id);
    t := AndOf(SwitchLeaf(sw.id), Zero);
  }

  lemma RenderAndZero(t: Term)
    ensures Render(AndOf(t, Zero)) == "(" + Render(t) + " & 0)"
  {
    RenderAnd(t, Zero);
    RegroupAndZero(Render(t), Render(Zero));
  }

  lemma RenderAnd(t: Term, u: Term)
    ensures Render(AndOf(t, u)) == "(" + Render(t) + " & " + Render(u) + ")"
  {
  }

  lemma RegroupAndZero(x: string, z: string)
    requires z == "0"
    ensures "(" + x + " & " + z + ")" == "(" + x + " & 0)"
  {
    assert " & " + z + ")" == " & 0)";
    assert "(" + x + " & " + z + ")" == "(" + x + (" & " + z + ")");
  }

  /** Two switches with ids of at least two characters print the same leaf
      exactly when their ids end in the same two characters. */
  lemma SwitchTokenSameIffSameEnding(a: GateId, b: GateId)
    requires |IdText(a)| >= 2 && |IdText(b)| >= 2
    ensures SwitchToken(a) == SwitchToken(b) <==> IdText(a)[|IdText(a)| - 2..] == IdText(b)[|IdText(b)| - 2..]
  {
    var ta, tb := SwitchToken(a), SwitchToken(b);
    if ta == tb {
      assert ta[2..] == tb[2..];
    }
  }

  /** So two different switches can print the same leaf. */
  lemma SwitchTokensCanCollide()
    ensures exists a: GateId, b: GateId :: a != b && SwitchToken(a) == SwitchToken(b) == "SW12"
  {
    var sa: string, sb: string := "0k12", "7q12";
    var a := TokenOfText(sa);
    var b := TokenOfText(sb);
    assert sa[2..] == sb[2..] == "12";
    assert IdText(a)[0] != IdText(b)[0];
  }

  /** The switch whose id prints as `s` (two or more id characters) prints
      the last two of them. */
  lemma TokenOfText(s: string) returns (id: GateId)
    requires IdString(s) && |s| >= 2
    ensures IdText(id) == s && SwitchToken(id) == "SW" + s[|s| - 2..]
  {
    id := IdOfText(s);
    IdTextOfIdOfText(s);
  }

  /** A switch made by `addGate` with a random suffix of two or more characters
      prints the suffix's last two characters: the clock does not show. */
  lemma SwitchTokenOfGeneratedId(now: nat, suffix: string)
    requires IdString(suffix) && |suffix| >= 2
    ensures SwitchToken(GeneratedId(now, suffix)) == "SW" + suffix[|suffix| - 2..]
  {
    var t := NatToString(now) + suffix;
    assert t[|t| - 2..] == suffix[|suffix| - 2..];
  }
}
