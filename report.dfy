/** What the board reports about its state: the text of the expression panel
    (`updateExpressionDisplay`), the expression of the first light
    (`generateTotalExpression`) and how each wire is drawn (`updateWireVisual`). */
module Report {
  import opened Options
  import opened Text
  import opened LogicGate
  import opened GateExpression
  import opened BoardLogic

  /** The LIGHT gates, in list order: the `filter` of `updateExpressionDisplay`. */
  function Lights(gs: seq<Gate>): (r: seq<Gate>)
    ensures |r| <= |gs|
    ensures forall g :: g in r <==> g in gs && g.kind == LIGHT
  {
    if gs == [] then []
    else (if gs[0].kind == LIGHT then [gs[0]] else []) + Lights(gs[1..])
  }

  /** The first LIGHT of the list, as `gates.find` finds it in `generateTotalExpression`. */
  function FirstLight(gs: seq<Gate>): (r: Option<Gate>)
    ensures r.None? <==> forall g :: g in gs ==> g.kind != LIGHT
    ensures r.Some? ==> r.value in gs && r.value.kind == LIGHT
    ensures r.Some? ==> exists k :: 0 <= k < |gs| && gs[k] == r.value && forall m :: 0 <= m < k ==> gs[m].kind != LIGHT
  {
    if gs == [] then None
    else if gs[0].kind == LIGHT then Some(gs[0])
    else FirstLight(gs[1..])
  }

  /** The earliest wire into the gate, as `wires.find` finds it. */
  function FirstWireInto(ws: seq<Wire>, id: GateId): (r: Option<Wire>)
    ensures r.None? <==> forall w :: w in ws ==> w.toGate != id
    ensures r.Some? ==> r.value in ws && r.value.toGate == id
    ensures r.Some? ==> exists k :: 0 <= k < |ws| && ws[k] == r.value && forall m :: 0 <= m < k ==> ws[m].toGate != id
  {
    if ws == [] then None
    else if ws[0].toGate == id then Some(ws[0])
    else FirstWireInto(ws[1..], id)
  }

  /** The gate the earliest wire into `light` comes from, if that gate is listed. */
  function LightSource(c: Circuit, light: Gate): (r: Option<Gate>)
    ensures r.Some? ==> r.value in c.gates
  {
    match FirstWireInto(c.wires, light.id)
    case None => None
    case Some(w) => Find(c.gates, w.fromGate)
  }

  /** The label of the light at position `i` among the lights: `L` and the number `i + 1`. */
  function Label(i: nat): string
  {
    "L" + NatToString(i + 1)
  }

  /** One entry of the panel for the light at position `i` among the lights. */
  function LightEntry(c: Circuit, light: Gate, i: nat): string
  {
    match LightSource(c, light)
    case None => Label(i) + ": OFF"
    case Some(src) => Label(i) + " = " + GetExpression(c.gates, src, [])
  }

  /** The panel's entries, one per light in list order, the light at position
      `i` labelled `L{i+1}`. */
  function Entries(c: Circuit): (r: seq<string>)
    ensures |r| == |Lights(c.gates)|
  {
    var ls := Lights(c.gates);
    seq(|ls|, i requires 0 <= i < |ls| => LightEntry(c, ls[i], i))
  }

  /** The text `updateExpressionDisplay` puts in the panel. */
  function DisplayText(c: Circuit): string
  {
    if |Lights(c.gates)| == 0 then "Expression: No Output" else Join(Entries(c), " | ")
  }

  /** What `generateTotalExpression` returns: the expression of the gate feeding the first light through its earliest wire, `Light OFF` when there is none, `No Output` without a light. */
  function TotalExpression(c: Circuit): string
  {
    match FirstLight(c.gates)
    case None => "No Output"
    case Some(light) =>
      match LightSource(c, light)
      case None => "Light OFF"
      case Some(src) => GetExpression(c.gates, src, [])
  }

  /** How `updateWireVisual` leaves a wire's path: taken off the page when either
      end's gate is no longer listed, otherwise drawn, lit when its source is on. */
  datatype Look = Detached | Drawn(active: bool)

  function WireLook(gs: seq<Gate>, w: Wire): Look
  {
    match Find(gs, w.fromGate)
    case None => Detached
    case Some(src) =>
      if Find(gs, w.toGate).None? then Detached else Drawn(src.outputState)
  }

  // ----- properties -----

  /** Filtering a joined list filters each part, so the lights keep their list order. */
  lemma {:induction false} LightsAppend(a: seq<Gate>, b: seq<Gate>)
    ensures Lights(a + b) == Lights(a) + Lights(b)
  {
    if a != [] {
      assert (a + b)[1..] == a[1..] + b;
      LightsAppend(a[1..], b);
    } else {
      assert a + b == b;
    }
  }

  /** The first light found is the first of the lights. */
  lemma {:induction false} FirstLightIsFirstOfLights(gs: seq<Gate>)
    ensures FirstLight(gs).Some? <==> |Lights(gs)| > 0
    ensures FirstLight(gs).Some? ==> FirstLight(gs).value == Lights(gs)[0]
  {
    if gs != [] {
      FirstLightIsFirstOfLights(gs[1..]);
    }
  }

  /** An entry reads `OFF` exactly when the light has no listed source. */
  lemma EntryOffIff(c: Circuit, light: Gate, i: nat)
    ensures LightEntry(c, light, i) == Label(i) + ": OFF" <==> LightSource(c, light).None?
  {
    var l := Label(i);
    if LightSource(c, light).Some? {
      var e := LightEntry(c, light, i);
      assert e[|l|] == ' ';
      assert (l + ": OFF")[|l|] == ':';
    }
  }

  /** The panel says `Expression: No Output` exactly when there is no light. */
  lemma DisplayNoOutputIff(c: Circuit)
    ensures DisplayText(c) == "Expression: No Output" <==> forall g :: g in c.gates ==> g.kind != LIGHT
  {
    var ls := Lights(c.gates);
    if |ls| > 0 {
      assert ls[0] in c.gates;
      var es := Entries(c);
      JoinStartsWithFirst(es, " | ");
      assert es[0][0] == 'L';
      assert DisplayText(c)[0] == 'L';
    }
  }

  /** The panel's first entry and `generateTotalExpression` tell the same story
      about the first light: `L1: OFF` when it says `Light OFF`, and otherwise
      `L1 = ` followed by the very expression it returns. */
  lemma FirstEntryAgreesWithTotal(c: Circuit)
    requires exists g :: g in c.gates && g.kind == LIGHT
    ensures |Entries(c)| > 0
    ensures TotalExpression(c) != "Light OFF" ==> Entries(c)[0] == "L1" + " = " + TotalExpression(c)
    ensures LightSource(c, FirstLight(c.gates).value).None? ==>
              TotalExpression(c) == "Light OFF" && Entries(c)[0] == "L1" + ": OFF"
  {
    FirstLightIsFirstOfLights(c.gates);
    var light := FirstLight(c.gates).value;
    assert light == Lights(c.gates)[0];
    FirstLabel();
    assert Entries(c)[0] == LightEntry(c, light, 0);
  }

  lemma FirstLabel()
    ensures Label(0) == "L1"
  {
    assert NatToString(1) == "1";
  }

  /** Lights at different positions get different labels. */
  lemma LabelsDistinct(i: nat, j: nat)
    requires Label(i) == Label(j)
    ensures i == j
  {
    assert Label(i)[1..] == NatToString(i + 1);
    assert Label(j)[1..] == NatToString(j + 1);
    NatToStringInjective(i + 1, j + 1);
  }


  /** A wire is taken off the page exactly when one of its ends is no longer listed. */
  lemma DetachedIff(gs: seq<Gate>, w: Wire)
    ensures WireLook(gs, w).Detached? <==> !Present(gs, w.fromGate) || !Present(gs, w.toGate)
    ensures WireLook(gs, w).Drawn? ==> WireLook(gs, w).active == Read(gs, Some(w.fromGate))
  {
  }

  /** On a consistent board every occupied slot has a drawn wire into it, lit
      exactly when the value the gate reads from that slot is on. */
  lemma SlotWireShowsValue(c: Circuit, j: nat, s: SlotIndex)
    requires Consistent(c) && j < |c.gates| && c.gates[j].Input(s).Some?
    ensures exists k :: 0 <= k < |c.wires| && c.wires[k].toGate == c.gates[j].id && c.wires[k].toInputIndex == s &&
              WireLook(c.gates, c.wires[k]) == Drawn(Read(c.gates, c.gates[j].Input(s)))
  {
    var src := c.gates[j].Input(s).value;
    var k :| 0 <= k < |c.wires| && c.wires[k].fromGate == src && c.wires[k].toGate == c.gates[j].id
             && c.wires[k].toInputIndex == s;
    assert Present(c.gates, c.gates[j].id);
    DetachedIff(c.gates, c.wires[k]);
  }
}
