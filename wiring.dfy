/** The wiring protocol of `LogicBoard` (`startWiring`, `completeWiring`,
    `completeWiringTouch`): which pair of connection points becomes a wire,
    and into which input slot. A connection point (`io-node`) is named by its
    gate and its port; the strings are those the program compares. */
module Wiring {
  import opened Options
  import opened LogicGate

  /** The connection points `createNodes` gives a gate. */
  datatype Port = Output | Input1 | Input2 | InputCenter

  /** One connection point of one gate: the program's `io-node` element. */
  datatype Node = Node(gate: GateId, port: Port)

  predicate IsOutput(p: Port)
  {
    p == Output
  }

  /** The first class word of an input point. */
  function InputWord(p: Port): string
    requires !IsOutput(p)
  {
    match p
    case Input1 => "input-1"
    case Input2 => "input-2"
    case InputCenter => "input-center"
  }

  /** The class name `addNode` gives the point, also kept as `node.dataset.type`:
      `output`, `input-1 input`, `input-2 input` or `input-center input`. */
  function ClassName(p: Port): string
  {
    if IsOutput(p) then "output" else InputWord(p) + " input"
  }

  /** `s.split(' ')[0]`: the text before the first space. */
  function FirstWord(s: string): (w: string)
    ensures |w| <= |s| && w == s[..|w|]
    ensures forall i :: 0 <= i < |w| ==> w[i] != ' '
    ensures |w| < |s| ==> s[|w|] == ' '
  {
    if s == [] || s[0] == ' ' then "" else [s[0]] + FirstWord(s[1..])
  }

  /** The `type` the mouse handlers of a point pass to `startWiring`. */
  function PortType(p: Port): string
  {
    FirstWord(ClassName(p))
  }

  /** The class words of a point's element: `io-node` and its class name's words. */
  function ClassWords(p: Port): seq<string>
  {
    if IsOutput(p) then ["io-node", "output"] else ["io-node", InputWord(p), "input"]
  }

  /** The `type` `completeWiringTouch` reads off the class list of the point under the finger. */
  function TouchType(p: Port): string
  {
    var ws := ClassWords(p);
    if "input-1" in ws then "input-1"
    else if "input-2" in ws then "input-2"
    else if "input" in ws then "input"
    else "output"
  }

  /** `s.includes(t)`: `t` occurs in `s` at some position. */
  predicate Includes(s: string, t: string)
    decreases |s|
  {
    |t| <= |s| && (s[..|t|] == t || Includes(s[1..], t))
  }

  /** The slot an input type leads to in `completeWiring`: slot 1 for `input-2`, slot 0 for any other. */
  function InputIndex(t: string): (r: SlotIndex)
    ensures r == 1 <==> t == "input-2"
  {
    if t == "input-1" then 0 else if t == "input-2" then 1 else 0
  }

  /** A wire to be made: from the output of `outGate` into slot `index` of `inGate`. */
  datatype Link = Link(outGate: GateId, inGate: GateId, index: SlotIndex)

  /** The branches of `completeWiring`: an output start with an input end,
      or an input start with an output end, makes a link; anything else cancels. */
  function Pair(startGate: GateId, startType: string, endGate: GateId, endType: string): Option<Link>
  {
    if startType == "output" && Includes(endType, "input") then
      Some(Link(startGate, endGate, InputIndex(endType)))
    else if Includes(startType, "input") && endType == "output" then
      Some(Link(endGate, startGate, InputIndex(startType)))
    else None
  }

  /** The test `startWiring` applies while a wire is being drawn: a press on
      `node` goes on to `completeWiring` when it is another point and the
      start point's class name differs from the pressed point's type. */
  predicate Forwards(start: Node, node: Node)
  {
    start != node && ClassName(start.port) != PortType(node.port)
  }

  /** The slot an input point feeds, as the point's position on the gate says. */
  function SlotOf(p: Port): SlotIndex
  {
    if p == Input2 then 1 else 0
  }

  // ----- facts about the strings -----

  lemma {:induction false} FirstWordWhole(w: string)
    requires forall i :: 0 <= i < |w| ==> w[i] != ' '
    ensures FirstWord(w) == w
    decreases |w|
  {
    if w != [] {
      FirstWordWhole(w[1..]);
    }
  }

  lemma {:induction false} FirstWordBeforeSpace(w: string, tail: string)
    requires forall i :: 0 <= i < |w| ==> w[i] != ' '
    requires |tail| > 0 && tail[0] == ' '
    ensures FirstWord(w + tail) == w
    decreases |w|
  {
    if w == [] {
      assert w + tail == tail;
    } else {
      FirstWordBeforeSpace(w[1..], tail);
      assert (w + tail)[1..] == w[1..] + tail;
    }
  }

  /** The type the mouse handlers pass is `output` or the point's first class word. */
  lemma PortTypeIs(p: Port)
    ensures PortType(p) == if IsOutput(p) then "output" else InputWord(p)
  {
    if IsOutput(p) {
      FirstWordWhole("output");
    } else {
      FirstWordBeforeSpace(InputWord(p), " input");
    }
  }

  /** The type the touch handler reads: a centre point gives `input`. */
  lemma TouchTypeIs(p: Port)
    ensures TouchType(p) == if IsOutput(p) then "output" else if p == InputCenter then "input" else InputWord(p)
  {
    var ws := ClassWords(p);
    if p == InputCenter {
      assert ws[1][6] == 'c';
      assert "input-1"[6] == '1' && "input-2"[6] == '2';
      assert "input-1" !in ws && "input-2" !in ws;
      assert "input" in ws;
    } else if p == Input2 {
      assert "input-1" != ws[1] by { assert "input-1"[6] != ws[1][6]; }
      assert "input-1" !in ws;
    } else if IsOutput(p) {
      assert "input-1" !in ws && "input-2" !in ws && "input" !in ws;
    }
  }

  /** The strings the branches of `completeWiring` compare. */
  lemma WordFacts(p: Port)
    requires !IsOutput(p)
    ensures InputWord(p) != "output" && "input" != "output"
    ensures Includes(InputWord(p), "input") && Includes("input", "input") && !Includes("output", "input")
    ensures InputIndex(InputWord(p)) == SlotOf(p) && InputIndex("input") == 0
  {
    var w := InputWord(p);
    assert w[0] != "output"[0];
    assert w[..5] == "input";
    assert "input"[..5] == "input";
    NoInputInOutput();
    if p == Input2 {
      assert w != "input-1" by { assert w[6] != "input-1"[6]; }
    } else if p == InputCenter {
      assert w != "input-1" && w != "input-2" by { assert |w| != 7; }
    }
    assert "input" != "input-1" && "input" != "input-2" by { assert |"input"| == 5; }
  }

  lemma NoInputInOutput()
    ensures !Includes("output", "input")
  {
    var s := "output";
    assert s[..5] != "input" by { assert s[0] != 'i'; }
    assert s[1..][..5] != "input" by { assert s[1] != 'i'; }
    assert |s[1..][1..]| < 5;
  }

  // ----- the protocol -----

  /** A press while drawing goes on to `completeWiring` exactly when it is on
      another point and not an output pressed after an output: an input start
      always goes on, because its class name holds a space and no type does. */
  lemma ForwardsIff(start: Node, node: Node)
    ensures Forwards(start, node) <==> start != node && !(IsOutput(start.port) && IsOutput(node.port))
  {
    PortTypeIs(node.port);
    if !IsOutput(start.port) {
      var cn := ClassName(start.port);
      var w := PortType(node.port);
      assert ' ' in cn by { assert cn[|InputWord(start.port)|] == ' '; }
      assert ' ' !in w;
    } else if !IsOutput(node.port) {
      assert "output" != InputWord(node.port) by { assert "output"[0] != InputWord(node.port)[0]; }
    }
  }

  /** `completeWiring`, with both types as the mouse handlers pass them, makes a
      link exactly when one point is an output and the other an input. The link
      runs from the output's gate into the input's gate, into slot 1 for an
      `input-2` point and slot 0 for the others. */
  lemma PairIff(a: Node, b: Node)
    ensures var r := Pair(a.gate, PortType(a.port), b.gate, PortType(b.port));
            && (r.Some? <==> IsOutput(a.port) != IsOutput(b.port))
            && (IsOutput(a.port) && !IsOutput(b.port) ==> r == Some(Link(a.gate, b.gate, SlotOf(b.port))))
            && (!IsOutput(a.port) && IsOutput(b.port) ==> r == Some(Link(b.gate, a.gate, SlotOf(a.port))))
  {
    PortTypeIs(a.port);
    PortTypeIs(b.port);
    if !IsOutput(a.port) { WordFacts(a.port); }
    if !IsOutput(b.port) { WordFacts(b.port); }
    NoInputInOutput();
  }

  /** Ending a wire with the finger pairs the points as ending it with the mouse
      does: the touch handler's `input` for a centre point leads to slot 0 too. */
  lemma TouchPairsLikeMouse(a: Node, b: Node)
    ensures Pair(a.gate, PortType(a.port), b.gate, TouchType(b.port)) ==
            Pair(a.gate, PortType(a.port), b.gate, PortType(b.port))
  {
    PortTypeIs(a.port);
    PortTypeIs(b.port);
    TouchTypeIs(b.port);
    if !IsOutput(a.port) { WordFacts(a.port); }
    if !IsOutput(b.port) { WordFacts(b.port); }
    NoInputInOutput();
  }

  /** Pressing a second point while drawing from a first one makes a wire exactly
      when the two points have opposite directions; nothing forbids the two
      points from belonging to the same gate. */
  lemma PressConnectsIff(start: Node, node: Node)
    ensures (Forwards(start, node) && Pair(start.gate, PortType(start.port), node.gate, PortType(node.port)).Some?)
            <==> IsOutput(start.port) != IsOutput(node.port)
  {
    ForwardsIff(start, node);
    PairIff(start, node);
  }
}
