# Logic board: a verified model

This project models the logic-board simulator in `script.js`: the class
`LogicGate` and the non-drawing part of the class `LogicBoard`. The board holds
two lists:

- **Gates.** Each gate has an id, a type (AND, OR, NOT, XOR, SWITCH or LIGHT),
  two input slots and an output bit. A slot refers to another gate or is empty.
- **Wires.** Each wire is a record `{id, fromGate, toGate, toInputIndex}`.

The board:

- evaluates the gates by repeated in-place sweeps, stopping after 50;
- prints the boolean expression that drives each light;
- lets the user draw wires between connection points (`io-node`s);
- deletes wires and gates, cascading the deletion to the slots involved.

Files and modules:

- `text.dfy`
  - `Options`: the option type, standing in for `null`/`undefined`.
  - `Text`: decimal text of numbers, `substr(-2)`, `join`.
  - `Ids`: the program's string ids as numbers.
- `gate.dfy`, module `LogicGate`: the gate record, lookup by id, and `evaluate`.
- `simulation.dfy`, module `Simulation`: the sweeps of `runSimulation` as functions, and what they guarantee.
- `expression.dfy`, module `GateExpression`: `getExpression` and the formula it prints.
- `board_logic.dfy`, module `BoardLogic`:
  - the two lists as a value `Circuit`;
  - each change the board makes to them (`removeWire`, `removeGate`, the connecting part of `completeWiring`, `addGate`, the switch click) as a function;
  - the invariant those changes keep.
- `wiring.dfy`, module `Wiring`:
  - the connection points and the strings the wiring handlers compare;
  - the decisions of `startWiring` and `completeWiring`.
- `report.dfy`, module `Report`: the text of the expression panel, `generateTotalExpression`, and whether a wire is drawn lit.
- `board.dfy`, module `Board`:
  - the class `LogicBoard`, with its fields updated in place by methods that follow the program;
  - each method is proved to leave the lists as the matching `BoardLogic` function says, and to keep the invariant `Valid()`.

## Modelling choices

- **Gate objects become values.** A gate is a datatype value in the board's
  `gates` sequence, and a slot holds the id of the gate it refers to. The id
  is resolved through the list with `find`.
- **The invariant.** `BoardLogic.Consistent` requires unique gate ids, unique
  wire ids, and every occupied slot naming a listed gate and backed by a wire
  from that gate into that slot. Under it, resolving an id reaches the object
  the program's slot holds. Every operation is proved to keep it.
- **Gate ids.** The program's ids are strings: the clock's decimal text
  followed by up to five random base-36 characters (`script.js:481`). The
  model numbers these strings in bijective base 36 (`Ids.IdText` /
  `Ids.IdOfText`, with both round trips proved). `SW` + `substr(-2)` is
  therefore computed on the id's real text.
- **Clock and randomness.** The clock reading and the random suffix are
  parameters of `AddGate`. A wire's id (`Date.now()`, `script.js:654`) is a
  parameter of the wiring methods. The methods require these ids to be new
  to the board, as the program silently assumes.
- **Connection points.** A point is a pair (gate id, port). The strings the
  handlers pass are computed from the class names exactly as the program
  builds them:
  - `ClassName`, the name `addNode` gives a point;
  - `PortType`, its `split(' ')[0]`;
  - `TouchType`, what the touch handler reads from the class list.
- **Evaluation order.** `runSimulation` sweeps Gauss–Seidel style: a gate sees
  the outputs already updated earlier in the same sweep. `SweepPrefix`
  models exactly that, and `Settle` / `Simulate` model the outer loop with
  its cap of 50.

Behaviours of the program that the model reproduces, and proves:

- **Stale wire after replacement.** Connecting a second source into an
  occupied slot leaves the first wire record in the list. Removing that
  older wire later empties the slot, although the newer wire still runs into
  it (`BoardLogic.StaleWireAfterReplacement`).
- **Self-loops are allowed.** Nothing stops a gate's output from feeding its
  own input (`Wiring.PressConnectsIff`). A board holding a NOT gate fed by
  itself never settles, whatever else it holds. `runSimulation` then stops
  at the cap of 50 sweeps, with that gate's bit back where it started
  (`Simulation.SelfFedNotNeverSettles`).
- **Switch names can repeat.** A switch prints as `SW` plus the last two
  characters of its id, so two different switches can print the same name
  (`GateExpression.SwitchTokensCanCollide`). When the random suffix has two
  or more characters, the clock part of an id never shows
  (`GateExpression.SwitchTokenOfGeneratedId`). `Math.random().toString(36)`
  can give a suffix shorter than that.
- **Some operations do not re-evaluate.** `addGate` and `clearBoard` do not
  run the simulation, so after `clearBoard` the panel keeps its old text.
  `cleanupWiringEvents` leaves `wiringStartGateId` and `wiringStartType`
  behind.
- **Two places where the program may surprise a reader.**
  - A LIGHT's expression in the panel is the expression of the gate feeding
    the first wire into the light. It is not the light's own
    `getExpression`.
  - A missing source gives `L{i+1}: OFF` in the panel, and `Light OFF` from
    `generateTotalExpression`.

## Model

| member | source | states |
|---|---|---|
| Text.NatToString | script.js:728-731 | the label number's text is non-empty and all decimal digits |
| Text.DigitsValueOfNatToString | script.js:728-731 | reading the decimal text back gives the number, so the text is faithful |
| Text.NatToStringInjective | script.js:728-731 | different numbers give different labels |
| Text.LastTwo | script.js:959 | `substr(-2)`: the last two characters, or the whole string when it is shorter |
| Text.JoinStartsWithFirst | script.js:733 | the joined panel text starts with the first entry |
| Text.Join | script.js:733 | `join`: the items with the separator between each two (definition); `JoinStartsWithFirst` states its property |
| Ids.DigitOf | script.js:481 | every id character has a base-36 digit value that maps back to it |
| Ids.IdText | script.js:481 | every number stands for a string of digits and lower-case letters |
| Ids.IdOfTextOfIdText | script.js:481 | numbering an id's text gives the id back |
| Ids.IdTextOfIdOfText | script.js:481 | the text of a string's number is that string |
| Ids.IdTextInjective | script.js:481 | different ids stand for different strings |
| Ids.GeneratedId | script.js:481 | the id `addGate` makes stands for the clock's decimal text followed by the random suffix |
| LogicGate.Gate.WithInput | script.js:672 | `inputs[i] = v` sets that slot to `v` and changes nothing else of the gate |
| LogicGate.IndexOf | script.js:696 | `findIndex`: None exactly when no gate has the id; otherwise the first position holding it |
| LogicGate.Find | script.js:684 | `find`: None exactly when no gate has the id; otherwise a listed gate with that id |
| LogicGate.FindListed | script.js:669-670 | with unique ids, looking up a listed gate's id finds that very gate at its position |
| LogicGate.ReadFirst | script.js:937-938 | a slot reads the output bit of the first gate listed with its id |
| LogicGate.Read | script.js:937-938 | an empty slot, or one naming no listed gate, reads false; otherwise it reads the named gate's bit |
| LogicGate.Evaluate | script.js:934-954 | a SWITCH is unchanged; otherwise the truth table over the two slots: AND, OR, NOT of the first, XOR, and LIGHT passes the first through; id, type and slots unchanged |
| LogicGate.NewGate | script.js:805-816 | a fresh gate: both slots empty, output off (definition); `NewGateEvaluates` states what it evaluates to |
| LogicGate.NewGateEvaluates | script.js:813-814 | a fresh gate reads false on both slots, so evaluating it turns it on exactly when it is a NOT, and keeps its shape |
| Simulation.SweepPrefix | script.js:740-745 | after `k` steps of a sweep, the gates not yet reached are untouched, switches never change, and every gate keeps its shape |
| Simulation.Sweep | script.js:740-745 | one `forEach` pass keeps every gate's shape and every switch |
| Simulation.Settle | script.js:739-747 | the loop runs at least one more sweep and never more than 50 in all; switches and shapes are kept |
| Simulation.Simulate | script.js:736-747 | `runSimulation` runs between 1 and 50 sweeps, never changes a switch, and keeps every gate's id, type and slots |
| Simulation.SweepStep | script.js:741-744 | evaluating one more gate extends the sweep, and `changed` records whether its bit moved |
| Simulation.SweptAll | script.js:740-745 | a pass that has reached every gate is the whole sweep, with `changed` exactly as `Changed` says |
| Simulation.ResumeAfterSweep | script.js:739-747 | the loop after one more sweep is the run it continues |
| Simulation.SweepPrefixKeepsDone | script.js:740-745 | positions already swept are never touched again within the same sweep |
| Simulation.UnchangedSweepIsStable | script.js:740-746 | a sweep that changes no bit leaves the list as it was, and every gate then equals its own evaluation |
| Simulation.StableSweepPrefix | script.js:740-745 | over a fixed point every step of a sweep leaves the list unchanged |
| Simulation.SettleStopsAtFixedPoint | script.js:739-747 | a run that stops before the cap ends at a fixed point, and one more sweep would change nothing |
| Simulation.SimulateStopsAtFixedPoint | script.js:736-747 | when `runSimulation` stops before 50 sweeps, every gate equals its own `evaluate` |
| Simulation.SimulateStable | script.js:736-747 | on a fixed point `runSimulation` does one sweep and changes nothing |
| Simulation.SimulateIdempotent | script.js:736-747 | re-running the simulation after it settled changes nothing |
| Simulation.SimulateOneSweep | script.js:736-747 | when the first sweep reaches a fixed point, the run shows that sweep's result after at most two sweeps |
| Simulation.SweepFlipsSelfFed | script.js:741-748 | on any board with distinct ids, one sweep flips a NOT gate whose first slot names itself, and keeps it self-fed |
| Simulation.SelfFedNotHitsCap | script.js:739-752 | on any board with distinct ids holding a self-fed NOT gate, every run reaches the cap, and that gate's bit is set by the parity of the sweeps left |
| Simulation.SelfFedNotNeverSettles | script.js:739-752 | on any board with distinct ids holding a self-fed NOT gate, `runSimulation` runs all 50 sweeps and that gate ends as it started |
| Simulation.PrefixNext | script.js:741-744 | one step of a sweep evaluates the next gate over the list as the sweep has left it |
| Simulation.SwitchNotLight | script.js:736-747 | SWITCH, NOT, LIGHT in that order: the light shows the negated switch |
| Simulation.SwitchAndOpenSlotLight | script.js:736-747 | an AND with one empty slot keeps its light off whatever the switch says |
| Simulation.TwoSwitchesAndLight | script.js:736-747 | two switches that are on, an AND over them and a light: the light comes on |
| GateExpression.SwitchToken | script.js:959 | `SW` followed by the last two characters of the id's text (all of it when shorter) |
| GateExpression.GetExpression | script.js:956-974 | the printed expression (definition); `GetExpressionRendersTerm` proves it is the text of the gate's formula, and `FormulaAgreesAtFixedPoint` that the formula evaluates to the gate's bit |
| GateExpression.InputExpression | script.js:963-964 | what a slot prints (definition); `InputExpressionRendersTerm` and `SlotAgreesAtFixedPoint` state its properties |
| GateExpression.GetExpressionRendersTerm | script.js:956-974 | the printed expression is exactly the text of the gate's formula, with `...` on a repeated gate, the switch leaf, `0` for an empty slot, and the operators as printed |
| GateExpression.InputExpressionRendersTerm | script.js:963-964 | an input slot prints its gate's formula, or `0` when empty or unresolved |
| GateExpression.FormulaAgreesAtFixedPoint | script.js:956-974 | at a fixed point of `evaluate`, a formula not cut short by the cycle guard evaluates to the gate's output bit |
| GateExpression.SlotAgreesAtFixedPoint | script.js:963-964 | the same for the formula of an input slot and the value the slot reads |
| GateExpression.CombineValue | script.js:966-973 | each operator's formula computes its truth table over whatever its operands compute |
| GateExpression.TwoCyclePrintsSentinel | script.js:957 | two NOT gates feeding each other print `!(!(...))`: the cycle guard stops the recursion |
| GateExpression.FindIn | script.js:963-964 | with unique ids, a slot naming a listed gate resolves to that gate |
| GateExpression.AndWithEmptySlot | script.js:963-967 | an AND on a switch with its second slot empty prints `(SWxy & 0)` |
| GateExpression.RenderAndZero | script.js:967 | an AND with an empty second slot prints its first operand followed by ` & 0` |
| GateExpression.SwitchTokenSameIffSameEnding | script.js:959 | two switches with ids of at least two characters print the same leaf exactly when their ids end alike |
| GateExpression.SwitchTokensCanCollide | script.js:959 | there are two different switch ids printing the same leaf `SW12` |
| GateExpression.TokenOfText | script.js:959 | the switch whose id is the string `s` prints `SW` and the last two characters of `s` |
| GateExpression.SwitchTokenOfGeneratedId | script.js:481 | a switch made by `addGate` with a suffix of two or more characters prints the suffix's last two characters |
| BoardLogic.WireIndex | script.js:680 | `findIndex` on wires: None exactly when no wire has the id; otherwise the first position holding it |
| BoardLogic.SetSlot | script.js:684-688 | only the slot `i` of the first gate with the target id changes; nothing changes when no gate has it |
| BoardLogic.Touching | script.js:700 | exactly the wires from or into the gate |
| BoardLogic.Untouched | script.js:700 | exactly the wires neither from nor into the gate; `UntouchedAppend` shows they keep their order |
| BoardLogic.WireIds | script.js:701 | the ids of the wires, position by position |
| BoardLogic.Keep | script.js:691 | exactly the wires whose id is not among those removed |
| BoardLogic.UntouchedAppend | script.js:700 | filtering a joined wire list filters each part, so the kept wires stay in order |
| BoardLogic.RemoveWire | script.js:679-693 | `removeWire` (definition); `RemoveWireEffect` and `RemoveWireConsistent` state what it does |
| BoardLogic.RemoveWires | script.js:701 | the `forEach` removal cascade (definition); `RemoveWiresEffect` states its effect |
| BoardLogic.RemoveWiresSnoc | script.js:701 | one more removal extends the cascade by the next id |
| BoardLogic.RemoveGate | script.js:695-706 | `removeGate` (definition); `RemoveGateEffect`, `RemoveGateSlots`, `RemoveGateForgets` and `RemoveGateUnknown` state what it does |
| BoardLogic.Connect | script.js:653-676 | the connecting part of `completeWiring` (definition); `ConnectEffect` states what it does |
| BoardLogic.AddGate | script.js:480-483 | `addGate` without drawing (definition); `AddGateConsistent` states what it does |
| BoardLogic.ToggleSwitch | script.js:832-838 | the switch click (definition); `ToggleSwitchEffect` and `ToggleSwitchRelightsLight` state what it does |
| BoardLogic.DeleteAt | script.js:691 | `splice(index, 1)` on the one wire with that id keeps exactly the other wires in order |
| BoardLogic.RemoveWireEffect | script.js:679-691 | `removeWire`: an unknown id changes nothing; otherwise exactly the other wires remain in order, and exactly the slot the wire fed is emptied; ids and types stay |
| BoardLogic.RemoveWiresEffect | script.js:700-701 | removing several wires one after another keeps exactly the wires not listed, and empties exactly the slots a removed wire fed |
| BoardLogic.RemoveWiresShape | script.js:700-701 | removing wires keeps every gate's id and type in place |
| BoardLogic.RemoveWireConsistent | script.js:679-691 | `removeWire` keeps the invariant |
| BoardLogic.ClearedConsistent | script.js:686-691 | emptying exactly the slots that removed wires fed keeps the invariant |
| BoardLogic.ConsistentSameShapes | script.js:740-745 | re-evaluation cannot break the invariant, which does not depend on output bits |
| BoardLogic.KeepTouching | script.js:700-701 | removing the ids of the touching wires leaves exactly the untouched wires |
| BoardLogic.TouchingCleared | script.js:700-701 | after the touching wires are removed, no slot names the gate |
| BoardLogic.DropGateConsistent | script.js:704 | splicing out a gate that no slot names keeps the invariant |
| BoardLogic.RemoveGateEffect | script.js:695-706 | `removeGate` on a listed gate: exactly the wires that did not touch it remain, in order; the other gates keep their order, ids and types (their slots: `RemoveGateSlots`) |
| BoardLogic.RemoveGateSlots | script.js:695-706 | each remaining gate's slot is emptied exactly when a removed wire fed it, and keeps its gate otherwise |
| BoardLogic.RemoveGateForgets | script.js:695-706 | afterwards the gate is gone, no wire and no slot names it, and the invariant holds |
| BoardLogic.RemoveGateUnknown | script.js:696-697 | `removeGate` with an unknown id changes nothing |
| BoardLogic.ConnectEffect | script.js:653-677 | connecting appends exactly the new wire and points the target slot at the source (empty when the source is not listed); other slots, ids and types stay; the invariant holds |
| BoardLogic.SlotSetConsistent | script.js:667-672 | setting the slot and appending the wire that backs it keeps the invariant |
| BoardLogic.ConnectAt | script.js:667-672 | connecting a listed source into gate `j` sets exactly that slot to the source |
| BoardLogic.AddGateConsistent | script.js:480-483 | a gate with a new id keeps the invariant and is found last in the list |
| BoardLogic.ToggleSwitchEffect | script.js:832-838 | clicking a switch flips its bit and re-evaluates over the flipped list: every other switch keeps its bit; ids, kinds, slots and wires stay; the other bits are those of the run; the invariant holds |
| BoardLogic.ToggleSwitchRelightsLight | script.js:832-838 | a click reaches the gates downstream: with a switch driving a NOT driving a light, both settled, clicking the switch changes the light's bit |
| BoardLogic.RemoveWireAt | script.js:684-691 | removing a wire that fed a slot empties that slot |
| BoardLogic.TwoConnections | script.js:667-672 | two wires drawn into the same slot: the slot names the second source and both wire records are listed |
| BoardLogic.StaleWireAfterReplacement | script.js:667-687 | after a replacement, removing the older wire empties the slot although the newer wire into it is still listed |
| Wiring.FirstWord | script.js:883 | `split(' ')[0]`: the longest prefix without a space |
| Wiring.ClassName | script.js:864-881 | the class name a point gets, `output` or `input-1 input`, `input-2 input`, `input-center input` (definition); `PortTypeIs` and `ForwardsIff` use it |
| Wiring.PortType | script.js:883 | the type the mouse handlers pass (definition); `PortTypeIs` states its value for every port |
| Wiring.TouchType | script.js:619-623 | the type the touch handler reads (definition); `TouchTypeIs` states its value for every port |
| Wiring.Includes | script.js:636 | `includes` (definition); `WordFacts` and `NoInputInOutput` state its value on the words compared |
| Wiring.InputIndex | script.js:641 | the slot an input type leads to: slot 1 exactly for `input-2` |
| Wiring.Pair | script.js:636-651 | the branches of `completeWiring` (definition); `PairIff` states which pairs link and how |
| Wiring.Forwards | script.js:554 | the test a press while drawing passes to go on (definition); `ForwardsIff` states when it holds |
| Wiring.FirstWordWhole | script.js:883 | a word without spaces is its own first word |
| Wiring.FirstWordBeforeSpace | script.js:883 | the first word of a word followed by a space is that word |
| Wiring.PortTypeIs | script.js:879-883 | the type a point passes is `output`, `input-1`, `input-2` or `input-center` |
| Wiring.TouchTypeIs | script.js:620-624 | the touch handler reads `output`, `input-1`, `input-2`, or `input` for a centre point |
| Wiring.WordFacts | script.js:636-647 | the input types contain `input`, are not `output`, and give slot 1 only for `input-2` |
| Wiring.NoInputInOutput | script.js:636 | `'output'.includes('input')` is false |
| Wiring.ForwardsIff | script.js:554 | a press while drawing goes on to `completeWiring` exactly when it is on another point and not an output after an output |
| Wiring.PairIff | script.js:632-651 | `completeWiring` links exactly an output with an input, in either order, from the output's gate into the input's gate, into slot 1 for `input-2` and slot 0 otherwise |
| Wiring.TouchPairsLikeMouse | script.js:611-627 | ending a wire by touch pairs points exactly as ending it with the mouse does |
| Wiring.PressConnectsIff | script.js:552-559 | a second press makes a wire exactly when the two points have opposite directions, even on the same gate |
| Report.Lights | script.js:721 | exactly the LIGHT gates; `LightsAppend` shows they keep their list order |
| Report.FirstLight | script.js:709 | None exactly when there is no LIGHT; otherwise the first LIGHT of the list |
| Report.FirstWireInto | script.js:711 | None exactly when no wire runs into the gate; otherwise the earliest wire into it |
| Report.LightSource | script.js:711-713 | a found source is a listed gate |
| Report.Entries | script.js:726-733 | one entry per light |
| Report.FirstLightIsFirstOfLights | script.js:709 | the first light found is the first of the lights, and it exists exactly when a light does |
| Report.LightsAppend | script.js:721 | filtering a joined gate list filters each part, so the lights keep their list order |
| Report.EntryOffIff | script.js:728-731 | an entry reads `L{i+1}: OFF` exactly when the light has no listed source |
| Report.DisplayNoOutputIff | script.js:722-725 | the panel reads `Expression: No Output` exactly when there is no LIGHT |
| Report.FirstEntryAgreesWithTotal | script.js:708-733 | the panel's first entry and `generateTotalExpression` agree: `L1: OFF` with `Light OFF`, otherwise `L1 = ` and the same expression |
| Report.FirstLabel | script.js:728-731 | the first label is `L1` |
| Report.Label | script.js:728-731 | the label `L{i+1}` (definition); `FirstLabel` and `LabelsDistinct` state its properties |
| Report.LabelsDistinct | script.js:728-731 | lights at different positions get different labels |
| Report.LightEntry | script.js:727-731 | one panel entry (definition); `EntryOffIff` states when it reads OFF |
| Report.DisplayText | script.js:721-733 | the panel text (definition); `DisplayNoOutputIff` and `FirstEntryAgreesWithTotal` state its properties |
| Report.TotalExpression | script.js:708-716 | `generateTotalExpression` (definition); nothing in script.js calls it, so the page never shows this text; `FirstEntryAgreesWithTotal` states its agreement with the panel |
| Report.WireLook | script.js:766-789 | how a wire is left on the page (definition); `DetachedIff` and `SlotWireShowsValue` state its properties |
| Report.DetachedIff | script.js:766-775 | a wire is taken off the page exactly when one of its ends is no longer listed; otherwise it is lit exactly when its source is on |
| Report.SlotWireShowsValue | script.js:787-788 | on a consistent board every occupied slot has a drawn wire into it, lit exactly when the slot reads on |
| Board.SweepGates | script.js:740-745 | the `forEach` pass computes the sweep, and `changed` is true exactly when some bit moved |
| Board.Complete | script.js:636-676 | what `completeWiring` does to the lists (definition); `PairIff` and `ConnectEffect` state its cases, and `Board.LogicBoard.CompleteWiring` is proved to match it |
| Board.LogicBoard.constructor | script.js:416-430 | an empty board, not drawing, satisfying the invariant |
| Board.LogicBoard.RunSimulation | script.js:736-750 | the gates become the result of the run; the wires and the drawing state stay; the panel shows the new text |
| Board.LogicBoard.AddGate | script.js:480-483 | the gate with the generated id is listed last with empty slots and output off; no re-evaluation; invariant kept |
| Board.LogicBoard.ToggleSwitch | script.js:832-838 | the lists become those of `BoardLogic.ToggleSwitch`; invariant kept; the panel is rewritten exactly when a switch was clicked; the drawing state stays |
| Board.LogicBoard.RemoveWire | script.js:679-691 | the lists become those of `BoardLogic.RemoveWire`; the panel is rewritten only when the wire existed |
| Board.LogicBoard.RemoveEach | script.js:700-701 | the loop over the touching wires removes them one by one, as `RemoveWires` says |
| Board.LogicBoard.RemoveGate | script.js:695-706 | the lists become those of `BoardLogic.RemoveGate`; invariant kept; the panel is rewritten exactly when the gate was listed; the drawing state stays |
| Board.LogicBoard.CleanupWiringEvents | script.js:757-764 | drawing stops and the start point is forgotten; the start id and type stay; lists unchanged |
| Board.LogicBoard.CancelWiring | script.js:752-755 | the same as `cleanupWiringEvents` |
| Board.LogicBoard.CompleteWiring | script.js:632-677 | a pairing connects as `Complete` says and rewrites the panel; any other pairing only cancels; drawing stops either way, the start id and type stay; invariant kept |
| Board.LogicBoard.StartWiring | script.js:552-565 | while idle it anchors the point and records its gate and type; while drawing it completes when `Forwards` holds and otherwise cancels, keeping the start id and type, and the panel changes only when a wire was made |
| Board.LogicBoard.CompleteWiringTouch | script.js:611-630 | a point under the finger ends the wire with the touch type; no point cancels; when not drawing nothing happens; the start id and type always stay, and the panel changes only when a wire was made |
| Board.LogicBoard.ClearBoard | script.js:796-801 | both lists become empty; the panel and the drawing state stay |

## Left out

- Drawing is left out: DOM and SVG elements, CSS classes, positions, dragging, path strings (`render`, `getSymbol`, `makeElementDraggable`, `updateTempWire*`, `getOutputPos`, `getInputPos`, `updateWiresForGate`). Only the `active` choice of `updateWireVisual` is kept, in `Report.WireLook`.
- The LIGHT's `on` class toggle in `evaluate`, and the switch's class toggle, are drawing.
- The listener plumbing is left out: the palette drag-and-drop, the Escape key, the background click and the right-click handlers. These only call the modelled operations.
- `completeWiringTouch` finds the point under the finger with `elementFromPoint`, which is a DOM query. The method takes that point as a parameter. The parameter is None when no listed gate holds a point there.
- The clock and `Math.random` are parameters, because they are input. `Board.LogicBoard.AddGate` and the wiring methods require the ids they produce to be new to the board.
- `Board.LogicBoard.AddGate`: the JavaScript id is a string. The model's id is the number that stands for that string in bijective base 36 (`Ids`).
- `Board.LogicBoard.CompleteWiring`, `StartWiring` and `CompleteWiringTouch` do not model the `tempWire` path element or its context-menu listener. The wire record keeps no `element`.
- The `if (!display) return` guard of `updateExpressionDisplay` is left out. It tests whether the page has a panel, which is DOM.
- `createNodes` is not modelled as a check. It decides which points a gate gets: none of the input points for a SWITCH, and no output point for a LIGHT. The wiring lemmas hold for any (gate, port) pair, so they also cover points a gate would not have.
- The calculator, programmer calculator and unit converter in the same file are not part of this model. They are floating point, `eval`, and JavaScript number-formatting calls.
- `Report.DetachedIff` covers only whether a wire is drawn and lit. The removal of its element is drawing.
- Object identity is not modelled as such. Two slots hold the same gate exactly when they hold the same id, which the invariant `Consistent` makes equivalent.
- Board.LogicBoard.constructor: the program's constructor ends by calling `initTouchSupport` (script.js:429), which script.js never defines, so `new LogicBoard()` throws after the lists are set and `initUI` and `initDragDrop` have registered their listeners. The throw is not modelled. The model's constructor stands for the board state that those listeners go on using.
