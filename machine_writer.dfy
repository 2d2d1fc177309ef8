/**
 * The machine writer: the program-counter variable, its initialisation and
 * typing invariant, one placeholder invariant per line and one event per
 * edge; each event numbers its own guards and actions.
 */
module MachineWriter {
  import opened Wrappers
  import opened Text
  import opened Elements
  import opened Constructs
  import opened ContextWriter

  /** `≔`, `⇒`, `⊤` and `∈` of the Event-B notation. */
  const Becomes := "\U{2254}"
  const Implies := "\U{21D2}"
  const Top := "\U{22A4}"
  const Member := "\U{2208}"

  function MachineAttrs(): Attrs {
    NoAttrs.(configuration := Some("org.eventb.core.fwd"), version := Some("5"))
  }

  /** The `INITIALISATION` event, whose one action `init_pc` is named `'` (the first identifier). */
  function InitEvent(id: string): Element {
    Element(Event,
      NoAttrs.(name := Some(id), convergence := Some("0"), extended := Some("false"),
        labelText := Some("INITIALISATION")),
      [Element(Action,
        NoAttrs.(name := Some("'"), assignment := Some("pc " + Becomes + " l0"), labelText := Some("init_pc")),
        [])])
  }

  /** The link to the context `<radical>_context`. */
  function ContextLink(id: string, radical: string): Element {
    Element(SeesContext, NoAttrs.(name := Some(id), target := Some(radical + "_context")), [])
  }

  function VariableDecl(id: string, identifier: string): Element {
    Element(Variable, NoAttrs.(name := Some(id), identifier := Some(identifier)), [])
  }

  function TypeInvariant(id: string): Element {
    Element(Invariant,
      NoAttrs.(name := Some(id), labelText := Some("type_pc"), predicateText := Some("pc " + Member + " Lines")),
      [])
  }

  /** The four children the writer's constructor appends. */
  function FixedChildren(radical: string): seq<Element> {
    [InitEvent(Id(0)), ContextLink(Id(1), radical), VariableDecl(Id(2), "pc"), TypeInvariant(Id(3))]
  }

  /** `Pl<i>`: the placeholder invariant `pc = l<i> ⇒ (⊤)` of line `i`, marked TBD. */
  function TbdInvariant(id: string, lineNo: int): Element {
    Element(Invariant,
      NoAttrs.(name := Some(id), labelText := Some("Pl" + IntToString(lineNo)),
        predicateText := Some("pc = " + LineName(lineNo) + " " + Implies + " (" + Top + ")"),
        comment := Some("TBD")),
      [])
  }

  function GuardElement(id: string, pred: string, labelText: string): Element {
    Element(Guard, NoAttrs.(name := Some(id), labelText := Some(labelText), predicateText := Some(pred)), [])
  }

  function ActionElement(id: string, assignment: string, labelText: string): Element {
    Element(Action, NoAttrs.(name := Some(id), labelText := Some(labelText), assignment := Some(assignment)), [])
  }

  /** The empty placeholder action `act1` of a fall-through event. */
  function TbdAction(id: string): Element {
    Element(Action,
      NoAttrs.(name := Some(id), labelText := Some("act1"), assignment := Some(""), comment := Some("TBD")),
      [])
  }

  /** An event's label `l<from>l<to>`. */
  function EventLabel(lineNoFrom: int, lineNoTo: int): string {
    LineName(lineNoFrom) + LineName(lineNoTo)
  }

  function EventAttrs(id: string, lineNoFrom: int, lineNoTo: int, isTbd: bool): Attrs {
    NoAttrs.(name := Some(id), convergence := Some("0"), extended := Some("false"),
          labelText := Some(EventLabel(lineNoFrom, lineNoTo)), comment := Some(if isTbd then "TBD" else "FLOW"))
  }

  /** The children an event writer's constructor appends: `pc_control`, `pc_next`, and `act1` for TBD. */
  function EventBase(lineNoFrom: int, lineNoTo: int, isTbd: bool): seq<Element> {
    [GuardElement(Id(0), "pc = " + LineName(lineNoFrom), "pc_control"),
     ActionElement(Id(1), "pc " + Becomes + " " + LineName(lineNoTo), "pc_next")] +
    (if isTbd then [TbdAction(Id(2))] else [])
  }

  /** The event of an explicit edge: an extra `cond` guard exactly when the edge is guarded. */
  function FlowEvent(id: string, e: Edge): Element {
    Element(Event, EventAttrs(id, e.src, e.dst, false),
      EventBase(e.src, e.dst, false) + (if e.guard.Some? then [GuardElement(Id(2), e.guard.value, "cond")] else []))
  }

  /** The event of a fall-through edge, with its placeholder action. */
  function TbdEvent(id: string, t: (int, int)): Element {
    Element(Event, EventAttrs(id, t.0, t.1, true), EventBase(t.0, t.1, true))
  }

  /** The placeholder invariants of lines `0..count-1`, named from `Id(k)` on. */
  function TbdInvariants(count: nat, k: nat): (r: seq<Element>)
    requires FirstId + k + count <= IdLimit
    ensures |r| == count
  {
    seq(count, i requires 0 <= i < count => TbdInvariant(Id(k + i), i))
  }

  /** One event per explicit edge, in order, named from `Id(k)` on. */
  function FlowEvents(flow: seq<Edge>, k: nat): (r: seq<Element>)
    requires FirstId + k + |flow| <= IdLimit
    ensures |r| == |flow|
  {
    seq(|flow|, i requires 0 <= i < |flow| => FlowEvent(Id(k + i), flow[i]))
  }

  /** One event per fall-through edge, in order, named from `Id(k)` on. */
  function TbdEvents(tbd: seq<(int, int)>, k: nat): (r: seq<Element>)
    requires FirstId + k + |tbd| <= IdLimit
    ensures |r| == |tbd|
  {
    seq(|tbd|, i requires 0 <= i < |tbd| => TbdEvent(Id(k + i), tbd[i]))
  }

  /** One more line appends that line's placeholder invariant. */
  lemma {:induction false} TbdInvariantsStep(count: nat, k: nat)
    requires FirstId + k + count + 1 <= IdLimit
    ensures TbdInvariants(count + 1, k) == TbdInvariants(count, k) + [TbdInvariant(Id(k + count), count)]
  {
  }

  /** Extending the edges by one appends that edge's event. */
  lemma {:induction false} FlowEventsStep(flow: seq<Edge>, k: nat, i: nat)
    requires i < |flow| && FirstId + k + i + 1 <= IdLimit
    ensures FlowEvents(flow[..i + 1], k) == FlowEvents(flow[..i], k) + [FlowEvent(Id(k + i), flow[i])]
  {
    var longer, shorter := FlowEvents(flow[..i + 1], k), FlowEvents(flow[..i], k) + [FlowEvent(Id(k + i), flow[i])];
    forall j | 0 <= j < i + 1
      ensures longer[j] == shorter[j]
    {
      assert flow[..i + 1][j] == flow[j];
    }
  }

  lemma {:induction false} TbdEventsStep(tbd: seq<(int, int)>, k: nat, i: nat)
    requires i < |tbd| && FirstId + k + i + 1 <= IdLimit
    ensures TbdEvents(tbd[..i + 1], k) == TbdEvents(tbd[..i], k) + [TbdEvent(Id(k + i), tbd[i])]
  {
    var longer, shorter := TbdEvents(tbd[..i + 1], k), TbdEvents(tbd[..i], k) + [TbdEvent(Id(k + i), tbd[i])];
    forall j | 0 <= j < i + 1
      ensures longer[j] == shorter[j]
    {
      assert tbd[..i + 1][j] == tbd[j];
    }
  }

  /** How many children `make` appends. */
  function BodySize(n: int, flow: seq<Edge>, tbd: seq<(int, int)>): nat {
    LineCount(n) + |flow| + |tbd|
  }

  /** The children `make(n, flow, tbd)` appends to a root that already holds `k0` of them. */
  function MachineBody(n: int, flow: seq<Edge>, tbd: seq<(int, int)>, k0: nat): seq<Element>
    requires FirstId + k0 + BodySize(n, flow, tbd) <= IdLimit
  {
    TbdInvariants(LineCount(n), k0) +
    FlowEvents(flow, k0 + LineCount(n)) +
    TbdEvents(tbd, k0 + LineCount(n) + |flow|)
  }

  /** The body's three blocks, with the offsets at which each starts numbering. */
  lemma {:induction false} MachineBodyBlocks(n: int, flow: seq<Edge>, tbd: seq<(int, int)>, k0: nat)
    requires FirstId + k0 + BodySize(n, flow, tbd) <= IdLimit
    ensures |TbdInvariants(LineCount(n), k0)| == LineCount(n) && |FlowEvents(flow, k0 + LineCount(n))| == |flow|
    ensures MachineBody(n, flow, tbd, k0) ==
      TbdInvariants(LineCount(n), k0) + FlowEvents(flow, k0 + LineCount(n)) + TbdEvents(tbd, k0 + LineCount(n) + |flow|)
  {
  }

  /** The machine document: the tree a fresh writer's `make(n, flow, tbd)` returns. */
  function MachineTree(radical: string, n: int, flow: seq<Edge>, tbd: seq<(int, int)>): Element
    requires FirstId + 4 + BodySize(n, flow, tbd) <= IdLimit
  {
    Element(MachineFile, MachineAttrs(),
      FixedChildren(radical) + TbdInvariants(LineCount(n), 4) + FlowEvents(flow, 4 + LineCount(n))
      + TbdEvents(tbd, 4 + LineCount(n) + |flow|))
  }

  /** An element's label, empty when it has none. */
  function LabelOf(e: Element): string {
    if e.attrs.labelText.Some? then e.attrs.labelText.value else ""
  }

  lemma {:induction false} TbdInvariantFacts(id: string, lineNo: int)
    ensures var v := TbdInvariant(id, lineNo);
      && v.tag == Invariant && LabelOf(v) == "Pl" + IntToString(lineNo) && v.children == []
      && v.attrs.name == Some(id)
  {
  }

  lemma {:induction false} FlowEventFacts(id: string, e: Edge)
    ensures var v := FlowEvent(id, e);
      && v.tag == Event && LabelOf(v) == EventLabel(e.src, e.dst) && v.attrs.name == Some(id)
      && NumberedFrom(v.children, 0)
  {
    var base := EventBase(e.src, e.dst, false);
    assert NumberedFrom(base, 0);
    if e.guard.Some? {
      NumberedSnoc(base, GuardElement(Id(2), e.guard.value, "cond"), 0);
    } else {
      assert FlowEvent(id, e).children == base;
    }
  }

  lemma {:induction false} TbdEventFacts(id: string, t: (int, int))
    ensures var v := TbdEvent(id, t);
      && v.tag == Event && LabelOf(v) == EventLabel(t.0, t.1) && v.attrs.name == Some(id)
      && NumberedFrom(v.children, 0)
  {
  }

  /** Invariants labelled `Pl0`, `Pl1`, ... in order. */
  ghost predicate InvariantBlock(vs: seq<Element>) {
    forall i :: 0 <= i < |vs| ==>
      vs[i].tag == Invariant && LabelOf(vs[i]) == "Pl" + IntToString(i) && vs[i].children == []
  }

  /** One event per edge, in order, each labelled `l<from>l<to>` and its content numbered from the start. */
  ghost predicate EventBlock(vs: seq<Element>, edges: seq<(int, int)>) {
    && |vs| == |edges|
    && forall i :: 0 <= i < |vs| ==>
         && vs[i].tag == Event && LabelOf(vs[i]) == EventLabel(edges[i].0, edges[i].1)
         && NumberedFrom(vs[i].children, 0)
  }

  /** The source and target lines of explicit edges. */
  function Ends(flow: seq<Edge>): (r: seq<(int, int)>)
    ensures |r| == |flow|
  {
    seq(|flow|, i requires 0 <= i < |flow| => (flow[i].src, flow[i].dst))
  }

  lemma {:induction false} TbdInvariantsShape(count: nat, k: nat)
    requires FirstId + k + count <= IdLimit
    ensures InvariantBlock(TbdInvariants(count, k))
  {
    var vs := TbdInvariants(count, k);
    forall i | 0 <= i < count
      ensures vs[i].tag == Invariant && LabelOf(vs[i]) == "Pl" + IntToString(i) && vs[i].children == []
    {
      TbdInvariantFacts(Id(k + i), i);
    }
  }

  lemma {:induction false} FlowEventsShape(flow: seq<Edge>, k: nat)
    requires FirstId + k + |flow| <= IdLimit
    ensures EventBlock(FlowEvents(flow, k), Ends(flow))
  {
    var vs, ends := FlowEvents(flow, k), Ends(flow);
    forall i | 0 <= i < |flow|
      ensures vs[i].tag == Event && LabelOf(vs[i]) == EventLabel(ends[i].0, ends[i].1)
        && NumberedFrom(vs[i].children, 0)
    {
      FlowEventFacts(Id(k + i), flow[i]);
    }
  }

  lemma {:induction false} TbdEventsShape(tbd: seq<(int, int)>, k: nat)
    requires FirstId + k + |tbd| <= IdLimit
    ensures EventBlock(TbdEvents(tbd, k), tbd)
  {
    var vs := TbdEvents(tbd, k);
    forall i | 0 <= i < |tbd|
      ensures vs[i].tag == Event && LabelOf(vs[i]) == EventLabel(tbd[i].0, tbd[i].1)
        && NumberedFrom(vs[i].children, 0)
    {
      TbdEventFacts(Id(k + i), tbd[i]);
    }
  }

  /** The three blocks of the body, laid end to end, are numbered on from `k0`. */
  lemma {:induction false} BodyBlocksNumbered(n: int, flow: seq<Edge>, tbd: seq<(int, int)>, k0: nat)
    requires FirstId + k0 + BodySize(n, flow, tbd) <= IdLimit
    ensures var body := TbdInvariants(LineCount(n), k0) + FlowEvents(flow, k0 + LineCount(n))
        + TbdEvents(tbd, k0 + LineCount(n) + |flow|);
      NumberedFrom(body, k0) && ContentsNumbered(body)
  {
    var lc := LineCount(n);
    var body := TbdInvariants(lc, k0) + FlowEvents(flow, k0 + lc) + TbdEvents(tbd, k0 + lc + |flow|);
    forall i | 0 <= i < |body|
      ensures body[i].attrs.name == Some(Id(k0 + i)) && NumberedFrom(body[i].children, 0)
    {
      if i < lc {
        assert body[i] == TbdInvariant(Id(k0 + i), i);
        TbdInvariantFacts(Id(k0 + i), i);
      } else if i < lc + |flow| {
        assert body[i] == FlowEvent(Id(k0 + i), flow[i - lc]);
        FlowEventFacts(Id(k0 + i), flow[i - lc]);
      } else {
        assert body[i] == TbdEvent(Id(k0 + i), tbd[i - lc - |flow|]);
        TbdEventFacts(Id(k0 + i), tbd[i - lc - |flow|]);
      }
    }
  }

  /**
   * Everything `make` appends is numbered on from the identifiers already
   * in use, and each event's content is numbered from the start.
   */
  lemma {:induction false} MachineBodyNumbered(n: int, flow: seq<Edge>, tbd: seq<(int, int)>, k0: nat)
    requires FirstId + k0 + BodySize(n, flow, tbd) <= IdLimit
    ensures var body := MachineBody(n, flow, tbd, k0);
      |body| == BodySize(n, flow, tbd) && NumberedFrom(body, k0) && ContentsNumbered(body)
  {
    MachineBodyBlocks(n, flow, tbd, k0);
    BodyBlocksNumbered(n, flow, tbd, k0);
  }

  /**
   * The machine lists the initialisation event, the context link, the
   * variable and its typing invariant, then what `make` appends.
   */
  lemma {:induction false} MachineShape(radical: string, n: int, flow: seq<Edge>, tbd: seq<(int, int)>)
    requires FirstId + 4 + BodySize(n, flow, tbd) <= IdLimit
    ensures var cs := MachineTree(radical, n, flow, tbd).children;
      && |cs| == 4 + BodySize(n, flow, tbd)
      && LabelOf(cs[0]) == "INITIALISATION" && cs[1].attrs.target == Some(radical + "_context")
      && cs[2].attrs.identifier == Some("pc") && LabelOf(cs[3]) == "type_pc"
      && cs[4..] == MachineBody(n, flow, tbd, 4)
  {
    MachineTreeChildren(radical, n, flow, tbd);
    MachineBodyNumbered(n, flow, tbd, 4);
    assert (FixedChildren(radical) + MachineBody(n, flow, tbd, 4))[4..] == MachineBody(n, flow, tbd, 4);
  }

  /**
   * Every event starts with the guard `pc = l<from>` and the action
   * `pc ≔ l<to>`; an explicit edge's event has a third child, the guard
   * `cond`, exactly when the edge is guarded, and a fall-through edge's
   * event has a third child, the empty action `act1`, always.
   */
  lemma {:induction false} FlowEventContents(id: string, e: Edge)
    ensures var f := FlowEvent(id, e).children;
      && f[0].tag == Guard && LabelOf(f[0]) == "pc_control"
      && f[0].attrs.predicateText == Some("pc = " + LineName(e.src))
      && f[1].tag == Action && LabelOf(f[1]) == "pc_next"
      && f[1].attrs.assignment == Some("pc " + Becomes + " " + LineName(e.dst))
      && (|f| == 3 <==> e.guard.Some?) && |f| <= 3
      && (e.guard.Some? ==> f[2].tag == Guard && LabelOf(f[2]) == "cond" && f[2].attrs.predicateText == e.guard)
  {
  }

  lemma {:induction false} TbdEventContents(id: string, t: (int, int))
    ensures var b := TbdEvent(id, t).children;
      && |b| == 3
      && LabelOf(b[0]) == "pc_control" && b[0].attrs.predicateText == Some("pc = " + LineName(t.0))
      && LabelOf(b[1]) == "pc_next" && b[1].attrs.assignment == Some("pc " + Becomes + " " + LineName(t.1))
      && b[2].tag == Action && LabelOf(b[2]) == "act1" && b[2].attrs.assignment == Some("")
  {
  }

  /** The placeholder invariants carry pairwise distinct labels. */
  lemma {:induction false} InvariantLabelsDistinct(n: int, k: nat)
    requires FirstId + k + LineCount(n) <= IdLimit
    ensures var invs := TbdInvariants(LineCount(n), k);
      forall i, j :: 0 <= i < j < |invs| ==> LabelOf(invs[i]) != LabelOf(invs[j])
  {
    var invs := TbdInvariants(LineCount(n), k);
    TbdInvariantsShape(LineCount(n), k);
    forall i, j | 0 <= i < j < |invs|
      ensures LabelOf(invs[i]) != LabelOf(invs[j])
    {
      if LabelOf(invs[i]) == LabelOf(invs[j]) {
        assert ("Pl" + IntToString(i))[2..] == IntToString(i);
        assert ("Pl" + IntToString(j))[2..] == IntToString(j);
        IntToStringInjective(i, j);
      }
    }
  }

  /** The machine root's children: the four fixed ones, then the body `make` appends. */
  lemma {:induction false} MachineTreeChildren(radical: string, n: int, flow: seq<Edge>, tbd: seq<(int, int)>)
    requires FirstId + 4 + BodySize(n, flow, tbd) <= IdLimit
    ensures MachineTree(radical, n, flow, tbd).children == FixedChildren(radical) + MachineBody(n, flow, tbd, 4)
  {
    AppendAssoc(FixedChildren(radical), TbdInvariants(LineCount(n), 4), FlowEvents(flow, 4 + LineCount(n)),
      TbdEvents(tbd, 4 + LineCount(n) + |flow|));
  }

  lemma {:induction false} FixedChildrenNumbered(radical: string)
    ensures NumberedFrom(FixedChildren(radical), 0) && ContentsNumbered(FixedChildren(radical))
  {
  }

  /**
   * Identifiers are unique per scope: among the machine root's children,
   * and, each event restarting its own counter, among each event's children.
   */
  lemma {:induction false} MachineNamesUnique(radical: string, n: int, flow: seq<Edge>, tbd: seq<(int, int)>)
    requires FirstId + 4 + BodySize(n, flow, tbd) <= IdLimit
    ensures var cs := MachineTree(radical, n, flow, tbd).children;
      && UniqueNames(cs)
      && forall k :: 0 <= k < |cs| ==> UniqueNames(cs[k].children)
  {
    var fixed, body := FixedChildren(radical), MachineBody(n, flow, tbd, 4);
    MachineTreeChildren(radical, n, flow, tbd);
    MachineBodyNumbered(n, flow, tbd, 4);
    FixedChildrenNumbered(radical);
    NumberedAppend(fixed, body, 0);
    ContentsAppend(fixed, body);
    NumberedTreeUnique(fixed + body, 0);
  }

  /** `RodinMachineWriter`: the machine root and its identifier counter. */
  class RodinMachineWriter {
    var nextId: int
    var children: seq<Element>

    /** The counter has handed out exactly one identifier per child, in order. */
    ghost predicate Valid()
      reads this
    {
      nextId == FirstId + |children| && NumberedFrom(children, 0)
    }

    function Root(): Element
      reads this
    {
      Element(MachineFile, MachineAttrs(), children)
    }

    /** Appends the initialisation event, the context link, the variable `pc` and its typing invariant. */
    constructor (radical: string)
      ensures Valid() && children == FixedChildren(radical)
    {
      nextId := FirstId;
      children := [];
      new;
      var id := GetNextId();
      children := children + [InitEvent(id)];
      id := GetNextId();
      children := children + [ContextLink(id, radical)];
      id := GetNextId();
      children := children + [VariableDecl(id, "pc")];
      id := GetNextId();
      children := children + [TypeInvariant(id)];
    }

    /** `get_next_id`: the current identifier, then the counter moves on by one. */
    method GetNextId() returns (id: string)
      requires FirstId <= nextId < IdLimit
      modifies this
      ensures id == Id(old(nextId) - FirstId)
      ensures nextId == old(nextId) + 1 && children == old(children)
    {
      id := [nextId as char];
      nextId := nextId + 1;
    }

    method AddTbdInvariant(lineNo: int)
      requires Valid() && nextId < IdLimit
      modifies this
      ensures Valid() && children == old(children) + [TbdInvariant(Id(|old(children)|), lineNo)]
    {
      var id := GetNextId();
      children := children + [TbdInvariant(id, lineNo)];
    }

    /** An event for an explicit edge, with a `cond` guard when `pred` is given. */
    method AddFlowEvent(lineNoFrom: int, lineNoTo: int, pred: Option<string>)
      requires Valid() && nextId < IdLimit
      modifies this
      ensures Valid()
      ensures children == old(children) + [FlowEvent(Id(|old(children)|), Edge(lineNoFrom, lineNoTo, pred))]
    {
      var eventWriter := new RodinEventWriter(this, lineNoFrom, lineNoTo, false);
      if pred.Some? {
        eventWriter.AddGuard(pred.value, "cond");
      }
      var event := eventWriter.Root();
      assert event == FlowEvent(Id(|children|), Edge(lineNoFrom, lineNoTo, pred));
      FlowEventFacts(Id(|children|), Edge(lineNoFrom, lineNoTo, pred));
      NumberedSnoc(children, event, 0);
      children := children + [event];
    }

    /** An event for a fall-through edge, with its placeholder action. */
    method AddTbdEvent(lineNoFrom: int, lineNoTo: int)
      requires Valid() && nextId < IdLimit
      modifies this
      ensures Valid() && children == old(children) + [TbdEvent(Id(|old(children)|), (lineNoFrom, lineNoTo))]
    {
      var eventWriter := new RodinEventWriter(this, lineNoFrom, lineNoTo, true);
      var event := eventWriter.Root();
      TbdEventFacts(Id(|children|), (lineNoFrom, lineNoTo));
      NumberedSnoc(children, event, 0);
      children := children + [event];
    }

    /** The first loop of `make`: invariants `Pl0` to `Pl<count-1>`. */
    method AddTbdInvariants(count: nat, ghost k0: nat)
      requires Valid() && k0 == |children| && nextId + count <= IdLimit
      modifies this
      ensures Valid() && children == old(children) + TbdInvariants(count, k0)
      ensures nextId == old(nextId) + count && |children| == k0 + count
    {
      ghost var c0 := children;
      for lineNo := 0 to count
        invariant Valid() && children == c0 + TbdInvariants(lineNo, k0)
      {
        AddTbdInvariant(lineNo);
        TbdInvariantsStep(lineNo, k0);
      }
    }

    /** The second loop of `make`: one event per explicit edge, in order. */
    method AddFlowEvents(flowEvents: seq<Edge>, ghost k0: nat)
      requires Valid() && k0 == |children| && nextId + |flowEvents| <= IdLimit
      modifies this
      ensures Valid() && children == old(children) + FlowEvents(flowEvents, k0)
      ensures nextId == old(nextId) + |flowEvents| && |children| == k0 + |flowEvents|
    {
      ghost var c0 := children;
      for i := 0 to |flowEvents|
        invariant Valid() && children == c0 + FlowEvents(flowEvents[..i], k0)
      {
        var e := flowEvents[i];
        AddFlowEvent(e.src, e.dst, e.guard);
        assert Edge(e.src, e.dst, e.guard) == e;
        FlowEventsStep(flowEvents, k0, i);
      }
      assert flowEvents[..|flowEvents|] == flowEvents;
    }

    /** The third loop of `make`: one event per fall-through edge, in order. */
    method AddTbdEvents(tbdEvents: seq<(int, int)>, ghost k0: nat)
      requires Valid() && k0 == |children| && nextId + |tbdEvents| <= IdLimit
      modifies this
      ensures Valid() && children == old(children) + TbdEvents(tbdEvents, k0)
      ensures nextId == old(nextId) + |tbdEvents| && |children| == k0 + |tbdEvents|
    {
      ghost var c0 := children;
      for i := 0 to |tbdEvents|
        invariant Valid() && children == c0 + TbdEvents(tbdEvents[..i], k0)
      {
        var t := tbdEvents[i];
        AddTbdEvent(t.0, t.1);
        assert (t.0, t.1) == t;
        TbdEventsStep(tbdEvents, k0, i);
      }
      assert tbdEvents[..|tbdEvents|] == tbdEvents;
    }

    /** `make`: one invariant per line `0..n`, one event per explicit edge, then one per fall-through edge. */
    method Make(finalLineNo: int, flowEvents: seq<Edge>, tbdEvents: seq<(int, int)>) returns (root: Element)
      requires Valid() && nextId + BodySize(finalLineNo, flowEvents, tbdEvents) <= IdLimit
      modifies this
      ensures Valid()
      ensures children == old(children) + TbdInvariants(LineCount(finalLineNo), |old(children)|)
        + FlowEvents(flowEvents, |old(children)| + LineCount(finalLineNo))
        + TbdEvents(tbdEvents, |old(children)| + LineCount(finalLineNo) + |flowEvents|)
      ensures root == Root()
    {
      ghost var k0 := |children|;
      var count := LineCount(finalLineNo);
      AddTbdInvariants(count, k0);
      AddFlowEvents(flowEvents, k0 + count);
      AddTbdEvents(tbdEvents, k0 + count + |flowEvents|);
      root := Root();
    }
  }

  /** `RodinEventWriter`: one event under a machine root, with its own identifier counter. */
  class RodinEventWriter {
    var nextId: int
    var children: seq<Element>
    const attrs: Attrs

    ghost predicate Valid()
      reads this
    {
      nextId == FirstId + |children| && NumberedFrom(children, 0)
    }

    function Root(): Element
      reads this
    {
      Element(Event, attrs, children)
    }

    /**
     * Takes the event's `name` from the parent's counter, restarts its own
     * counter at the first identifier, and adds the `pc_control` guard, the
     * `pc_next` action and, for a fall-through edge, the `act1` placeholder.
     */
    constructor (parent: RodinMachineWriter, lineNoFrom: int, lineNoTo: int, isTbd: bool)
      requires FirstId <= parent.nextId < IdLimit
      modifies parent
      ensures parent.nextId == old(parent.nextId) + 1 && parent.children == old(parent.children)
      ensures attrs == EventAttrs(Id(old(parent.nextId) - FirstId), lineNoFrom, lineNoTo, isTbd)
      ensures Valid() && children == EventBase(lineNoFrom, lineNoTo, isTbd)
    {
      var id := parent.GetNextId();
      attrs := EventAttrs(id, lineNoFrom, lineNoTo, isTbd);
      nextId := FirstId;
      children := [];
      new;
      AddGuard("pc = " + LineName(lineNoFrom), "pc_control");
      AddAction("pc " + Becomes + " " + LineName(lineNoTo), "pc_next");
      if isTbd {
        AddTbdAction();
      }
    }

    method GetNextId() returns (id: string)
      requires FirstId <= nextId < IdLimit
      modifies this
      ensures id == Id(old(nextId) - FirstId)
      ensures nextId == old(nextId) + 1 && children == old(children)
    {
      id := [nextId as char];
      nextId := nextId + 1;
    }

    method AddGuard(pred: string, labelText: string)
      requires Valid() && nextId < IdLimit
      modifies this
      ensures Valid() && children == old(children) + [GuardElement(Id(|old(children)|), pred, labelText)]
    {
      var id := GetNextId();
      children := children + [GuardElement(id, pred, labelText)];
    }

    method AddAction(assignment: string, labelText: string)
      requires Valid() && nextId < IdLimit
      modifies this
      ensures Valid() && children == old(children) + [ActionElement(Id(|old(children)|), assignment, labelText)]
    {
      var id := GetNextId();
      children := children + [ActionElement(id, assignment, labelText)];
    }

    method AddTbdAction()
      requires Valid() && nextId < IdLimit
      modifies this
      ensures Valid() && children == old(children) + [TbdAction(Id(|old(children)|))]
    {
      var id := GetNextId();
      children := children + [TbdAction(id)];
    }
  }
}
