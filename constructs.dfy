/**
 * The control-flow constructs of a definitions document (`while` and
 * `if` blocks) and the transition edges each of them contributes to the
 * program-counter graph.
 */
module Constructs {
  import opened Wrappers

  /** A transition `(from, to, guard)`; `None` is an unconditional step. */
  datatype Edge = Edge(src: int, dst: int, guard: Option<string>)

  /**
   * A `while` loop tests at line `before` and continues at line `after`;
   * an `if` tests at `before`, enters its else branch after `beforeElse`
   * and continues at `after`.
   */
  datatype Construct =
    | While(cond: string, before: int, after: int)
    | If(cond: string, before: int, beforeElse: int, after: int)

  /** The negated guard `¬(cond)`. */
  function Neg(cond: string): (r: string)
    ensures |r| == |cond| + 3
  {
    "\U{AC}(" + cond + ")"
  }

  /** Negation never returns its argument, so a branch and its complement carry different guards. */
  lemma {:induction false} NegDiffers(cond: string)
    ensures Neg(cond) != cond
  {
  }

  /** Different conditions have different negations. */
  lemma {:induction false} NegInjective(a: string, b: string)
    requires Neg(a) == Neg(b)
    ensures a == b
  {
    assert a == Neg(a)[2..|a| + 2];
    assert b == Neg(b)[2..|b| + 2];
  }

  /** The four edges a construct contributes, in the order it emits them. */
  function Edges(c: Construct): seq<Edge> {
    match c
    case While(cond, b, a) =>
      [ Edge(b, b + 1, Some(cond)),
        Edge(b, a, Some(Neg(cond))),
        Edge(a - 1, b + 1, Some(cond)),
        Edge(a - 1, a, Some(Neg(cond))) ]
    case If(cond, b, e, a) =>
      [ Edge(b, b + 1, Some(cond)),
        Edge(e, a, None),
        Edge(b, e + 1, Some(Neg(cond))),
        Edge(a - 1, a, None) ]
  }

  /** The lines a construct takes over: they no longer get a fall-through edge. */
  function Marks(c: Construct): set<int> {
    match c
    case While(_, b, a) => {b, a - 1}
    case If(_, b, e, a) => {b, e, a - 1}
  }

  /** Every line a construct marks is an index of a marker array of length `n`. */
  predicate MarksWithin(c: Construct, n: int) {
    forall i | i in Marks(c) :: 0 <= i < n
  }

  function Sources(edges: seq<Edge>): set<int> {
    set e | e in edges :: e.src
  }

  /**
   * The lines a construct marks are exactly the sources of its edges:
   * every line it takes over gets an explicit outgoing edge, and it emits
   * no edge from a line it has not taken over.
   */
  lemma {:induction false} SourcesAreMarks(c: Construct)
    ensures Sources(Edges(c)) == Marks(c)
  {
    var es := Edges(c);
    assert es[0] in es && es[1] in es && es[2] in es && es[3] in es;
  }

  /**
   * A while loop branches on `cond` at both of its decision lines: each of
   * them has one edge guarded by `cond` into the body and one guarded by
   * `¬(cond)` out of the loop.
   */
  lemma {:induction false} WhileBranches(cond: string, b: int, a: int)
    ensures var es := Edges(While(cond, b, a));
      forall e | e in es ::
        (e.guard == Some(cond) && e.dst == b + 1) || (e.guard == Some(Neg(cond)) && e.dst == a)
  {
  }

  /**
   * `generate_events`: clears the markers of the lines the construct takes
   * over, leaves every other marker as it was, and returns its edges.
   */
  method GenerateEvents(c: Construct, markers: array<bool>) returns (edges: seq<Edge>)
    requires MarksWithin(c, markers.Length)
    modifies markers
    ensures edges == Edges(c)
    ensures forall i :: 0 <= i < markers.Length ==> markers[i] == (old(markers[i]) && i !in Marks(c))
  {
    match c {
      case While(_, b, a) =>
        assert b in Marks(c) && a - 1 in Marks(c);
        markers[b] := false;
        markers[a - 1] := false;
      case If(_, b, e, a) =>
        assert b in Marks(c) && e in Marks(c) && a - 1 in Marks(c);
        markers[b] := false;
        markers[e] := false;
        markers[a - 1] := false;
    }
    edges := Edges(c);
  }

  /** A `while` loop testing `x>0` at line 2 and left for line 6. */
  lemma {:induction false} WhileExample()
    ensures Edges(While("x>0", 2, 6)) ==
      [ Edge(2, 3, Some("x>0")), Edge(2, 6, Some("\U{AC}(x>0)")),
        Edge(5, 3, Some("x>0")), Edge(5, 6, Some("\U{AC}(x>0)")) ]
    ensures Marks(While("x>0", 2, 6)) == {2, 5}
  {
    assert Neg("x>0") == "\U{AC}(x>0)";
  }

  /** An `if` testing `b` at line 1, whose else branch follows line 3, rejoining at line 5. */
  lemma {:induction false} IfExample()
    ensures Edges(If("b", 1, 3, 5)) ==
      [ Edge(1, 2, Some("b")), Edge(3, 5, None), Edge(1, 4, Some("\U{AC}(b)")), Edge(4, 5, None) ]
    ensures Marks(If("b", 1, 3, 5)) == {1, 3, 4}
  {
    assert Neg("b") == "\U{AC}(b)";
  }
}
