/**
 * The flow-graph builder: runs every construct over one marker array and
 * then gives each line no construct took over a fall-through edge to the
 * next line.
 */
module FlowGraph {
  import opened Constructs

  /** Length of the marker array `[True] * n` (empty for a negative `n`). */
  function Width(n: int): nat {
    if n < 0 then 0 else n
  }

  /** The lines `[0, n)` that own a marker. */
  function Lines(n: int): (r: set<int>)
    ensures forall i :: i in r <==> 0 <= i < n
    decreases n
  {
    if n <= 0 then {} else Lines(n - 1) + {n - 1}
  }

  /** The explicit edges: each construct's edges, concatenated in input order. */
  function ExplicitEdges(cs: seq<Construct>): (r: seq<Edge>)
    ensures |r| == 4 * |cs|
  {
    if cs == [] then [] else ExplicitEdges(cs[..|cs| - 1]) + Edges(cs[|cs| - 1])
  }

  /** Edge `j` of construct `k` sits at position `4 * k + j` of the explicit edges. */
  lemma {:induction false} ExplicitEdgesInOrder(cs: seq<Construct>, k: nat, j: nat)
    requires k < |cs| && j < 4
    ensures ExplicitEdges(cs)[4 * k + j] == Edges(cs[k])[j]
  {
    var last := |cs| - 1;
    if k < last {
      ExplicitEdgesInOrder(cs[..last], k, j);
    }
  }

  /** Every line some construct in `cs` takes over. */
  function AllMarks(cs: seq<Construct>): set<int> {
    if cs == [] then {} else AllMarks(cs[..|cs| - 1]) + Marks(cs[|cs| - 1])
  }

  lemma {:induction false} AllMarksWithin(cs: seq<Construct>, n: int)
    requires forall c | c in cs :: MarksWithin(c, n)
    ensures AllMarks(cs) <= Lines(n)
  {
    if cs != [] {
      var last := cs[|cs| - 1];
      assert last in cs;
      assert forall c | c in cs[..|cs| - 1] :: c in cs;
      AllMarksWithin(cs[..|cs| - 1], n);
    }
  }

  lemma {:induction false} SourcesConcat(a: seq<Edge>, b: seq<Edge>)
    ensures Sources(a + b) == Sources(a) + Sources(b)
  {
    assert forall e | e in a + b :: e in a || e in b;
  }

  /** The explicit edges leave exactly the lines the constructs took over. */
  lemma {:induction false} ExplicitSourcesAreMarks(cs: seq<Construct>)
    ensures Sources(ExplicitEdges(cs)) == AllMarks(cs)
  {
    if cs != [] {
      var init, last := cs[..|cs| - 1], cs[|cs| - 1];
      ExplicitSourcesAreMarks(init);
      SourcesAreMarks(last);
      SourcesConcat(ExplicitEdges(init), Edges(last));
    }
  }

  /** The marker array once every construct has run: true exactly for the lines nobody took over. */
  function Markers(n: int, cs: seq<Construct>): (m: seq<bool>)
    ensures |m| == Width(n)
  {
    seq(Width(n), i => i !in AllMarks(cs))
  }

  /**
   * The fall-through edges: `(i, i + 1)` for each `i` whose marker is still
   * true, in increasing order of `i`, and nothing else.
   */
  function FallThrough(m: seq<bool>): (r: seq<(int, int)>)
    ensures forall p :: 0 <= p < |r| ==> 0 <= r[p].0 < |m| && m[r[p].0] && r[p].1 == r[p].0 + 1
    ensures forall i :: 0 <= i < |m| && m[i] ==> (i, i + 1) in r
    ensures forall p, q :: 0 <= p < q < |r| ==> r[p].0 < r[q].0
  {
    if m == [] then []
    else
      var init := m[..|m| - 1];
      FallThrough(init) + (if m[|m| - 1] then [(|m| - 1, |m|)] else [])
  }

  function FallThroughSources(tbd: seq<(int, int)>): set<int> {
    set t | t in tbd :: t.0
  }

  /** The fall-through edges leave exactly the lines whose marker is true. */
  lemma FallThroughSourcesMarked(m: seq<bool>)
    ensures FallThroughSources(FallThrough(m)) == set i | 0 <= i < |m| && m[i]
  {
    var tbd := FallThrough(m);
    forall i | i in FallThroughSources(tbd)
      ensures 0 <= i < |m| && m[i]
    {
      var t :| t in tbd && t.0 == i;
      var p :| 0 <= p < |tbd| && tbd[p] == t;
    }
    forall i | 0 <= i < |m| && m[i]
      ensures i in FallThroughSources(tbd)
    {
      assert (i, i + 1) in tbd;
    }
  }

  /** The fall-through edges leave exactly the lines of `[0, n)` nobody took over. */
  lemma FallThroughSourcesUnmarked(n: int, cs: seq<Construct>)
    ensures FallThroughSources(FallThrough(Markers(n, cs))) == Lines(n) - AllMarks(cs)
  {
    var m := Markers(n, cs);
    FallThroughSourcesMarked(m);
    assert forall i :: 0 <= i < |m| ==> (m[i] <==> i !in AllMarks(cs));
  }

  /**
   * Every line of `[0, n)` leaves by at least one edge, and by edges of one
   * kind only: explicit when a construct took it over, fall-through
   * otherwise.
   */
  lemma LinePartition(n: int, cs: seq<Construct>)
    requires forall c | c in cs :: MarksWithin(c, n)
    ensures Sources(ExplicitEdges(cs)) !! FallThroughSources(FallThrough(Markers(n, cs)))
    ensures Sources(ExplicitEdges(cs)) + FallThroughSources(FallThrough(Markers(n, cs))) == Lines(n)
  {
    ExplicitSourcesAreMarks(cs);
    AllMarksWithin(cs, n);
    FallThroughSourcesUnmarked(n, cs);
  }

  /**
   * The graph-building pass: allocates the marker array all true, runs the
   * constructs in order collecting their edges, then emits a fall-through
   * edge for every line still marked.
   */
  method BuildGraph(finalLineNo: int, constructs: seq<Construct>)
    returns (flow: seq<Edge>, tbd: seq<(int, int)>)
    requires forall c | c in constructs :: MarksWithin(c, finalLineNo)
    ensures flow == ExplicitEdges(constructs)
    ensures tbd == FallThrough(Markers(finalLineNo, constructs))
    ensures Sources(flow) !! FallThroughSources(tbd)
    ensures Sources(flow) + FallThroughSources(tbd) == Lines(finalLineNo)
  {
    var realInstructions := new bool[Width(finalLineNo)](_ => true);
    flow := [];
    for k := 0 to |constructs|
      invariant flow == ExplicitEdges(constructs[..k])
      invariant forall i :: 0 <= i < realInstructions.Length ==>
        realInstructions[i] == (i !in AllMarks(constructs[..k]))
    {
      var c := constructs[k];
      assert c in constructs;
      assert constructs[..k + 1][..k] == constructs[..k];
      var edges := GenerateEvents(c, realInstructions);
      flow := flow + edges;
    }
    assert constructs[..|constructs|] == constructs;
    assert realInstructions[..] == Markers(finalLineNo, constructs);
    tbd := [];
    for lineNo := 0 to realInstructions.Length
      invariant tbd == FallThrough(realInstructions[..lineNo])
    {
      assert realInstructions[..lineNo + 1][..lineNo] == realInstructions[..lineNo];
      if realInstructions[lineNo] {
        tbd := tbd + [(lineNo, lineNo + 1)];
      }
    }
    assert realInstructions[..realInstructions.Length] == realInstructions[..];
    LinePartition(finalLineNo, constructs);
  }

  /** A document with three lines and no construct falls through 0 → 1 → 2 → 3. */
  lemma {:induction false} StraightLineExample()
    ensures ExplicitEdges([]) == []
    ensures FallThrough(Markers(3, [])) == [(0, 1), (1, 2), (2, 3)]
  {
    assert Markers(3, []) == [true, true, true];
    assert [true, true, true][..2] == [true, true];
    assert [true, true][..1] == [true];
  }
}
