/**
 * The generator's main path without its file and console I/O: parse the
 * definitions, build the control-flow graph, then write the context and
 * the machine documents.
 */
module Generator {
  import opened Wrappers
  import opened Elements
  import opened Constructs
  import opened FlowGraph
  import opened Definitions
  import opened ContextWriter
  import opened MachineWriter

  /** Why a definitions file yields no documents. */
  datatype GenError =
    | BadDefinitions(cause: ParseError)
    | MarkOutOfRange
    | TooManyElements

  /** The two documents written out: `<radical>_context.buc` and `<radical>_machine.bum`. */
  datatype Documents = Documents(context: Element, machine: Element)

  /** Every line a construct marks lies within the marker list. */
  predicate MarksFit(d: Definitions) {
    forall c | c in d.constructs :: MarksWithin(c, d.finalLineNo)
  }

  /** Both documents number their children with `chr` below the surrogate range. */
  predicate IdsFit(n: int, flow: seq<Edge>, tbd: seq<(int, int)>) {
    FirstId + LineCount(n) + 2 <= IdLimit && FirstId + 4 + BodySize(n, flow, tbd) <= IdLimit
  }

  /** What a run on `content` writes out, or why it stops. */
  function Translation(content: string, radical: string): Result<Documents, GenError> {
    match ParseDefinitions(content)
    case Failure(e) => Failure(BadDefinitions(e))
    case Success(d) =>
      if !MarksFit(d) then Failure(MarkOutOfRange)
      else
        var flow := ExplicitEdges(d.constructs);
        var tbd := FallThrough(Markers(d.finalLineNo, d.constructs));
        if !IdsFit(d.finalLineNo, flow, tbd) then Failure(TooManyElements)
        else Success(Documents(ContextTree(d.finalLineNo), MachineTree(radical, d.finalLineNo, flow, tbd)))
  }

  /** The second half of `main`: a fresh context writer and a fresh machine writer each make their document. */
  method WriteDocuments(radical: string, n: int, flow: seq<Edge>, tbd: seq<(int, int)>) returns (docs: Documents)
    requires IdsFit(n, flow, tbd)
    ensures docs == Documents(ContextTree(n), MachineTree(radical, n, flow, tbd))
  {
    var contextWriter := new RodinContextWriter(radical);
    var context := contextWriter.Make(n);
    var machineWriter := new RodinMachineWriter(radical);
    var machine := machineWriter.Make(n, flow, tbd);
    docs := Documents(context, machine);
  }

  /** `main` from reading the file to the two `make` calls. */
  method Generate(content: string, radical: string) returns (r: Result<Documents, GenError>)
    ensures r == Translation(content, radical)
  {
    var parsed := ParseContent(content);
    if parsed.Failure? {
      return Failure(BadDefinitions(parsed.error));
    }
    var d := parsed.value;
    if !(forall c | c in d.constructs :: MarksWithin(c, d.finalLineNo)) {
      assert !MarksFit(d);
      return Failure(MarkOutOfRange);
    }
    var n := d.finalLineNo;
    var flow, tbd := BuildGraph(n, d.constructs);
    if !(FirstId + LineCount(n) + 2 <= IdLimit && FirstId + 4 + BodySize(n, flow, tbd) <= IdLimit) {
      return Failure(TooManyElements);
    }
    var docs := WriteDocuments(radical, n, flow, tbd);
    return Success(docs);
  }

  /**
   * A run fails exactly when the definitions do not parse, a construct
   * marks a line outside `0..n-1`, or the identifiers run out.
   */
  lemma {:induction false} TranslationFails(content: string, radical: string)
    ensures Translation(content, radical).Failure? <==>
      || ParseDefinitions(content).Failure?
      || !MarksFit(ParseDefinitions(content).value)
      || (var d := ParseDefinitions(content).value;
          !IdsFit(d.finalLineNo, ExplicitEdges(d.constructs), FallThrough(Markers(d.finalLineNo, d.constructs))))
    ensures ParseDefinitions(content).Failure? ==>
      Translation(content, radical) == Failure(BadDefinitions(ParseDefinitions(content).error))
  {
  }

  /**
   * In a successful run, every line `0..n-1` leaves through the events of
   * the constructs that mark it or through its one fall-through event, and
   * never through both; names are unique within each document and within
   * each event.
   */
  lemma {:induction false} TranslationCoversLines(content: string, radical: string)
    requires Translation(content, radical).Success?
    ensures var d := ParseDefinitions(content).value;
      var flow := ExplicitEdges(d.constructs);
      var tbd := FallThrough(Markers(d.finalLineNo, d.constructs));
      var docs := Translation(content, radical).value;
      && docs.machine == MachineTree(radical, d.finalLineNo, flow, tbd)
      && Sources(flow) !! FallThroughSources(tbd)
      && Sources(flow) + FallThroughSources(tbd) == Lines(d.finalLineNo)
      && UniqueNames(docs.context.children)
      && UniqueNames(docs.machine.children)
      && forall k :: 0 <= k < |docs.machine.children| ==> UniqueNames(docs.machine.children[k].children)
  {
    var d := ParseDefinitions(content).value;
    var flow := ExplicitEdges(d.constructs);
    var tbd := FallThrough(Markers(d.finalLineNo, d.constructs));
    LinePartition(d.finalLineNo, d.constructs);
    ContextNamesUnique(d.finalLineNo);
    MachineNamesUnique(radical, d.finalLineNo, flow, tbd);
  }

  /** A file holding only `3`: three straight-line instructions, each with its fall-through event. */
  lemma {:induction false} StraightLineTranslation(radical: string)
    ensures Translation("3\n", radical) ==
      Success(Documents(ContextTree(3), MachineTree(radical, 3, [], [(0, 1), (1, 2), (2, 3)])))
  {
    StraightLineDocument();
    StraightLineExample();
  }
}
