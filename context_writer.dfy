/**
 * The context writer: declares the carrier set `Lines`, one constant per
 * line and the axiom that the constants partition the set.
 */
module ContextWriter {
  import opened Wrappers
  import opened Text
  import opened Elements

  const SetName := "Lines"

  function ContextAttrs(): Attrs {
    NoAttrs.(configuration := Some("org.eventb.core.fwd"), version := Some("3"))
  }

  function SetDecl(id: string, identifier: string): Element {
    Element(CarrierSet, NoAttrs.(name := Some(id), identifier := Some(identifier)), [])
  }

  function ConstantDecl(id: string, identifier: string): Element {
    Element(Constant, NoAttrs.(name := Some(id), identifier := Some(identifier)), [])
  }

  /** `partition(S, {c0}, {c1}, ...)`: the set is split into the singletons of the constants. */
  function PartitionPredicate(setName: string, constantNames: seq<string>): string {
    "partition(" + setName + ", " + Join(Singletons(constantNames), ", ") + ")"
  }

  /** `{c}` for each constant `c`. */
  function Singletons(constantNames: seq<string>): seq<string> {
    seq(|constantNames|, i requires 0 <= i < |constantNames| => "{" + constantNames[i] + "}")
  }

  function ContentAxiom(id: string, setName: string, constantNames: seq<string>): Element {
    Element(Axiom,
      NoAttrs.(name := Some(id), labelText := Some("content_" + setName),
        predicateText := Some(PartitionPredicate(setName, constantNames))),
      [])
  }

  /** The constant standing for line `i`: `l<i>`. */
  function LineName(i: int): string {
    "l" + IntToString(i)
  }

  /** How many values `range(n + 1)` yields: the lines `0..n`. */
  function LineCount(n: int): nat {
    if n < 0 then 0 else n + 1
  }

  /** The names of the lines `0..n`. */
  function LineNames(n: int): seq<string> {
    FirstLineNames(LineCount(n))
  }

  /** The names of the first `count` lines. */
  function FirstLineNames(count: nat): seq<string> {
    seq(count, i => LineName(i))
  }

  lemma {:induction false} FirstLineNamesStep(count: nat)
    ensures FirstLineNames(count + 1) == FirstLineNames(count) + [LineName(count)]
  {
  }

  /** Constants for the lines `0..count-1`, named from `Id(k)` on. */
  function ConstantDecls(count: nat, k: nat): seq<Element>
    requires FirstId + k + count <= IdLimit
  {
    seq(count, i requires 0 <= i < count => ConstantDecl(Id(k + i), LineName(i)))
  }

  lemma {:induction false} ConstantDeclsStep(count: nat, k: nat)
    requires FirstId + k + count + 1 <= IdLimit
    ensures ConstantDecls(count + 1, k) == ConstantDecls(count, k) + [ConstantDecl(Id(k + count), LineName(count))]
  {
  }

  /** The children `make(n)` appends to a root that already holds `k0` of them. */
  function ContextChildren(n: int, k0: nat): seq<Element>
    requires FirstId + k0 + LineCount(n) + 2 <= IdLimit
  {
    [SetDecl(Id(k0), SetName)] +
    ConstantDecls(LineCount(n), k0 + 1) +
    [ContentAxiom(Id(k0 + 1 + LineCount(n)), SetName, LineNames(n))]
  }

  /** The context document for `n`: the tree a fresh writer's `make(n)` returns. */
  function ContextTree(n: int): Element
    requires FirstId + LineCount(n) + 2 <= IdLimit
  {
    Element(ContextFile, ContextAttrs(), ContextChildren(n, 0))
  }

  /**
   * The context for `n >= 0` has `n + 3` children: the set `Lines`, the
   * constants `l0` to `ln` in order, then the axiom `content_Lines`.
   */
  lemma {:induction false} ContextShape(n: nat)
    requires FirstId + n + 3 <= IdLimit
    ensures var cs := ContextTree(n).children;
      && |cs| == n + 3
      && cs[0].tag == CarrierSet && cs[0].attrs.identifier == Some("Lines")
      && (forall i :: 0 <= i <= n ==> cs[1 + i].tag == Constant && cs[1 + i].attrs.identifier == Some(LineName(i)))
      && cs[n + 2].tag == Axiom
      && cs[n + 2].attrs.labelText == Some("content_Lines")
      && cs[n + 2].attrs.predicateText == Some(PartitionPredicate("Lines", LineNames(n)))
  {
    assert "content_" + SetName == "content_Lines";
  }

  lemma {:induction false} ConstantDeclsNumbered(count: nat, k: nat)
    requires FirstId + k + count <= IdLimit
    ensures NumberedFrom(ConstantDecls(count, k), k)
  {
    var decls := ConstantDecls(count, k);
    forall i | 0 <= i < count
      ensures decls[i].attrs.name == Some(Id(k + i))
    {
      assert decls[i] == ConstantDecl(Id(k + i), LineName(i));
    }
  }

  /** Within the context root, no two children share a `name`. */
  lemma {:induction false} ContextNamesUnique(n: int)
    requires FirstId + LineCount(n) + 2 <= IdLimit
    ensures UniqueNames(ContextTree(n).children)
  {
    var lc := LineCount(n);
    var set_, decls := SetDecl(Id(0), SetName), ConstantDecls(lc, 1);
    var axiom := ContentAxiom(Id(1 + lc), SetName, LineNames(n));
    assert |decls| == lc;
    assert ContextTree(n).children == [set_] + decls + [axiom];
    ConstantDeclsNumbered(lc, 1);
    assert NumberedFrom([set_], 0);
    NumberedAppend([set_], decls, 0);
    NumberedSnoc([set_] + decls, axiom, 0);
    NumberedUnique([set_] + decls + [axiom], 0);
  }

  /** The line constants are pairwise distinct identifiers, so the partition lists each line once. */
  lemma {:induction false} LineNamesDistinct(n: int)
    ensures forall i, j :: 0 <= i < j < LineCount(n) ==> LineNames(n)[i] != LineNames(n)[j]
  {
    forall i, j | 0 <= i < j < LineCount(n)
      ensures LineNames(n)[i] != LineNames(n)[j]
    {
      if LineName(i) == LineName(j) {
        assert IntToString(i) == LineName(i)[1..] == LineName(j)[1..] == IntToString(j);
        IntToStringInjective(i, j);
      }
    }
  }

  lemma {:induction false} LineNamesThree()
    ensures LineNames(3) == ["l0", "l1", "l2", "l3"]
  {
    assert IntToString(0) == "0" && IntToString(1) == "1" && IntToString(2) == "2" && IntToString(3) == "3";
    var names := LineNames(3);
    assert |names| == 4 && names[0] == "l0" && names[1] == "l1" && names[2] == "l2" && names[3] == "l3";
  }

  lemma {:induction false} SingletonsThree()
    ensures Singletons(["l0", "l1", "l2", "l3"]) == ["{l0}", "{l1}", "{l2}", "{l3}"]
  {
    var s := Singletons(["l0", "l1", "l2", "l3"]);
    assert s[0] == "{l0}" && s[1] == "{l1}" && s[2] == "{l2}" && s[3] == "{l3}";
  }

  /** For three lines the axiom partitions `Lines` into the four singletons `{l0}` to `{l3}`. */
  lemma {:induction false} PartitionExample()
    ensures PartitionPredicate("Lines", LineNames(3)) == "partition(Lines, {l0}, {l1}, {l2}, {l3})"
  {
    LineNamesThree();
    SingletonsThree();
    JoinThree();
  }

  lemma {:induction false} JoinThree()
    ensures Join(["{l0}", "{l1}", "{l2}", "{l3}"], ", ") == "{l0}, {l1}, {l2}, {l3}"
  {
    var singletons := ["{l0}", "{l1}", "{l2}", "{l3}"];
    assert Join(singletons[3..], ", ") == "{l3}";
    assert Join(singletons[2..], ", ") == "{l2}, {l3}";
    assert Join(singletons[1..], ", ") == "{l1}, {l2}, {l3}";
  }

  /** `RodinContextWriter`: a root element whose children are appended one by one. */
  class RodinContextWriter {
    var nextId: int
    var children: seq<Element>

    /** The counter has handed out exactly one identifier per child, in order. */
    ghost predicate Valid()
      reads this
    {
      nextId == FirstId + |children| && NumberedFrom(children, 0)
    }

    function Root(): Element
      reads this
    {
      Element(ContextFile, ContextAttrs(), children)
    }

    constructor (radical: string)
      ensures Valid() && children == []
    {
      nextId := FirstId;
      children := [];
    }

    /** `get_next_id`: the current identifier, then the counter moves on by one. */
    method GetNextId() returns (id: string)
      requires FirstId <= nextId < IdLimit
      modifies this
      ensures id == Id(old(nextId) - FirstId)
      ensures nextId == old(nextId) + 1 && children == old(children)
    {
      id := [nextId as char];
      nextId := nextId + 1;
    }

    method AddConstant(name: string)
      requires Valid() && nextId < IdLimit
      modifies this
      ensures Valid() && children == old(children) + [ConstantDecl(Id(|old(children)|), name)]
    {
      var id := GetNextId();
      children := children + [ConstantDecl(id, name)];
    }

    method AddSet(name: string)
      requires Valid() && nextId < IdLimit
      modifies this
      ensures Valid() && children == old(children) + [SetDecl(Id(|old(children)|), name)]
    {
      var id := GetNextId();
      children := children + [SetDecl(id, name)];
    }

    method SetSetContent(setName: string, constantNames: seq<string>)
      requires Valid() && nextId < IdLimit
      modifies this
      ensures Valid()
      ensures children == old(children) + [ContentAxiom(Id(|old(children)|), setName, constantNames)]
    {
      var id := GetNextId();
      children := children + [ContentAxiom(id, setName, constantNames)];
    }

    /** The loop of `make`: constants `l0` to `l<count-1>`, whose names it also collects. */
    method AddConstants(count: nat, ghost k0: nat) returns (constantNames: seq<string>)
      requires Valid() && k0 == |children| && nextId + count <= IdLimit
      modifies this
      ensures Valid() && children == old(children) + ConstantDecls(count, k0)
      ensures constantNames == FirstLineNames(count)
      ensures nextId == old(nextId) + count && |children| == k0 + count
    {
      ghost var c0 := children;
      constantNames := [];
      for lineNo := 0 to count
        invariant Valid() && children == c0 + ConstantDecls(lineNo, k0)
        invariant constantNames == FirstLineNames(lineNo)
      {
        var constantName := LineName(lineNo);
        AddConstant(constantName);
        ConstantDeclsStep(lineNo, k0);
        FirstLineNamesStep(lineNo);
        constantNames := constantNames + [constantName];
      }
    }

    /** `make`: the set, one constant per line `0..n`, the partition axiom; returns the root. */
    method Make(finalLineNo: int) returns (root: Element)
      requires Valid() && nextId + LineCount(finalLineNo) + 2 <= IdLimit
      modifies this
      ensures Valid()
      ensures children == old(children) + [SetDecl(Id(|old(children)|), SetName)]
        + ConstantDecls(LineCount(finalLineNo), |old(children)| + 1)
        + [ContentAxiom(Id(|old(children)| + 1 + LineCount(finalLineNo)), SetName, LineNames(finalLineNo))]
      ensures root == Root()
    {
      ghost var k0 := |children|;
      AddSet(SetName);
      var constantNames := AddConstants(LineCount(finalLineNo), k0 + 1);
      SetSetContent(SetName, constantNames);
      root := Root();
    }
  }
}
