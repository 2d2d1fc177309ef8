/**
 * Abstract XML element trees as the writers build them, and the
 * single-character `name` identifiers the writers hand out.
 */
module Elements {
  import opened Wrappers

  /** The element names the writers use: each tag stands for `org.eventb.core.<tag>`, first letter in lower case. */
  datatype Tag =
    | ContextFile | CarrierSet | Constant | Axiom
    | MachineFile | SeesContext | Variable | Invariant | Event | Guard | Action

  /**
   * The attributes of an element, one optional value per attribute name;
   * `None` where the element does not carry that attribute. Apart from
   * `name` and `version`, each field stands for the attribute
   * `org.eventb.core.<field>`; `labelText` is `org.eventb.core.label` and
   * `predicateText` is `org.eventb.core.predicate`.
   */
  datatype Attrs = Attrs(
    name: Option<string>, configuration: Option<string>, version: Option<string>,
    identifier: Option<string>, labelText: Option<string>, predicateText: Option<string>,
    assignment: Option<string>, comment: Option<string>, convergence: Option<string>,
    extended: Option<string>, target: Option<string>)

  /** An element with no attributes; the writers fill in the ones they set. */
  const NoAttrs := Attrs(None, None, None, None, None, None, None, None, None, None, None)

  /** An element: its tag, its attributes and its children, in document order. */
  datatype Element = Element(tag: Tag, attrs: Attrs, children: seq<Element>)

  /** Every identifier counter starts at code point 39, the apostrophe. */
  const FirstId: nat := 39

  /** `chr` reaches the surrogate code points here; identifiers stay below. */
  const IdLimit: nat := 0xD800

  /** The `k`-th identifier a fresh counter hands out: `chr(39 + k)`. */
  function Id(k: nat): string
    requires FirstId + k < IdLimit
  {
    [(FirstId + k) as char]
  }

  /** The `k`-th identifier is told apart from every other one. */
  lemma {:induction false} IdInjective(i: nat, j: nat)
    requires FirstId + i < IdLimit && FirstId + j < IdLimit
    requires Id(i) == Id(j)
    ensures i == j
  {
    assert Id(i)[0] == Id(j)[0];
  }

  /** Children named `Id(k0)`, `Id(k0 + 1)`, ... in order. */
  ghost predicate NumberedFrom(cs: seq<Element>, k0: nat) {
    && FirstId + k0 + |cs| <= IdLimit
    && forall k :: 0 <= k < |cs| ==> cs[k].attrs.name == Some(Id(k0 + k))
  }

  /** Each child's own children are numbered from the first identifier. */
  ghost predicate ContentsNumbered(cs: seq<Element>) {
    forall k :: 0 <= k < |cs| ==> NumberedFrom(cs[k].children, 0)
  }

  /** No two children share a `name`. */
  ghost predicate UniqueNames(cs: seq<Element>) {
    && (forall k :: 0 <= k < |cs| ==> cs[k].attrs.name.Some?)
    && forall i, j :: 0 <= i < j < |cs| ==> cs[i].attrs.name != cs[j].attrs.name
  }

  /** Consecutively numbered children have pairwise distinct names. */
  lemma {:induction false} NumberedUnique(cs: seq<Element>, k0: nat)
    requires NumberedFrom(cs, k0)
    ensures UniqueNames(cs)
  {
    forall i, j | 0 <= i < j < |cs|
      ensures cs[i].attrs.name != cs[j].attrs.name
    {
      if cs[i].attrs.name == cs[j].attrs.name {
        IdInjective(k0 + i, k0 + j);
      }
    }
  }

  /** Consecutively numbered children, each with consecutively numbered content, have unique names at both levels. */
  lemma {:induction false} NumberedTreeUnique(cs: seq<Element>, k0: nat)
    requires NumberedFrom(cs, k0) && ContentsNumbered(cs)
    ensures UniqueNames(cs) && forall k :: 0 <= k < |cs| ==> UniqueNames(cs[k].children)
  {
    NumberedUnique(cs, k0);
    forall k | 0 <= k < |cs|
      ensures UniqueNames(cs[k].children)
    {
      NumberedUnique(cs[k].children, 0);
    }
  }

  /** Numbering carries over a concatenation. */
  lemma {:induction false} NumberedAppend(a: seq<Element>, b: seq<Element>, k0: nat)
    requires NumberedFrom(a, k0) && NumberedFrom(b, k0 + |a|)
    ensures NumberedFrom(a + b, k0)
  {
    forall k | 0 <= k < |a + b|
      ensures (a + b)[k].attrs.name == Some(Id(k0 + k))
    {
      if k >= |a| {
        assert (a + b)[k] == b[k - |a|];
      }
    }
  }

  /** Appending the child named by the next identifier keeps the numbering. */
  lemma {:induction false} NumberedSnoc(cs: seq<Element>, e: Element, k0: nat)
    requires NumberedFrom(cs, k0) && FirstId + k0 + |cs| < IdLimit
    requires e.attrs.name == Some(Id(k0 + |cs|))
    ensures NumberedFrom(cs + [e], k0)
  {
    forall k | 0 <= k < |cs| + 1
      ensures (cs + [e])[k].attrs.name == Some(Id(k0 + k))
    {
      if k < |cs| {
        assert (cs + [e])[k] == cs[k];
      }
    }
  }

  lemma {:induction false} ContentsAppend(a: seq<Element>, b: seq<Element>)
    requires ContentsNumbered(a) && ContentsNumbered(b)
    ensures ContentsNumbered(a + b)
  {
    forall k | 0 <= k < |a + b|
      ensures NumberedFrom((a + b)[k].children, 0)
    {
      if k < |a| {
        assert (a + b)[k] == a[k];
      } else {
        assert (a + b)[k] == b[k - |a|];
      }
    }
  }

  /** Appending three pieces one after the other appends their concatenation. */
  lemma {:induction false} AppendAssoc<T>(c: seq<T>, x: seq<T>, y: seq<T>, z: seq<T>)
    ensures c + x + y + z == c + (x + y + z)
  {
  }
}
