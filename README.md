# genrodin in Dafny

genrodin reads a small definitions document. The document gives a program's
last line number and a list of `while` and `if` annotations, each with the
line numbers where it tests, branches and rejoins. genrodin turns that into
a transition graph over program-counter lines and writes the graph as two
Event-B (Rodin) element trees:

- a **context**: the carrier set `Lines`, one constant `l<i>` per line, and
  the axiom `partition(Lines, {l0}, ..., {ln})`;
- a **machine**: the variable `pc` with its initialisation and typing
  invariant, one placeholder invariant `Pl<i>` per line, and one event per
  edge of the graph.

This project models that core and proves what it promises.

| file | models |
|---|---|
| `wrappers.dfy` | `Option` and `Result`, standing for `None` and raised exceptions |
| `text.dfy` | the parts of Python's `str` used: `strip`, `split`, `join`, `int()` and `"{}".format` on integers |
| `constructs.dfy` | `neg`; `WhileConstruct` and `IfConstruct` as one datatype; `generate_events` as a method on an `array<bool>` |
| `flow_graph.dfy` | the graph-building loops of `main`: the marker array, the explicit edges and the fall-through edges |
| `definitions.dfy` | `parse_content` and a writer for definitions documents, used to state round trips |
| `elements.dfy` | element trees (tag, attribute record, children) and the `chr(39 + k)` identifiers |
| `context_writer.dfy` | `RodinContextWriter` as a class, with the tree its `make` builds |
| `machine_writer.dfy` | `RodinMachineWriter` and `RodinEventWriter` as classes, with the tree `make` builds |
| `generator.dfy` | `main` from the parsed content to both `make` calls, without file and console I/O |

The writers are classes with a `nextId` counter and a `children` sequence.
Each `add_*` method appends one child named by the counter. Each `make`
method is proved to leave exactly the children given by a specification
function: `ContextTree` for the context and `MachineTree` for the machine.
Lemmas then prove the promised shape of those trees, and that names are
unique within each scope.

The marker list `real_instructions` is an `array<bool>`. `GenerateEvents`
clears exactly the entries its construct takes over. `BuildGraph` is proved
against `ExplicitEdges`, `Markers` and `FallThrough`. It is also proved to
partition the lines `[0, n)`: every line is the source of explicit edges or
of one fall-through edge, never both.

`parse_content` is modelled twice:

- `ParseDefinitions`, a function that is the specification;
- `ParseContent`, the loop proved equal to it.

The error paths are a `ParseError` value instead of an exception: no line
count, a field `int()` refuses, a wrong number of fields, and an
unrecognised keyword. A writer for definitions documents gives a
parse-after-write round trip.

## Model

| member | source | states |
|---|---|---|
| Constructs.NegInjective | genrodin.py:6-7 | `¬(a)` and `¬(b)` are equal only when `a` and `b` are, so negations of different conditions never collide |
| Constructs.NegDiffers | genrodin.py:6-7 | `¬(c)` is never `c` itself, so a branch and its complement carry different guards |
| Constructs.SourcesAreMarks | genrodin.py:20-48 | the lines a construct marks false are exactly the sources of the four edges it returns |
| Constructs.WhileBranches | genrodin.py:20-28 | every edge of a `while` either enters the body at `before + 1` guarded by `cond`, or leaves to `after` guarded by `¬(cond)` |
| Constructs.GenerateEvents | genrodin.py:20-48 | returns the construct's four edges in order; afterwards a marker is true exactly when it was true before and the construct does not take that line over, so markers only go from true to false and no other entry changes |
| Constructs.WhileExample | genrodin.py:20-28 | `while:x>0:2:6` yields `(2,3,x>0)`, `(2,6,¬(x>0))`, `(5,3,x>0)`, `(5,6,¬(x>0))` and marks lines 2 and 5 |
| Constructs.IfExample | genrodin.py:38-48 | `if:b:1:3:5` yields `(1,2,b)`, `(3,5,None)`, `(1,4,¬(b))`, `(4,5,None)` and marks lines 1, 3 and 4 |
| FlowGraph.ExplicitEdges | genrodin.py:228-230 | the explicit edge list has four edges per construct |
| FlowGraph.ExplicitEdgesInOrder | genrodin.py:228-230 | edge `j` of construct `k` sits at position `4k + j`: the list concatenates the constructs' edges in input order |
| FlowGraph.ExplicitSourcesAreMarks | genrodin.py:229-230 | the sources of the explicit edges are exactly the lines some construct marked false |
| FlowGraph.Markers | genrodin.py:227 | the marker list has one entry per line of `[0, n)`, and none for a negative `n` |
| FlowGraph.FallThrough | genrodin.py:231-236 | every fall-through edge is `(i, i + 1)` for a line `i` whose marker is true; every such line gets one; they come in strictly increasing order of `i` |
| FlowGraph.FallThroughSourcesMarked | genrodin.py:231-236 | the fall-through edges leave exactly the lines whose marker is still true |
| FlowGraph.FallThroughSourcesUnmarked | genrodin.py:227-236 | after all constructs ran, the fall-through edges leave exactly the lines of `[0, n)` that no construct marked |
| FlowGraph.LinePartition | genrodin.py:227-236 | explicit and fall-through sources are disjoint, and together they are all of `[0, n)` |
| FlowGraph.BuildGraph | genrodin.py:227-236 | returns exactly `ExplicitEdges` and `FallThrough(Markers)`, and every line of `[0, n)` leaves by edges of exactly one kind |
| FlowGraph.StraightLineExample | genrodin.py:227-236 | with `n = 3` and no construct there are no explicit edges, and the fall-through edges are `(0,1)`, `(1,2)`, `(2,3)` |
| Text.Strip | genrodin.py:204 | `strip()` is empty exactly for blank strings; otherwise it neither starts nor ends with whitespace; it is the infix that starts after the leading whitespace and is followed by whitespace only |
| Text.Split | genrodin.py:204 | `split` yields at least one piece, and no piece holds the separator |
| Text.JoinSplit | genrodin.py:204 | joining the pieces of a split with the separator gives the string back |
| Text.SplitJoin | genrodin.py:208 | splitting a join of separator-free pieces gives the pieces back |
| Text.ParseIntToString | genrodin.py:205 | `int()` reads back every integer `"{}".format` writes |
| Text.IntToStringInjective | genrodin.py:91 | different line numbers are formatted differently |
| Definitions.NonBlank | genrodin.py:204 | dropping blank lines never lengthens the list |
| Definitions.NonBlankSingle | genrodin.py:204 | a single line is dropped when blank and otherwise kept as its `strip()` |
| Definitions.NonBlankAppend | genrodin.py:204 | the kept lines of a concatenation are the kept lines of each part, in order, so every line is treated on its own |
| Definitions.NonBlankTrimmed | genrodin.py:204 | every line kept is stripped and not blank |
| Definitions.BlankLinesIgnored | genrodin.py:204 | inserting a blank or whitespace-only line anywhere leaves the kept lines unchanged |
| Definitions.NonBlankKeepsTrimmed | genrodin.py:204 | lines that are already stripped and non-blank are all kept, unchanged |
| Definitions.NonBlankIdempotent | genrodin.py:204 | dropping blank lines twice is the same as dropping them once |
| Definitions.ParseFieldFormatted | genrodin.py:205 | a field written by `"{}".format` reads back as its integer |
| Definitions.ParseFieldRejects | genrodin.py:205 | a field holding a character that is neither a digit, a sign nor whitespace fails with `NotAnInteger` naming that field |
| Definitions.ParseLineDispatch | genrodin.py:208-214 | only the keywords `while` and `if` are accepted, any other first field is `Unrecognized construct`; the kind follows the keyword, and the condition is the second field as written |
| Definitions.ParseConstructsSpec | genrodin.py:207-214 | the construct lines parse exactly when each line does; then the constructs are the lines' parses in order, otherwise the error is that of the first failing line |
| Definitions.ParseFailurePersists | genrodin.py:207-214 | once a prefix of the lines fails, the whole document fails with that same error |
| Definitions.ParseContent | genrodin.py:203-215 | the loop returns what `ParseDefinitions` specifies: no line count, a bad count, or the first failing construct line, else the count and all constructs in order |
| Definitions.ParseLineRoundTrip | genrodin.py:208-212 | a construct written as `while:cond:b:a` or `if:cond:b:e:a` reads back as itself when `cond` holds no `:` |
| Definitions.DocumentLinesRead | genrodin.py:204 | reading a written document recovers its lines exactly |
| Definitions.ConstructLinesRead | genrodin.py:207-214 | the construct lines of a written document read back as its constructs |
| Definitions.DefinitionsRoundTrip | genrodin.py:203-215 | reading a written definitions document gives back its line count and constructs |
| Definitions.StraightLineDocument | genrodin.py:203-215 | the document `3` declares line count 3 and no construct |
| Elements.IdInjective | genrodin.py:58-61 | `chr(39 + i)` and `chr(39 + j)` are equal only when `i == j` |
| ContextWriter.ContextShape | genrodin.py:86-94 | for `n >= 0` the context has `n + 3` children: the set `Lines`, the constants `l0` to `ln` in order, and the axiom `content_Lines` whose predicate is `partition(Lines, {l0}, ..., {ln})` |
| ContextWriter.ContextNamesUnique | genrodin.py:58-84 | no two children of the context root share a `name` |
| ContextWriter.LineNamesDistinct | genrodin.py:90-93 | the line constants are pairwise distinct, so the partition lists each line once |
| ContextWriter.PartitionExample | genrodin.py:75-84 | for three lines the axiom's predicate is `partition(Lines, {l0}, {l1}, {l2}, {l3})` |
| ContextWriter.RodinContextWriter.constructor | genrodin.py:51-56 | a fresh writer has no children and its counter at 39 |
| ContextWriter.RodinContextWriter.GetNextId | genrodin.py:58-61 | returns `chr` of the counter and moves the counter on by one |
| ContextWriter.RodinContextWriter.AddConstant | genrodin.py:63-67 | appends one constant named by the next identifier |
| ContextWriter.RodinContextWriter.AddSet | genrodin.py:69-73 | appends one carrier set named by the next identifier |
| ContextWriter.RodinContextWriter.SetSetContent | genrodin.py:75-84 | appends the `content_<set>` axiom whose predicate partitions the set into the constants' singletons |
| ContextWriter.RodinContextWriter.AddConstants | genrodin.py:89-93 | the loop of `make` appends the constants `l0` to `l<count-1>` with consecutive identifiers and returns their names in order |
| ContextWriter.RodinContextWriter.Make | genrodin.py:86-95 | appends the set, the constants for lines `0..n` and the axiom, keeps the counter in step with the children, and returns the root |
| MachineWriter.TbdInvariantsShape | genrodin.py:134-140 | the placeholder invariants are labelled `Pl0`, `Pl1`, ... in order and have no children |
| MachineWriter.FlowEventsShape | genrodin.py:142-145 | one event per explicit edge, in order, labelled `l<from>l<to>`, each with its own children numbered from 39 |
| MachineWriter.TbdEventsShape | genrodin.py:147-148 | one event per fall-through edge, in order, labelled `l<from>l<to>`, each with its own children numbered from 39 |
| MachineWriter.MachineBodyNumbered | genrodin.py:150-157 | what `make` appends has one child per line, per explicit edge and per fall-through edge, numbered on from the identifiers in use; each event's children are numbered from 39 |
| MachineWriter.MachineShape | genrodin.py:98-157 | the machine lists `INITIALISATION`, the link to `<radical>_context`, the variable `pc`, the invariant `type_pc`, then what `make` appends |
| MachineWriter.FlowEventContents | genrodin.py:142-185 | an explicit edge's event has the guard `pc = l<from>` and the action `pc ≔ l<to>`, and a third child, the `cond` guard, exactly when the edge is guarded |
| MachineWriter.TbdEventContents | genrodin.py:160-200 | a fall-through edge's event has the `pc_control` guard, the `pc_next` action and the empty `act1` action |
| MachineWriter.InvariantLabelsDistinct | genrodin.py:134-140 | the placeholder invariants carry pairwise distinct labels |
| MachineWriter.FixedChildrenNumbered | genrodin.py:98-127 | the four children the constructor appends are named `'`, `(`, `)`, `*` in order, and the initialisation action is named `'` in its own scope |
| MachineWriter.MachineNamesUnique | genrodin.py:97-200 | names are unique among the machine root's children, and among each event's children, since each event restarts its counter |
| MachineWriter.RodinMachineWriter.constructor | genrodin.py:98-127 | appends the initialisation event, the context link, the variable `pc` and its typing invariant, with consecutive identifiers |
| MachineWriter.RodinMachineWriter.GetNextId | genrodin.py:129-132 | returns `chr` of the counter and moves the counter on by one |
| MachineWriter.RodinMachineWriter.AddTbdInvariant | genrodin.py:134-140 | appends the invariant `Pl<i>`: `pc = l<i> ⇒ (⊤)`, commented `TBD` |
| MachineWriter.RodinMachineWriter.AddFlowEvent | genrodin.py:142-145 | appends the `FLOW` event of the edge, with a `cond` guard when the edge has a predicate |
| MachineWriter.RodinMachineWriter.AddTbdEvent | genrodin.py:147-148 | appends the `TBD` event of the fall-through edge |
| MachineWriter.RodinMachineWriter.AddTbdInvariants | genrodin.py:151-152 | the first loop of `make` appends the invariants of lines `0..count-1` in order |
| MachineWriter.RodinMachineWriter.AddFlowEvents | genrodin.py:153-154 | the second loop appends one event per explicit edge, in order |
| MachineWriter.RodinMachineWriter.AddTbdEvents | genrodin.py:155-156 | the third loop appends one event per fall-through edge, in order |
| MachineWriter.RodinMachineWriter.Make | genrodin.py:150-157 | appends the invariants, then the explicit edges' events, then the fall-through edges' events, keeps the counter in step, and returns the root |
| MachineWriter.RodinEventWriter.constructor | genrodin.py:161-173 | takes the event's name from the parent's counter, restarts its own at 39, and adds `pc_control`, `pc_next` and, for a TBD event, `act1` |
| MachineWriter.RodinEventWriter.GetNextId | genrodin.py:175-178 | returns `chr` of the event's own counter and moves it on by one |
| MachineWriter.RodinEventWriter.AddGuard | genrodin.py:180-185 | appends a guard with the given predicate and label, named by the next identifier |
| MachineWriter.RodinEventWriter.AddAction | genrodin.py:187-192 | appends an action with the given assignment and label, named by the next identifier |
| MachineWriter.RodinEventWriter.AddTbdAction | genrodin.py:194-200 | appends the action `act1` with an empty assignment, commented `TBD` |
| Generator.WriteDocuments | genrodin.py:237-244 | fresh context and machine writers produce exactly `ContextTree(n)` and `MachineTree(radical, n, flow, tbd)` |
| Generator.Generate | genrodin.py:226-244 | a run returns what `Translation` specifies: parse, build the graph, then write both documents |
| Generator.TranslationFails | genrodin.py:226-244 | a run fails exactly when the definitions do not parse, a construct marks a line outside `[0, n)`, or the identifiers run out; a parse error is passed through unchanged |
| Generator.TranslationCoversLines | genrodin.py:226-244 | in a successful run, every line leaves through explicit events or its one fall-through event, never both; names are unique in each document and in each event |
| Generator.StraightLineTranslation | genrodin.py:226-244 | the document `3` yields the context for lines `l0..l3` and a machine with no flow events and the fall-through events `l0l1`, `l1l2`, `l2l3` |

## Left out

- File reading and writing, the command-line argument check, the XML
  declaration prefix and the final `print` of `main` are I/O. `Generate`
  takes the file content and the radical as parameters, and returns the two
  element trees.
- `ET.tostring` serialisation to bytes is left out, so the model stops at
  the element tree. Attributes are a record with one optional field per
  attribute name. The order in which an element's attributes would be
  written is therefore not modelled.
- `RodinEventWriter` attaches its event to the machine root before adding
  the event's children, and mutates it through the shared element. The
  model builds the event first and then appends it. The final tree is the
  same.
- The three loops of the machine writer's `make`, and the constants loop of
  the context writer's `make`, are separate methods (`AddTbdInvariants`,
  `AddFlowEvents`, `AddTbdEvents`, `AddConstants`). Each takes a ghost
  offset naming where its numbering starts.
- The unused abstract base class `Construct` (genrodin.py:9-12) has no
  counterpart. The datatype `Constructs.Construct` plays its role.
- Constructs.GenerateEvents: requires every line it marks to lie within the
  marker list. Python would wrap negative indices to the end of the list,
  and would raise `IndexError` past it, possibly after clearing an earlier
  marker. `Generate` instead reports `MarkOutOfRange` before building the
  graph.
- FlowGraph.BuildGraph: has the same requirement on every construct, for
  the same reason.
- Text.ParseInt: accepts an optional sign and ASCII decimal digits
  surrounded by whitespace. Python's `int()` also accepts `_` between
  digits and non-ASCII decimal digits, which the model rejects. The model
  also trims with the whitespace of `str.strip()`, which includes the
  separators U+001C to U+001F. `int()` does not trim those, so Python
  refuses a field such as `"\x1c5"` that the model reads as 5. This
  matters only for the numeric fields of construct lines, which are not
  stripped before `int()`.
- Definitions.ParseLine: a construct line with the wrong number of fields
  raises `TypeError` in Python. The model returns the error
  `WrongFieldCount` instead, checked before the numbers as in Python.
- Elements.Id: identifiers must stay below code point 0xD800, where `chr`
  reaches the surrogates, which Dafny's `char` excludes. `Generate` reports
  `TooManyElements` for a document that would need more. Python goes on:
  `ET.tostring` writes US-ASCII and replaces every character it cannot
  encode with a character reference such as `&#55296;`, so the run
  succeeds. Python fails only once `chr()` is asked for a code point past
  0x10FFFF.
