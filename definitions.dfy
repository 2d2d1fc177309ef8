/**
 * The definitions document: a line count followed by one `while` or `if`
 * construct per line, fields separated by `:`, blank lines ignored.
 */
module Definitions {
  import opened Wrappers
  import opened Text
  import opened Constructs

  /** The ways reading a definitions document can fail. */
  datatype ParseError =
    | MissingLineCount                 // no non-blank line, so no line count
    | NotAnInteger(field: string)      // `int()` refused a numeric field
    | WrongFieldCount(line: string)    // a construct line with too few or too many fields
    | UnrecognizedConstruct(line: string)

  datatype Definitions = Definitions(finalLineNo: int, constructs: seq<Construct>)

  /** The stripped lines that are not blank, in document order. */
  function NonBlank(lines: seq<string>): (r: seq<string>)
    ensures |r| <= |lines|
  {
    if lines == [] then []
    else if IsBlank(lines[0]) then NonBlank(lines[1..])
    else [Strip(lines[0])] + NonBlank(lines[1..])
  }

  /** One line on its own: dropped when blank, otherwise kept as its `strip()`. */
  lemma {:induction false} NonBlankSingle(line: string)
    ensures NonBlank([line]) == if IsBlank(line) then [] else [Strip(line)]
  {
    assert [line][1..] == [];
  }

  /** Filtering works line by line: the kept lines of a concatenation are those of each part, in order. */
  lemma {:induction false} NonBlankAppend(a: seq<string>, b: seq<string>)
    ensures NonBlank(a + b) == NonBlank(a) + NonBlank(b)
  {
    if a == [] {
      assert a + b == b;
    } else {
      var tail := a[1..] + b;
      assert (a + b)[0] == a[0] && (a + b)[1..] == tail;
      NonBlankAppend(a[1..], b);
      if !IsBlank(a[0]) {
        var head := [Strip(a[0])];
        calc {
          NonBlank(a + b);
          head + NonBlank(tail);
          head + (NonBlank(a[1..]) + NonBlank(b));
          (head + NonBlank(a[1..])) + NonBlank(b);
          NonBlank(a) + NonBlank(b);
        }
      }
    }
  }

  predicate AllTrimmed(lines: seq<string>) {
    forall k :: 0 <= k < |lines| ==> Trimmed(lines[k])
  }

  /** Every line kept is non-empty and carries no surrounding whitespace. */
  lemma {:induction false} NonBlankTrimmed(lines: seq<string>)
    ensures AllTrimmed(NonBlank(lines))
  {
    if lines != [] {
      var rest := NonBlank(lines[1..]);
      NonBlankTrimmed(lines[1..]);
      if !IsBlank(lines[0]) {
        var head := Strip(lines[0]);
        assert Trimmed(head);
        forall k | 0 <= k < |rest| + 1
          ensures Trimmed(([head] + rest)[k])
        {
          if k > 0 {
            assert ([head] + rest)[k] == rest[k - 1];
          }
        }
      }
    }
  }

  function NonBlankLines(content: string): seq<string> {
    NonBlank(Split(content, '\n'))
  }

  /** A blank or whitespace-only line anywhere in a document changes nothing. */
  lemma {:induction false} BlankLinesIgnored(before: seq<string>, blank: string, after: seq<string>)
    requires IsBlank(blank)
    ensures NonBlank(before + [blank] + after) == NonBlank(before + after)
  {
    if before == [] {
      var lines := before + [blank] + after;
      assert lines[0] == blank && lines[1..] == after;
      assert before + after == after;
    } else {
      BlankLinesIgnored(before[1..], blank, after);
      assert (before + [blank] + after)[1..] == before[1..] + [blank] + after;
      assert (before + after)[1..] == before[1..] + after;
    }
  }

  /** Lines that are already stripped and non-blank are all kept, unchanged. */
  lemma {:induction false} NonBlankKeepsTrimmed(lines: seq<string>)
    requires AllTrimmed(lines)
    ensures NonBlank(lines) == lines
  {
    if lines != [] {
      StripTrimmed(lines[0]);
      NonBlankKeepsTrimmed(lines[1..]);
    }
  }

  /** Dropping blank lines a second time changes nothing. */
  lemma {:induction false} NonBlankIdempotent(lines: seq<string>)
    ensures NonBlank(NonBlank(lines)) == NonBlank(lines)
  {
    NonBlankTrimmed(lines);
    NonBlankKeepsTrimmed(NonBlank(lines));
  }

  /** `int(field)`, failing with the field that is not a number. */
  function ParseField(field: string): (r: Result<int, ParseError>)
    ensures r.Success? <==> ParseInt(field).Some?
    ensures r.Success? ==> r.value == ParseInt(field).value
    ensures r.Failure? ==> r.error == NotAnInteger(field)
  {
    match ParseInt(field)
    case Some(v) => Success(v)
    case None => Failure(NotAnInteger(field))
  }

  /** A field written by `"{}".format` reads back as its integer. */
  lemma {:induction false} ParseFieldFormatted(i: int)
    ensures ParseField(IntToString(i)) == Success(i)
  {
    ParseIntToString(i);
  }

  /** A field holding a character that is neither a digit, a sign nor whitespace is refused, naming the field. */
  lemma {:induction false} ParseFieldRejects(field: string, k: nat)
    requires k < |field|
    requires !IsDigit(field[k]) && field[k] != '-' && field[k] != '+' && !IsSpace(field[k])
    ensures ParseField(field) == Failure(NotAnInteger(field))
  {
    var lead, t := LeadingSpaces(field), Strip(field);
    assert lead <= k;
    assert k < lead + |t|;
    var j := k - lead;
    assert t[j] == field[k];
    var digits := if t[0] == '-' || t[0] == '+' then t[1..] else t;
    if j == 0 {
      assert digits == t && !IsDigit(digits[0]);
    } else if digits == t {
      assert !IsDigit(digits[j]);
    } else {
      assert digits[j - 1] == t[j];
    }
    assert !AllDigits(digits);
  }

  /**
   * One construct line: dispatch on the keyword before the first `:`; the
   * condition is the next field as written, the line numbers the ones after.
   */
  function ParseLine(line: string): Result<Construct, ParseError> {
    var parts := Split(line, ':');
    if parts[0] == "while" then
      if |parts| != 4 then Failure(WrongFieldCount(line))
      else
        var before :- ParseField(parts[2]);
        var after :- ParseField(parts[3]);
        Success(While(parts[1], before, after))
    else if parts[0] == "if" then
      if |parts| != 5 then Failure(WrongFieldCount(line))
      else
        var before :- ParseField(parts[2]);
        var beforeElse :- ParseField(parts[3]);
        var after :- ParseField(parts[4]);
        Success(If(parts[1], before, beforeElse, after))
    else
      Failure(UnrecognizedConstruct(line))
  }

  /**
   * Only the keywords `while` and `if` are accepted; the construct's kind
   * follows the keyword and its condition is the second field, kept as written.
   */
  lemma {:induction false} ParseLineDispatch(line: string)
    ensures var parts := Split(line, ':'); var r := ParseLine(line);
      && (r == Failure(UnrecognizedConstruct(line)) <==> parts[0] != "while" && parts[0] != "if")
      && (r.Success? ==> (r.value.While? <==> parts[0] == "while"))
      && (r.Success? ==> |parts| >= 2 && r.value.cond == parts[1])
  {
  }

  /**
   * The construct lines read in order by `parse` (which is `ParseLine`);
   * the first line that fails decides the error.
   */
  function ParseConstructs(lines: seq<string>, parse: string -> Result<Construct, ParseError>)
    : Result<seq<Construct>, ParseError>
  {
    if lines == [] then Success([])
    else
      var cs :- ParseConstructs(lines[..|lines| - 1], parse);
      var c :- parse(lines[|lines| - 1]);
      Success(cs + [c])
  }

  /** `parse_content`: the first non-blank line is the line count, the others are constructs. */
  function ParseDefinitions(content: string): Result<Definitions, ParseError> {
    var lines := NonBlankLines(content);
    if lines == [] then Failure(MissingLineCount)
    else
      var finalLineNo :- ParseField(lines[0]);
      var constructs :- ParseConstructs(lines[1..], ParseLine);
      Success(Definitions(finalLineNo, constructs))
  }

  /**
   * The construct lines parse exactly when each of them does; then the
   * constructs are the lines' parses in order, and otherwise the error is
   * that of the first line that fails.
   */
  lemma {:induction false} ParseConstructsSpec(lines: seq<string>, parse: string -> Result<Construct, ParseError>)
    ensures ParseConstructs(lines, parse).Success? <==>
      forall k :: 0 <= k < |lines| ==> parse(lines[k]).Success?
    ensures ParseConstructs(lines, parse).Success? ==>
      var cs := ParseConstructs(lines, parse).value;
      |cs| == |lines| && forall k :: 0 <= k < |lines| ==> parse(lines[k]) == Success(cs[k])
    ensures ParseConstructs(lines, parse).Failure? ==>
      exists k :: 0 <= k < |lines| && parse(lines[k]) == Failure(ParseConstructs(lines, parse).error) &&
        forall j :: 0 <= j < k ==> parse(lines[j]).Success?
  {
    if lines != [] {
      var init := lines[..|lines| - 1];
      var last := |lines| - 1;
      ParseConstructsSpec(init, parse);
      assert forall k :: 0 <= k < last ==> lines[k] == init[k];
      if ParseConstructs(init, parse).Failure? {
        var k :| 0 <= k < |init| && parse(init[k]) == Failure(ParseConstructs(init, parse).error) &&
          forall j :: 0 <= j < k ==> parse(init[j]).Success?;
        assert parse(lines[k]) == Failure(ParseConstructs(lines, parse).error);
      } else if parse(lines[last]).Failure? {
        assert parse(lines[last]) == Failure(ParseConstructs(lines, parse).error);
      }
    }
  }

  /** Once a prefix of the construct lines fails, the whole document fails with the same error. */
  lemma {:induction false} ParseFailurePersists(
    lines: seq<string>, k: nat, parse: string -> Result<Construct, ParseError>)
    requires k <= |lines|
    requires ParseConstructs(lines[..k], parse).Failure?
    ensures ParseConstructs(lines, parse) == ParseConstructs(lines[..k], parse)
    decreases |lines| - k
  {
    if k < |lines| {
      assert lines[..k + 1][..k] == lines[..k];
      ParseFailurePersists(lines, k + 1, parse);
    } else {
      assert lines[..k] == lines;
    }
  }

  /** `parse_content`'s loop: one construct per remaining line, stopping at the first error. */
  method ParseContent(content: string) returns (r: Result<Definitions, ParseError>)
    ensures r == ParseDefinitions(content)
  {
    var lines := NonBlankLines(content);
    if lines == [] {
      return Failure(MissingLineCount);
    }
    var finalLineNo := ParseField(lines[0]);
    if finalLineNo.Failure? {
      return Failure(finalLineNo.error);
    }
    var rest := lines[1..];
    var constructs: seq<Construct> := [];
    for i := 0 to |rest|
      invariant ParseConstructs(rest[..i], ParseLine) == Success(constructs)
    {
      assert rest[..i + 1][..i] == rest[..i];
      var c := ParseLine(rest[i]);
      if c.Failure? {
        ParseFailurePersists(rest, i + 1, ParseLine);
        return Failure(c.error);
      }
      constructs := constructs + [c.value];
    }
    assert rest[..|rest|] == rest;
    r := Success(Definitions(finalLineNo.value, constructs));
  }

  /** A construct written back as a definitions line, `while:cond:before:after` or `if:cond:before:else:after`. */
  function FormatConstruct(c: Construct): string {
    Join(Fields(c), ":")
  }

  /** The lines of a written definitions document: the line count, then one line per construct. */
  function DocumentLines(d: Definitions): seq<string> {
    [IntToString(d.finalLineNo)] +
      seq(|d.constructs|, k requires 0 <= k < |d.constructs| => FormatConstruct(d.constructs[k]))
  }

  /** A definitions document written out, one line per entry. */
  function FormatDefinitions(d: Definitions): string {
    Join(DocumentLines(d), "\n")
  }

  /** A condition can be written into a definitions line when it holds neither separator. */
  predicate Writable(c: Construct) {
    ':' !in c.cond && '\n' !in c.cond
  }

  lemma {:induction false} IntToStringPlain(i: int)
    ensures ':' !in IntToString(i) && '\n' !in IntToString(i)
  {
    var s := IntToString(i);
    IntToStringChars(i);
    assert forall k :: 0 <= k < |s| ==> s[k] != ':' && s[k] != '\n';
  }

  /** Reading a formatted construct line gives the construct back. */
  lemma {:induction false} ParseLineRoundTrip(c: Construct)
    requires ':' !in c.cond
    ensures ParseLine(FormatConstruct(c)) == Success(c)
  {
    SplitJoin(Fields(c), ':');
    ParseIntToString(c.before);
    ParseIntToString(c.after);
    if c.If? {
      ParseIntToString(c.beforeElse);
    }
  }

  /** The pieces of a formatted construct line: keyword, condition, line numbers. */
  function Fields(c: Construct): (parts: seq<string>)
    ensures |parts| >= 4
    ensures forall k :: 2 <= k < |parts| ==> ':' !in parts[k] && '\n' !in parts[k]
  {
    IntToStringPlain(c.before); IntToStringPlain(c.after);
    match c
    case While(cond, b, a) => ["while", cond, IntToString(b), IntToString(a)]
    case If(cond, b, e, a) =>
      IntToStringPlain(e);
      ["if", cond, IntToString(b), IntToString(e), IntToString(a)]
  }

  /** A formatted construct line has no line break and no surrounding whitespace. */
  lemma {:induction false} FormattedLineTrimmed(c: Construct)
    requires Writable(c)
    ensures var l := FormatConstruct(c); Trimmed(l) && '\n' !in l
  {
    var l := FormatConstruct(c);
    var parts := Fields(c);
    assert l == Join(parts, ":");
    JoinAvoids(parts, ":", '\n');
    JoinStart(parts, ":");
    JoinEnd(parts, ":");
  }

  /** Reading back a written document's lines gives its lines unchanged. */
  lemma {:induction false} DocumentLinesRead(d: Definitions)
    requires forall c | c in d.constructs :: Writable(c)
    ensures NonBlankLines(FormatDefinitions(d)) == DocumentLines(d)
  {
    var cs := d.constructs;
    var lines := DocumentLines(d);
    forall k | 0 <= k < |lines|
      ensures Trimmed(lines[k]) && '\n' !in lines[k]
    {
      if k == 0 {
        IntToStringTrimmed(d.finalLineNo);
        IntToStringPlain(d.finalLineNo);
      } else {
        assert cs[k - 1] in cs;
        FormattedLineTrimmed(cs[k - 1]);
      }
    }
    SplitJoin(lines, '\n');
    NonBlankKeepsTrimmed(lines);
  }

  /** The construct lines of a written document read back as its constructs. */
  lemma {:induction false} ConstructLinesRead(d: Definitions)
    requires forall c | c in d.constructs :: Writable(c)
    ensures ParseConstructs(DocumentLines(d)[1..], ParseLine) == Success(d.constructs)
  {
    var cs := d.constructs;
    var lines := DocumentLines(d)[1..];
    ParseConstructsSpec(lines, ParseLine);
    forall k | 0 <= k < |cs|
      ensures ParseLine(lines[k]) == Success(cs[k])
    {
      assert cs[k] in cs;
      ParseLineRoundTrip(cs[k]);
    }
    var parsed := ParseConstructs(lines, ParseLine);
    assert parsed.Success?;
    assert parsed.value == cs;
  }

  /** Reading a written definitions document gives the line count and the constructs back. */
  lemma {:induction false} DefinitionsRoundTrip(d: Definitions)
    requires forall c | c in d.constructs :: Writable(c)
    ensures ParseDefinitions(FormatDefinitions(d)) == Success(d)
  {
    DocumentLinesRead(d);
    ConstructLinesRead(d);
    ParseIntToString(d.finalLineNo);
  }

  /** The straight-line document `3` declares three lines and no construct. */
  lemma {:induction false} StraightLineDocument()
    ensures ParseDefinitions("3\n") == Success(Definitions(3, []))
  {
    assert Split("", '\n') == [""];
    assert FirstIndex("3\n", '\n') == 1 by { assert FirstIndex("\n", '\n') == 0; assert "3\n"[1..] == "\n"; }
    assert "3\n"[..1] == "3" && "3\n"[2..] == "";
    assert Split("3\n", '\n') == ["3", ""];
    assert Strip("3") == "3" by { StripTrimmed("3"); }
    assert NonBlankLines("3\n") == ["3"];
    assert ParseInt("3") == Some(3) by { ParseIntToString(3); assert IntToString(3) == "3"; }
  }
}
