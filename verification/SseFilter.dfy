/**
 Filtering the body of an anonymous `tools/list` response: as one JSON text when it parses, and
 otherwise line by line as a server-sent event stream, where only `data: ` lines that parse change.
 */
module SseFilter {
  import opened Wrappers
  import opened Json
  import opened McpAcl
  import opened Splitting
  import opened ToolsFilter

  const NEWLINE: byte := 10
  const RETURN: byte := 13

  /** The bytes of "data: ". */
  const DATA: Bytes := [100, 97, 116, 97, 58, 32]

  predicate IsData(line: Bytes) {
    DATA <= line
  }

  /**
   What is assumed of the JSON codec: printed text parses back and has no line end, and a text
   with a line that starts with `data: ` is not JSON (a line break is never inside a JSON string).
   */
  ghost predicate Lawful(c: Codec) {
    && (forall v, text | c.print_(v) == Some(text) :: c.parse(text) == Some(v) && NEWLINE !in text && RETURN !in text)
    && (forall body, line | line in Split(body, NEWLINE) && IsData(line) :: c.parse(body) == None)
  }

  /** A line that is rewritten: it carries an event that parses and prints. */
  predicate Rewritten(c: Codec, p: AnonymousMCPPolicy, line: Bytes) {
    && IsData(line)
    && c.parse(line[|DATA|..]).Some?
    && c.print_(Filter(p, c.parse(line[|DATA|..]).value)).Some?
  }

  function FilterLine(c: Codec, p: AnonymousMCPPolicy, line: Bytes): Bytes {
    if Rewritten(c, p, line) then DATA + c.print_(Filter(p, c.parse(line[|DATA|..]).value)).value else line
  }

  function FilterLines(c: Codec, p: AnonymousMCPPolicy, lines: seq<Bytes>): seq<Bytes> {
    seq(|lines|, i requires 0 <= i < |lines| => FilterLine(c, p, lines[i]))
  }

  function FilterBody(c: Codec, p: AnonymousMCPPolicy, body: Bytes): Bytes {
    match c.parse(body)
    case Some(v) => (match c.print_(Filter(p, v)) case Some(text) => text case None => body)
    case None => Join(FilterLines(c, p, Split(body, NEWLINE)), NEWLINE)
  }

  /** The rewriter as it runs, overwriting the lines in place. */
  method FilterToolsListBody(c: Codec, p: AnonymousMCPPolicy, body: Bytes) returns (r: Bytes)
    ensures r == FilterBody(c, p, body)
    ensures Lawful(c) && c.parse(body).Some? && c.print_(Filter(p, c.parse(body).value)).Some? ==>
              c.parse(r) == Some(Filter(p, c.parse(body).value))
    ensures c.parse(body).Some? && c.print_(Filter(p, c.parse(body).value)).None? ==> r == body
  {
    var value := c.parse(body);
    if value.Some? {
      var filtered := FilterJSON(p, value.value);
      var text := c.print_(filtered);
      return if text.Some? then text.value else body;
    }
    ghost var was := Split(body, NEWLINE);
    var pieces := Split(body, NEWLINE);
    var lines := new Bytes[|pieces|](i requires 0 <= i < |pieces| => pieces[i]);
    for i := 0 to lines.Length
      invariant forall j | 0 <= j < i :: lines[j] == FilterLine(c, p, was[j])
      invariant forall j | i <= j < lines.Length :: lines[j] == was[j]
    {
      var line := lines[i];
      if DATA <= line {
        var event := c.parse(line[|DATA|..]);
        if event.Some? {
          var filtered := FilterJSON(p, event.value);
          var text := c.print_(filtered);
          if text.Some? {
            lines[i] := DATA + text.value;
          }
        }
      }
    }
    assert lines[..] == FilterLines(c, p, was);
    return Join(lines[..], NEWLINE);
  }

  // ----- What a JSON response becomes -----

  /** A JSON body stays JSON and parses to exactly the filtered tree; if that cannot be printed, the body stays. */
  lemma JsonBodyFiltered(c: Codec, p: AnonymousMCPPolicy, body: Bytes, v: Value)
    requires Lawful(c) && c.parse(body) == Some(v)
    ensures c.print_(Filter(p, v)).Some? ==> c.parse(FilterBody(c, p, body)) == Some(Filter(p, v))
    ensures c.print_(Filter(p, v)).None? ==> FilterBody(c, p, body) == body
  {
  }

  // ----- What the stream becomes -----

  lemma FilteredLinesFree(c: Codec, p: AnonymousMCPPolicy, lines: seq<Bytes>)
    requires Lawful(c) && Free(lines, NEWLINE)
    ensures Free(FilterLines(c, p, lines), NEWLINE)
  {
    forall line | line in lines
      ensures NEWLINE !in FilterLine(c, p, line)
    {
    }
    var out := FilterLines(c, p, lines);
    forall l | l in out
      ensures NEWLINE !in l
    {
      var i :| 0 <= i < |out| && out[i] == l;
      assert lines[i] in lines;
    }
  }

  /**
   A stream keeps its lines: their number and order stay, a line that is no `data: ` line or does not
   parse stays byte for byte, and every other line carries exactly the filtered event.
   */
  lemma StreamLineByLine(c: Codec, p: AnonymousMCPPolicy, body: Bytes)
    requires Lawful(c) && c.parse(body).None?
    ensures var before, after := Split(body, NEWLINE), Split(FilterBody(c, p, body), NEWLINE);
            && |after| == |before|
            && (forall i | 0 <= i < |before| :: !Rewritten(c, p, before[i]) ==> after[i] == before[i])
            && (forall i | 0 <= i < |before| && Rewritten(c, p, before[i]) ::
                  && IsData(after[i])
                  && c.parse(after[i][|DATA|..]) == Some(Filter(p, c.parse(before[i][|DATA|..]).value)))
  {
    var before := Split(body, NEWLINE);
    SplitFree(body, NEWLINE);
    FilteredLinesFree(c, p, before);
    SplitOfJoin(FilterLines(c, p, before), NEWLINE);
    forall i | 0 <= i < |before| && Rewritten(c, p, before[i])
      ensures var after := FilterLine(c, p, before[i]);
              IsData(after) && c.parse(after[|DATA|..]) == Some(Filter(p, c.parse(before[i][|DATA|..]).value))
    {
      var text := c.print_(Filter(p, c.parse(before[i][|DATA|..]).value)).value;
      assert (DATA + text)[|DATA|..] == text;
    }
  }

  /** The same, in bytes: a line is rewritten exactly when it is `data: ` and a JSON text, and lines end at byte 10. */
  lemma StreamInBytes(c: Codec, p: AnonymousMCPPolicy, body: Bytes, i: nat, text: Bytes)
    requires Lawful(c) && c.parse(body).None? && i < |Split(body, 10)|
    requires Split(body, 10)[i] == [100, 97, 116, 97, 58, 32] + text
    ensures i < |Split(FilterBody(c, p, body), 10)|
    ensures
      var line, after := Split(body, 10)[i], Split(FilterBody(c, p, body), 10)[i];
      if c.parse(text).Some? && c.print_(Filter(p, c.parse(text).value)).Some? then
        after == [100, 97, 116, 97, 58, 32] + c.print_(Filter(p, c.parse(text).value)).value
      else after == line
  {
    var before := Split(body, NEWLINE);
    SplitFree(body, NEWLINE);
    FilteredLinesFree(c, p, before);
    SplitOfJoin(FilterLines(c, p, before), NEWLINE);
    assert before[i] == DATA + text && before[i][|DATA|..] == text;
  }

  lemma DataPrefix(line: Bytes)
    ensures IsData(line) <==> exists text :: line == [100, 97, 116, 97, 58, 32] + text
  {
    if IsData(line) {
      assert line == DATA + line[|DATA|..];
    }
  }

  /** A line without the prefix is never touched. */
  lemma OtherLinesInBytes(c: Codec, p: AnonymousMCPPolicy, body: Bytes, i: nat)
    requires Lawful(c) && c.parse(body).None? && i < |Split(body, 10)|
    requires forall text :: Split(body, 10)[i] != [100, 97, 116, 97, 58, 32] + text
    ensures |Split(FilterBody(c, p, body), 10)| == |Split(body, 10)|
    ensures Split(FilterBody(c, p, body), 10)[i] == Split(body, 10)[i]
  {
    DataPrefix(Split(body, 10)[i]);
    StreamLineByLine(c, p, body);
  }

  lemma FilterLineTwice(c: Codec, p: AnonymousMCPPolicy, line: Bytes)
    requires Lawful(c)
    ensures FilterLine(c, p, FilterLine(c, p, line)) == FilterLine(c, p, line)
  {
    if Rewritten(c, p, line) {
      var v := Filter(p, c.parse(line[|DATA|..]).value);
      var text := c.print_(v).value;
      assert (DATA + text)[|DATA|..] == text;
      FilterIdempotent(p, c.parse(line[|DATA|..]).value);
    }
  }

  /** A rewritten stream never turns into a JSON text. */
  lemma StreamStaysStream(c: Codec, p: AnonymousMCPPolicy, body: Bytes)
    requires Lawful(c) && c.parse(body).None?
    ensures c.parse(FilterBody(c, p, body)).None?
  {
    var before := Split(body, NEWLINE);
    var out := FilterBody(c, p, body);
    if i :| 0 <= i < |before| && Rewritten(c, p, before[i]) {
      StreamLineByLine(c, p, body);
      assert Split(out, NEWLINE)[i] in Split(out, NEWLINE);
    } else {
      assert FilterLines(c, p, before) == before;
      JoinOfSplit(body, NEWLINE);
    }
  }

  /** Filtering the whole body again changes nothing, whichever of the two ways it was filtered. */
  lemma BodyIdempotent(c: Codec, p: AnonymousMCPPolicy, body: Bytes)
    requires Lawful(c)
    ensures FilterBody(c, p, FilterBody(c, p, body)) == FilterBody(c, p, body)
  {
    match c.parse(body)
    case Some(v) =>
      FilterIdempotent(p, v);
    case None =>
      var before := Split(body, NEWLINE);
      var once := FilterLines(c, p, before);
      StreamStaysStream(c, p, body);
      SplitFree(body, NEWLINE);
      FilteredLinesFree(c, p, before);
      SplitOfJoin(once, NEWLINE);
      forall i | 0 <= i < |before|
        ensures FilterLine(c, p, once[i]) == once[i]
      {
        FilterLineTwice(c, p, before[i]);
      }
      assert FilterLines(c, p, once) == once;
  }

  /** A body with nothing to filter goes through byte for byte. */
  lemma StreamWithoutEventsUntouched(c: Codec, p: AnonymousMCPPolicy, body: Bytes)
    requires c.parse(body).None?
    requires forall line | line in Split(body, NEWLINE) :: !Rewritten(c, p, line)
    ensures FilterBody(c, p, body) == body
  {
    var before := Split(body, NEWLINE);
    assert FilterLines(c, p, before) == before;
    JoinOfSplit(body, NEWLINE);
  }

  /** A value that stands in a body by itself: the whole body, or the rest of one `data: ` line. */
  predicate Delivers(c: Codec, body: Bytes, v: Value) {
    if c.parse(body).Some? then c.parse(body) == Some(v)
    else exists line | line in Split(body, NEWLINE) :: IsData(line) && c.parse(line[|DATA|..]) == Some(v)
  }

  /** Every tree that comes from a JSON text can be printed once filtered. */
  ghost predicate Prints(c: Codec, p: AnonymousMCPPolicy) {
    forall text | c.parse(text).Some? :: c.print_(Filter(p, c.parse(text).value)).Some?
  }

  /** A filtered body that is one JSON text lists public tools only, and so does each `data: ` line by itself. */
  lemma OnlyPublicToolsDelivered(c: Codec, p: AnonymousMCPPolicy, body: Bytes, v: Value, path: seq<Step>, tool: Value)
    requires Lawful(c) && Prints(c, p)
    requires Delivers(c, FilterBody(c, p, body), v)
    requires ToTools(v, path) && At(v, path).Some? && At(v, path).value.Arr? && tool in At(v, path).value.items
    ensures PublicTool(p, tool)
  {
    var w := DeliveredFrom(c, p, body, v);
    NoHiddenTool(p, w, path, tool);
  }

  lemma DeliveredFrom(c: Codec, p: AnonymousMCPPolicy, body: Bytes, v: Value) returns (w: Value)
    requires Lawful(c) && Prints(c, p)
    requires Delivers(c, FilterBody(c, p, body), v)
    ensures v == Filter(p, w) && Delivers(c, body, w)
  {
    var out := FilterBody(c, p, body);
    match c.parse(body)
    case Some(u) =>
      w := u;
    case None =>
      StreamStaysStream(c, p, body);
      StreamLineByLine(c, p, body);
      var before, after := Split(body, NEWLINE), Split(out, NEWLINE);
      var line :| line in after && IsData(line) && c.parse(line[|DATA|..]) == Some(v);
      var i :| 0 <= i < |after| && after[i] == line;
      assert Rewritten(c, p, before[i]);
      assert before[i] in before;
      w := c.parse(before[i][|DATA|..]).value;
  }

  // ----- Single data lines -----

  /** The bytes of "data:". In an event stream the space after the colon may be missing. */
  const FIELD: Bytes := [100, 97, 116, 97, 58]

  /** The value of a data field: what follows the colon, without one leading space; empty without a colon. */
  function Payload(line: Bytes): Option<Bytes> {
    if IsData(line) then Some(line[|DATA|..])
    else if FIELD <= line then Some(line[|FIELD|..])
    else if line == FIELD[..4] then Some([])
    else None
  }

  /** A data line that the filter does not look at. */
  predicate Unspaced(line: Bytes) {
    Payload(line).Some? && !IsData(line)
  }

  predicate Lists(v: Value, path: seq<Step>, tool: Value) {
    ToTools(v, path) && At(v, path).Some? && At(v, path).value.Arr? && tool in At(v, path).value.items
  }

  /** The text parses, and a list of tools in it has `tool`. */
  ghost predicate ShowsTool(c: Codec, text: Bytes, tool: Value) {
    c.parse(text).Some? && exists path :: Lists(c.parse(text).value, path, tool)
  }

  ghost predicate LineShows(c: Codec, line: Bytes, tool: Value) {
    Payload(line).Some? && ShowsTool(c, Payload(line).value, tool)
  }

  /** What the filter prints never shows a tool that is not public. */
  lemma FilteredShowsNothing(c: Codec, p: AnonymousMCPPolicy, text: Bytes, v: Value, tool: Value)
    requires c.parse(text) == Some(Filter(p, v)) && !PublicTool(p, tool)
    ensures !ShowsTool(c, text, tool)
  {
    forall path
      ensures !Lists(Filter(p, v), path, tool)
    {
      if ToTools(Filter(p, v), path) {
        NoHiddenTool(p, v, path, tool);
      }
    }
  }

  /** By itself, a line of the filtered stream shows a non-public tool exactly when it did before and has no space. */
  lemma LineShowsIff(c: Codec, p: AnonymousMCPPolicy, line: Bytes, tool: Value)
    requires Lawful(c) && Prints(c, p) && !PublicTool(p, tool)
    ensures LineShows(c, FilterLine(c, p, line), tool) <==> Unspaced(line) && LineShows(c, line, tool)
  {
    if IsData(line) && c.parse(line[|DATA|..]).Some? {
      var v := c.parse(line[|DATA|..]).value;
      var text := c.print_(Filter(p, v)).value;
      assert (DATA + text)[|DATA|..] == text;
      FilteredShowsNothing(c, p, text, v, tool);
    }
    hide ShowsTool;
  }
}
