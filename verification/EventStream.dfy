/**
 Event streams as clients read them: a byte order mark is dropped, lines end at CR, LF or CRLF, the
 data lines of an event are joined, and a blank line sends the event off. The filter works on other
 lines than these, and this module says exactly what the difference lets through.
 */
module EventStream {
  import opened Wrappers
  import opened Json
  import opened McpAcl
  import opened Splitting
  import opened ToolsFilter
  import opened SseFilter

  /** The UTF-8 byte order mark. */
  const BOM: Bytes := [239, 187, 191]

  /** The text with every CRLF and every other CR turned into LF. */
  function Ended(b: Bytes): Bytes {
    if |b| == 0 then []
    else if b[0] == RETURN then [NEWLINE] + Ended(if |b| > 1 && b[1] == NEWLINE then b[2..] else b[1..])
    else [b[0]] + Ended(b[1..])
  }

  /** The lines that have ended; text after the last line end is no line yet. */
  function Lines(b: Bytes): seq<Bytes> {
    var ls := Split(Ended(b), NEWLINE);
    ls[..|ls| - 1]
  }

  function ClientLines(b: Bytes): seq<Bytes> {
    Lines(if BOM <= b then b[|BOM|..] else b)
  }

  /** A line, or the value of a data line; `filtered` marks what the filter has rewritten. */
  datatype Line = Line(text: Bytes, filtered: bool)

  function Plain(lines: seq<Bytes>): seq<Line> {
    seq(|lines|, i requires 0 <= i < |lines| => Line(lines[i], false))
  }

  function Texts(lines: seq<Line>): seq<Bytes> {
    seq(|lines|, i requires 0 <= i < |lines| => lines[i].text)
  }

  /** The events of a stream, each as the values of its data lines. `buffer` holds those of the event under way. */
  function Events(lines: seq<Line>, buffer: seq<Line>): seq<seq<Line>>
    decreases |lines|
  {
    if |lines| == 0 then []
    else if lines[0].text == [] then (if |buffer| == 0 then [] else [buffer]) + Events(lines[1..], [])
    else match Payload(lines[0].text)
      case Some(value) => Events(lines[1..], buffer + [Line(value, lines[0].filtered)])
      case None => Events(lines[1..], buffer)
  }

  /** The data of an event. */
  function Data(event: seq<Line>): Bytes {
    Join(Texts(event), NEWLINE)
  }

  /** A client of the stream `body` is sent an event that lists `tool`. */
  ghost predicate ClientSees(c: Codec, body: Bytes, tool: Value) {
    exists e | e in Events(Plain(ClientLines(body)), []) :: ShowsTool(c, Data(e), tool)
  }

  // ----- The lines of the filtered stream -----

  predicate EndsWithReturn(piece: Bytes) {
    |piece| > 0 && piece[|piece| - 1] == RETURN
  }

  /** The client's lines that end in a piece between two LF; the LF after a CR ends no line of its own. */
  function PieceLines(piece: Bytes, last: bool): seq<Bytes> {
    var ls := Split(Ended(piece), NEWLINE);
    if last || EndsWithReturn(piece) then ls[..|ls| - 1] else ls
  }

  /** The client's lines that end in a filtered piece: a rewritten piece is one line. */
  function FilteredPiece(c: Codec, p: AnonymousMCPPolicy, piece: Bytes, last: bool): seq<Line> {
    if !Rewritten(c, p, piece) then Plain(PieceLines(piece, last))
    else if last then [] else [Line(FilterLine(c, p, piece), true)]
  }

  function FilteredPieces(c: Codec, p: AnonymousMCPPolicy, pieces: seq<Bytes>): seq<Line>
    decreases |pieces|
  {
    if |pieces| == 0 then []
    else FilteredPiece(c, p, pieces[0], |pieces| == 1) + FilteredPieces(c, p, pieces[1..])
  }

  /** The client's lines of the filtered stream, worked out from the stream before. A mark hides the first line. */
  function FilteredLines(c: Codec, p: AnonymousMCPPolicy, body: Bytes): seq<Line> {
    if BOM <= body then
      var pieces := Split(body[|BOM|..], NEWLINE);
      Plain(PieceLines(pieces[0], |pieces| == 1)) + FilteredPieces(c, p, pieces[1..])
    else FilteredPieces(c, p, Split(body, NEWLINE))
  }

  lemma EndedStep(b: byte, rest: Bytes)
    ensures b != RETURN ==> Ended([b] + rest) == [b] + Ended(rest)
    ensures b == RETURN && (|rest| == 0 || rest[0] != NEWLINE) ==> Ended([b] + rest) == [NEWLINE] + Ended(rest)
    ensures b == RETURN && |rest| > 0 && rest[0] == NEWLINE ==> Ended([b] + rest) == [NEWLINE] + Ended(rest[1..])
  {
    assert ([b] + rest)[1..] == rest;
    if |rest| > 0 {
      assert ([b] + rest)[2..] == rest[1..];
    }
  }

  /** An LF ends a line, unless it belongs to the CR before it. */
  lemma {:induction false} EndedAt(a: Bytes, rest: Bytes)
    requires NEWLINE !in a
    ensures Ended(a + [NEWLINE] + rest) == (if EndsWithReturn(a) then Ended(a) else Ended(a) + [NEWLINE]) + Ended(rest)
    decreases |a|
  {
    hide Ended;
    var s := a + [NEWLINE] + rest;
    if |a| == 0 {
      assert s == [NEWLINE] + rest;
      EndedStep(NEWLINE, rest);
      assert Ended(a) == [] by { EndedEmpty(); }
    } else {
      var front := a[1..];
      assert s == [a[0]] + (front + [NEWLINE] + rest) && a == [a[0]] + front;
      EndedStep(a[0], front + [NEWLINE] + rest);
      EndedStep(a[0], front);
      if |front| == 0 {
        assert front + [NEWLINE] + rest == [NEWLINE] + rest;
        EndedStep(NEWLINE, rest);
        EndedEmpty();
      } else {
        assert (front + [NEWLINE] + rest)[0] == front[0] && front[0] in a;
        EndedAt(front, rest);
      }
    }
  }

  lemma EndedEmpty()
    ensures Ended([]) == []
  {
  }

  lemma {:induction false} EndedReturn(q: Bytes)
    requires NEWLINE !in q
    ensures Ended(q + [RETURN]) == Ended(q) + [NEWLINE]
    decreases |q|
  {
    var s := q + [RETURN];
    if |q| == 0 {
      assert s[1..] == [];
    } else {
      assert s[1..] == q[1..] + [RETURN];
      EndedReturn(q[1..]);
    }
  }

  lemma {:induction false} EndedSame(t: Bytes)
    requires RETURN !in t
    ensures Ended(t) == t
    decreases |t|
  {
    if |t| > 0 {
      EndedSame(t[1..]);
      assert [t[0]] + t[1..] == t;
    }
  }

  lemma DropLast(head: seq<Bytes>, tail: seq<Bytes>)
    requires |tail| > 0
    ensures (head + tail)[..|head + tail| - 1] == head + tail[..|tail| - 1]
  {
  }

  /** A piece that ends with CR: its lines end there. */
  lemma LinesAtReturn(q: Bytes, rest: Bytes)
    requires NEWLINE !in q
    ensures Lines(q + [RETURN] + [NEWLINE] + rest) == PieceLines(q + [RETURN], false) + Lines(rest)
  {
    hide Ended;
    EndedAt(q + [RETURN], rest);
    EndedReturn(q);
    var head, tail := Split(Ended(q), NEWLINE), Split(Ended(rest), NEWLINE);
    SplitConcat(Ended(q), Ended(rest), NEWLINE);
    SplitConcat(Ended(q), [], NEWLINE);
    assert Ended(q) + [NEWLINE] + [] == Ended(q + [RETURN]);
    assert Split([], NEWLINE) == [[]];
    DropLast(head, tail);
    DropLast(head, [[]]);
  }

  /** The client's lines, piece by piece. */
  lemma LinesAt(piece: Bytes, rest: Bytes)
    requires NEWLINE !in piece
    ensures Lines(piece + [NEWLINE] + rest) == PieceLines(piece, false) + Lines(rest)
  {
    hide Ended;
    if EndsWithReturn(piece) {
      assert piece == piece[..|piece| - 1] + [RETURN];
      LinesAtReturn(piece[..|piece| - 1], rest);
    } else {
      EndedAt(piece, rest);
      SplitConcat(Ended(piece), Ended(rest), NEWLINE);
      DropLast(Split(Ended(piece), NEWLINE), Split(Ended(rest), NEWLINE));
    }
  }

  /** Text without a line end is one line. */
  lemma OneLine(line: Bytes)
    requires NEWLINE !in line && RETURN !in line
    ensures PieceLines(line, true) == [] && PieceLines(line, false) == [line]
  {
    EndedSame(line);
    SplitFirst(line, [], NEWLINE);
  }

  /** A rewritten piece has no line end inside. */
  lemma RewrittenPiece(c: Codec, p: AnonymousMCPPolicy, piece: Bytes)
    requires Lawful(c) && Rewritten(c, p, piece)
    ensures var line := FilterLine(c, p, piece); NEWLINE !in line && RETURN !in line
  {
    var text := c.print_(Filter(p, c.parse(piece[|DATA|..]).value)).value;
    assert NEWLINE !in DATA && RETURN !in DATA && NEWLINE !in text && RETURN !in text;
  }

  lemma TextsOfPlain(lines: seq<Bytes>)
    ensures Texts(Plain(lines)) == lines
  {
  }

  lemma TextsConcat(a: seq<Line>, b: seq<Line>)
    ensures Texts(a + b) == Texts(a) + Texts(b)
  {
  }

  lemma FilteredPieceTexts(c: Codec, p: AnonymousMCPPolicy, piece: Bytes, last: bool)
    requires Lawful(c) && NEWLINE !in piece
    ensures NEWLINE !in FilterLine(c, p, piece)
    ensures Texts(FilteredPiece(c, p, piece, last)) == PieceLines(FilterLine(c, p, piece), last)
  {
    if Rewritten(c, p, piece) {
      RewrittenPiece(c, p, piece);
      OneLine(FilterLine(c, p, piece));
    } else {
      TextsOfPlain(PieceLines(piece, last));
    }
  }

  lemma {:induction false} FilteredPiecesTexts(c: Codec, p: AnonymousMCPPolicy, pieces: seq<Bytes>)
    requires Lawful(c) && |pieces| > 0 && Free(pieces, NEWLINE)
    ensures Texts(FilteredPieces(c, p, pieces)) == Lines(Join(SseFilter.FilterLines(c, p, pieces), NEWLINE))
    decreases |pieces|
  {
    hide Rewritten, Lawful, FilterLine, PieceLines, Ended;
    var out, rest := SseFilter.FilterLines(c, p, pieces), pieces[1..];
    assert pieces[0] in pieces;
    FilteredPieceTexts(c, p, pieces[0], |pieces| == 1);
    TextsConcat(FilteredPiece(c, p, pieces[0], |pieces| == 1), FilteredPieces(c, p, rest));
    if |pieces| == 1 {
      assert out == [FilterLine(c, p, pieces[0])];
      LastPiece(out[0]);
    } else {
      assert forall q | q in rest :: q in pieces;
      FilteredPiecesTexts(c, p, rest);
      assert out == [FilterLine(c, p, pieces[0])] + SseFilter.FilterLines(c, p, rest);
      assert out[1..] == SseFilter.FilterLines(c, p, rest);
      LinesAt(out[0], Join(out[1..], NEWLINE));
    }
  }

  lemma LastPiece(piece: Bytes)
    ensures Lines(piece) == PieceLines(piece, true)
  {
  }

  /** A byte order mark in front keeps the first piece from being filtered, and nothing else. */
  lemma MarkedStream(c: Codec, p: AnonymousMCPPolicy, body: Bytes)
    requires Lawful(c) && c.parse(body).None? && BOM <= body
    ensures
      var pieces := Split(body[|BOM|..], NEWLINE);
      FilterBody(c, p, body) == BOM + Join([pieces[0]] + SseFilter.FilterLines(c, p, pieces[1..]), NEWLINE)
  {
    var rest := body[|BOM|..];
    var pieces := Split(rest, NEWLINE);
    assert body == BOM + rest;
    SplitPrepend(BOM, rest, NEWLINE);
    var first := BOM + pieces[0];
    assert first[0] == 239 && !IsData(first);
    var out := SseFilter.FilterLines(c, p, Split(body, NEWLINE));
    assert out == [first] + SseFilter.FilterLines(c, p, pieces[1..]);
    JoinPrepend(BOM, pieces[0], SseFilter.FilterLines(c, p, pieces[1..]), NEWLINE);
  }

  lemma MarkInFirstPiece(b: Bytes)
    ensures BOM <= b <==> BOM <= Split(b, NEWLINE)[0]
  {
    var pieces := Split(b, NEWLINE);
    JoinOfSplit(b, NEWLINE);
    JoinCons(pieces[0], pieces[1..], NEWLINE);
    assert [pieces[0]] + pieces[1..] == pieces;
    if BOM <= b {
      assert b == BOM + b[|BOM|..];
      SplitPrepend(BOM, b[|BOM|..], NEWLINE);
    }
  }

  /** The filter puts no byte order mark in front, and takes none away. */
  lemma MarkKept(c: Codec, p: AnonymousMCPPolicy, body: Bytes)
    requires Lawful(c) && c.parse(body).None?
    ensures BOM <= FilterBody(c, p, body) <==> BOM <= body
  {
    var before := Split(body, NEWLINE);
    SplitFree(body, NEWLINE);
    FilteredLinesFree(c, p, before);
    SplitOfJoin(SseFilter.FilterLines(c, p, before), NEWLINE);
    MarkInFirstPiece(body);
    MarkInFirstPiece(FilterBody(c, p, body));
    assert IsData(before[0]) ==> before[0][0] == 100;
    assert Rewritten(c, p, before[0]) ==> FilterLine(c, p, before[0])[0] == 100;
  }

  /** The lines that a client of the filtered stream reads, worked out from the stream before filtering. */
  lemma ClientLinesOfFiltered(c: Codec, p: AnonymousMCPPolicy, body: Bytes)
    requires Lawful(c) && c.parse(body).None?
    ensures ClientLines(FilterBody(c, p, body)) == Texts(FilteredLines(c, p, body))
  {
    if BOM <= body {
      MarkedStream(c, p, body);
      var pieces := Split(body[|BOM|..], NEWLINE);
      SplitFree(body[|BOM|..], NEWLINE);
      MarkedLines(c, p, pieces);
      var text := Join([pieces[0]] + SseFilter.FilterLines(c, p, pieces[1..]), NEWLINE);
      assert (BOM + text)[|BOM|..] == text;
    } else {
      MarkKept(c, p, body);
      SplitFree(body, NEWLINE);
      FilteredPiecesTexts(c, p, Split(body, NEWLINE));
    }
  }

  lemma MarkedLines(c: Codec, p: AnonymousMCPPolicy, pieces: seq<Bytes>)
    requires Lawful(c) && |pieces| > 0 && Free(pieces, NEWLINE)
    ensures Lines(Join([pieces[0]] + SseFilter.FilterLines(c, p, pieces[1..]), NEWLINE)) ==
            Texts(Plain(PieceLines(pieces[0], |pieces| == 1)) + FilteredPieces(c, p, pieces[1..]))
  {
    hide Rewritten, Lawful, FilterLine, PieceLines, Lines;
    var rest := pieces[1..];
    var first := PieceLines(pieces[0], |pieces| == 1);
    var out := SseFilter.FilterLines(c, p, rest);
    TextsConcat(Plain(first), FilteredPieces(c, p, rest));
    TextsOfPlain(first);
    JoinCons(pieces[0], out, NEWLINE);
    if |pieces| == 1 {
      LastPiece(pieces[0]);
    } else {
      assert forall q | q in rest :: q in pieces;
      assert pieces[0] in pieces;
      FilteredPiecesTexts(c, p, rest);
      LinesAt(pieces[0], Join(out, NEWLINE));
      assert pieces[0] + [NEWLINE] + Join(out, NEWLINE) == pieces[0] + ([NEWLINE] + Join(out, NEWLINE));
    }
  }

  // ----- What clients see -----

  function Untagged(events: seq<seq<Line>>): seq<seq<Bytes>> {
    seq(|events|, i requires 0 <= i < |events| => Texts(events[i]))
  }

  /** Marking lines does not change the events. */
  lemma {:induction false} MarksDoNotMatter(lines: seq<Line>, other: seq<Line>, buffer: seq<Line>, other': seq<Line>)
    requires Texts(lines) == Texts(other) && Texts(buffer) == Texts(other')
    ensures Untagged(Events(lines, buffer)) == Untagged(Events(other, other'))
    decreases |lines|
  {
    assert |lines| == |Texts(lines)| == |other| && |buffer| == |Texts(buffer)| == |other'|;
    if |lines| > 0 {
      assert Texts(lines)[0] == Texts(other)[0];
      assert Texts(lines[1..]) == Texts(lines)[1..] == Texts(other)[1..] == Texts(other[1..]);
      if lines[0].text == [] {
        MarksDoNotMatter(lines[1..], other[1..], [], []);
        UntaggedConcat(if |buffer| == 0 then [] else [buffer], Events(lines[1..], []));
        UntaggedConcat(if |buffer| == 0 then [] else [other'], Events(other[1..], []));
      } else {
        match Payload(lines[0].text)
        case Some(value) =>
          TextsConcat(buffer, [Line(value, lines[0].filtered)]);
          TextsConcat(other', [Line(value, other[0].filtered)]);
          MarksDoNotMatter(lines[1..], other[1..], buffer + [Line(value, lines[0].filtered)], other' + [Line(value,
              other[0].filtered)]);
        case None =>
          MarksDoNotMatter(lines[1..], other[1..], buffer, other');
      }
    }
  }

  lemma UntaggedConcat(a: seq<seq<Line>>, b: seq<seq<Line>>)
    ensures Untagged(a + b) == Untagged(a) + Untagged(b)
  {
  }

  ghost predicate SomeEventShows(c: Codec, events: seq<seq<Line>>, tool: Value) {
    exists e | e in events :: ShowsTool(c, Data(e), tool)
  }

  lemma SameDataShow(c: Codec, a: seq<seq<Line>>, b: seq<seq<Line>>, tool: Value)
    requires Untagged(a) == Untagged(b)
    ensures SomeEventShows(c, a, tool) ==> SomeEventShows(c, b, tool)
  {
    if SomeEventShows(c, a, tool) {
      var e :| e in a && ShowsTool(c, Data(e), tool);
      var i :| 0 <= i < |a| && a[i] == e;
      assert Untagged(a)[i] == Untagged(b)[i];
      assert |a| == |Untagged(a)| == |Untagged(b)| == |b|;
      assert b[i] in b && Data(b[i]) == Data(e);
    }
  }

  /** The event is carried by one line, and the filter wrote that line. */
  predicate Covered(event: seq<Line>) {
    |event| == 1 && event[0].filtered
  }

  /** What the filter wrote, on a line or as the value of a data line. */
  ghost predicate FilterWrote(c: Codec, p: AnonymousMCPPolicy, value: Bytes) {
    exists v :: c.parse(value) == Some(Filter(p, v))
  }

  ghost predicate WellMarked(c: Codec, p: AnonymousMCPPolicy, lines: seq<Line>) {
    forall l | l in lines && l.filtered :: Payload(l.text).Some? && FilterWrote(c, p, Payload(l.text).value)
  }

  lemma PieceWellMarked(c: Codec, p: AnonymousMCPPolicy, piece: Bytes, last: bool)
    requires Lawful(c)
    ensures WellMarked(c, p, FilteredPiece(c, p, piece, last))
  {
    if Rewritten(c, p, piece) {
      var v := c.parse(piece[|DATA|..]).value;
      var text := c.print_(Filter(p, v)).value;
      assert (DATA + text)[|DATA|..] == text;
      assert c.parse(text) == Some(Filter(p, v));
    }
  }

  lemma {:induction false} PiecesWellMarked(c: Codec, p: AnonymousMCPPolicy, pieces: seq<Bytes>)
    requires Lawful(c)
    ensures WellMarked(c, p, FilteredPieces(c, p, pieces))
    decreases |pieces|
  {
    hide Lawful, FilteredPiece, FilterWrote;
    if |pieces| > 0 {
      PieceWellMarked(c, p, pieces[0], |pieces| == 1);
      PiecesWellMarked(c, p, pieces[1..]);
    }
  }

  /** The filtered values of events are what the filter wrote. */
  lemma {:induction false} EventsWellMarked(c: Codec, p: AnonymousMCPPolicy, lines: seq<Line>, buffer: seq<Line>)
    requires WellMarked(c, p, lines)
    requires forall l | l in buffer && l.filtered :: FilterWrote(c, p, l.text)
    ensures forall e, l | e in Events(lines, buffer) && l in e && l.filtered :: FilterWrote(c, p, l.text)
    decreases |lines|
  {
    hide FilterWrote;
    if |lines| > 0 {
      assert lines[0] in lines && forall l | l in lines[1..] :: l in lines;
      if lines[0].text == [] {
        EventsWellMarked(c, p, lines[1..], []);
      } else {
        match Payload(lines[0].text)
        case Some(value) => EventsWellMarked(c, p, lines[1..], buffer + [Line(value, lines[0].filtered)]);
        case None => EventsWellMarked(c, p, lines[1..], buffer);
      }
    }
  }

  lemma CoveredShowsNothing(c: Codec, p: AnonymousMCPPolicy, event: seq<Line>, tool: Value)
    requires Covered(event) && FilterWrote(c, p, event[0].text) && !PublicTool(p, tool)
    ensures !ShowsTool(c, Data(event), tool)
  {
    var v :| c.parse(event[0].text) == Some(Filter(p, v));
    assert Data(event) == event[0].text;
    FilteredShowsNothing(c, p, event[0].text, v, tool);
  }

  /**
   A client of the filtered stream sees a tool that is not public exactly when some event shows it
   that is not carried by one rewritten line alone. That family is everything the filter passes over:
   data lines without the space, events spread over several data lines, data lines that a bare CR
   ends, and a first line behind a byte order mark.
   */
  lemma ClientSeesIff(c: Codec, p: AnonymousMCPPolicy, body: Bytes, tool: Value)
    requires Lawful(c) && c.parse(body).None? && !PublicTool(p, tool)
    ensures ClientSees(c, FilterBody(c, p, body), tool) <==>
            exists e | e in Events(FilteredLines(c, p, body), []) :: !Covered(e) && ShowsTool(c, Data(e), tool)
  {
    var lines := FilteredLines(c, p, body);
    var plain := Plain(ClientLines(FilterBody(c, p, body)));
    ClientLinesOfFiltered(c, p, body);
    TextsOfPlain(ClientLines(FilterBody(c, p, body)));
    FilteredWellMarked(c, p, body);
    hide Lawful, FilteredLines, ClientLines, FilterBody, Events, ShowsTool, Data, Untagged, FilterWrote, WellMarked,
         Texts, Plain;
    MarksDoNotMatter(lines, plain, [], []);
    SameDataShow(c, Events(lines, []), Events(plain, []), tool);
    SameDataShow(c, Events(plain, []), Events(lines, []), tool);
    EventsWellMarked(c, p, lines, []);
    forall e | e in Events(lines, []) && Covered(e)
      ensures !ShowsTool(c, Data(e), tool)
    {
      assert e[0] in e;
      CoveredShowsNothing(c, p, e, tool);
    }
  }

  lemma FilteredWellMarked(c: Codec, p: AnonymousMCPPolicy, body: Bytes)
    requires Lawful(c)
    ensures WellMarked(c, p, FilteredLines(c, p, body))
  {
    hide Lawful;
    if BOM <= body {
      PiecesWellMarked(c, p, Split(body[|BOM|..], NEWLINE)[1..]);
    } else {
      PiecesWellMarked(c, p, Split(body, NEWLINE));
    }
  }

  // ----- An event that passes -----

  /** Data lines that the filter leaves alone: without the space, or not JSON by themselves. */
  predicate LeftAlone(c: Codec, p: AnonymousMCPPolicy, lines: seq<Bytes>) {
    forall l | l in lines :: NEWLINE !in l && RETURN !in l && Payload(l).Some? && !Rewritten(c, p, l)
  }

  function Values(lines: seq<Bytes>): seq<Bytes> {
    seq(|lines|, i requires 0 <= i < |lines| => match Payload(lines[i]) case Some(value) => value case None => [])
  }

  lemma EmptyPiece(c: Codec, p: AnonymousMCPPolicy)
    ensures !Rewritten(c, p, [])
  {
  }

  lemma {:induction false} PiecesLeftAlone(c: Codec, p: AnonymousMCPPolicy, lines: seq<Bytes>)
    requires LeftAlone(c, p, lines)
    ensures FilteredPieces(c, p, lines + [[], []]) == Plain(lines + [[]])
    decreases |lines|
  {
    hide PieceLines, Rewritten, Payload;
    var pieces := lines + [[], []];
    EmptyPiece(c, p);
    if |lines| == 0 {
      OneLine([]);
      assert pieces == [[], []] && pieces[1..] == [[]] && pieces[1..][1..] == [];
      assert FilteredPieces(c, p, pieces[1..]) == FilteredPiece(c, p, [], true) + FilteredPieces(c, p, []);
    } else {
      assert lines[0] in lines;
      OneLine(lines[0]);
      assert pieces[1..] == lines[1..] + [[], []] && forall l | l in lines[1..] :: l in lines;
      PiecesLeftAlone(c, p, lines[1..]);
      assert Plain([lines[0]]) + Plain(lines[1..] + [[]]) == Plain(lines + [[]]);
    }
  }

  lemma {:induction false} OneEvent(lines: seq<Bytes>, buffer: seq<Line>)
    requires |lines| + |buffer| > 0 && forall l | l in lines :: Payload(l).Some?
    ensures Events(Plain(lines + [[]]), buffer) == [buffer + Plain(Values(lines))]
    decreases |lines|
  {
    var all := Plain(lines + [[]]);
    if |lines| == 0 {
      assert all[1..] == [] && buffer + Plain(Values(lines)) == buffer;
    } else {
      assert lines[0] in lines && forall l | l in lines[1..] :: l in lines;
      assert all[1..] == Plain(lines[1..] + [[]]) && all[0] == Line(lines[0], false);
      var next := Line(Payload(lines[0]).value, false);
      OneEvent(lines[1..], buffer + [next]);
      assert [next] + Plain(Values(lines[1..])) == Plain(Values(lines));
      assert buffer + [next] + Plain(Values(lines[1..])) == buffer + Plain(Values(lines));
    }
  }

  lemma LinesLeftAlone(c: Codec, p: AnonymousMCPPolicy, lines: seq<Bytes>)
    requires LeftAlone(c, p, lines) && |lines| > 0
    ensures FilteredLines(c, p, Join(lines + [[], []], NEWLINE)) == Plain(lines + [[]])
  {
    hide FilteredPieces, Rewritten;
    var pieces := lines + [[], []];
    assert lines[0] in lines && lines[0][0] == 100 && pieces[0] == lines[0];
    assert Free(pieces, NEWLINE);
    SplitOfJoin(pieces, NEWLINE);
    MarkInFirstPiece(Join(pieces, NEWLINE));
    PiecesLeftAlone(c, p, lines);
  }

  lemma LeftAloneIsData(c: Codec, p: AnonymousMCPPolicy, lines: seq<Bytes>)
    requires LeftAlone(c, p, lines)
    ensures forall l | l in lines :: Payload(l).Some?
  {
    hide Payload, Rewritten;
  }

  lemma PlainEvent(values: seq<Bytes>)
    ensures Data(Plain(values)) == Join(values, NEWLINE) && !Covered(Plain(values))
  {
    TextsOfPlain(values);
  }

  /**
   A stream of one event whose data lines the filter leaves alone: the client sees whatever the event
   shows. One line without the space will do, and so will two lines neither of which parses by itself.
   */
  lemma EventLeftAlone(c: Codec, p: AnonymousMCPPolicy, lines: seq<Bytes>, tool: Value)
    requires Lawful(c) && |lines| > 0 && !PublicTool(p, tool)
    requires LeftAlone(c, p, lines)
    requires c.parse(Join(lines + [[], []], NEWLINE)).None?
    ensures ClientSees(c, FilterBody(c, p, Join(lines + [[], []], NEWLINE)), tool) <==>
            ShowsTool(c, Join(Values(lines), NEWLINE), tool)
  {
    hide *;
    var body, event := Join(lines + [[], []], NEWLINE), Plain(Values(lines));
    LinesLeftAlone(c, p, lines);
    LeftAloneIsData(c, p, lines);
    OneEvent(lines, []);
    assert [] + event == event;
    PlainEvent(Values(lines));
    ClientSeesIff(c, p, body, tool);
    assert event in [event];
  }
}
