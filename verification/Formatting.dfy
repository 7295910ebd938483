/** Greedy packing of lines into messages of bounded size, plain and HTML. */
module Formatting {
  import opened Collections

  const MAX_EVENT_SIZE_FOR_SENDING: nat := 40000

  function Join(parts: seq<string>): string {
    if parts == [] then "" else parts[0] + Join(parts[1..])
  }

  function Flatten(chunks: seq<seq<string>>): seq<string> {
    if chunks == [] then [] else chunks[0] + Flatten(chunks[1..])
  }

  lemma {:induction false} JoinConcat(a: seq<string>, b: seq<string>)
    ensures Join(a + b) == Join(a) + Join(b)
  {
    if a == [] {
      assert a + b == b;
    } else {
      assert (a + b)[1..] == a[1..] + b;
      JoinConcat(a[1..], b);
    }
  }

  /** Adding one part to a list of parts. */
  lemma JoinSnoc(parts: seq<string>, part: string)
    ensures Join(parts + [part]) == Join(parts) + part
  {
    JoinConcat(parts, [part]);
    assert Join([part]) == part + Join([]);
  }

  // ----- the abstract packer

  /** A chunk of lines fits beside `overhead` characters of header and tags. */
  predicate Fits(chunk: seq<string>, overhead: nat) {
    overhead + |Join(chunk)| <= MAX_EVENT_SIZE_FOR_SENDING
  }

  /** The chunks made of an open chunk and the lines still to come. */
  function Pack(open: seq<string>, rest: seq<string>, overhead: nat): seq<seq<string>>
    decreases |rest|
  {
    if rest == [] then [open]
    else if Fits(open + [rest[0]], overhead) then Pack(open + [rest[0]], rest[1..], overhead)
    else [open] + Pack([rest[0]], rest[1..], overhead)
  }

  function Chunks(lines: seq<string>, overhead: nat): seq<seq<string>> {
    if lines == [] then [] else Pack([], lines, overhead)
  }

  /** After the first `i` lines, `done` chunks are closed and `open` is being filled. */
  ghost predicate Packing(done: seq<seq<string>>, open: seq<string>, all: seq<string>, i: nat, overhead: nat)
    requires i <= |all|
  {
    done + Pack(open, all[i..], overhead) == Pack([], all, overhead)
  }

  lemma PackStep(done: seq<seq<string>>, open: seq<string>, all: seq<string>, i: nat, overhead: nat)
    requires i < |all| && Packing(done, open, all, i, overhead)
    ensures if Fits(open + [all[i]], overhead) then Packing(done, open + [all[i]], all, i + 1, overhead)
            else Packing(done + [open], [all[i]], all, i + 1, overhead)
  {
    PackUnfolds(open, all, i, overhead);
    Regroup(done, open, Pack([all[i]], all[i + 1..], overhead));
  }

  lemma Regroup(done: seq<seq<string>>, open: seq<string>, rest: seq<seq<string>>)
    ensures done + ([open] + rest) == done + [open] + rest
  {
  }

  lemma JoinLine(open: seq<string>, line: string, overhead: nat)
    ensures Join([line]) == line && Join(open + [line]) == Join(open) + line
    ensures Fits(open + [line], overhead) <==> overhead + |Join(open)| + |line| <= MAX_EVENT_SIZE_FOR_SENDING
  {
    JoinSnoc([], line);
    JoinSnoc(open, line);
    assert [] + [line] == [line];
  }

  lemma PackUnfolds(open: seq<string>, all: seq<string>, i: nat, overhead: nat)
    requires i < |all|
    ensures Pack(open, all[i..], overhead) ==
            if Fits(open + [all[i]], overhead) then Pack(open + [all[i]], all[i + 1..], overhead)
            else [open] + Pack([all[i]], all[i + 1..], overhead)
  {
    assert all[i..][0] == all[i] && all[i..][1..] == all[i + 1..];
  }

  lemma PackDone(done: seq<seq<string>>, open: seq<string>, all: seq<string>, overhead: nat)
    requires all != [] && Packing(done, open, all, |all|, overhead)
    ensures Chunks(all, overhead) == done + [open]
  {
    assert all[|all|..] == [];
  }

  /** Nothing is lost, added or reordered. */
  lemma {:induction false} PackConserves(open: seq<string>, rest: seq<string>, overhead: nat)
    ensures Flatten(Pack(open, rest, overhead)) == open + rest
    decreases |rest|
  {
    if rest == [] {
      assert [open][1..] == [];
    } else {
      assert open + rest == (open + [rest[0]]) + rest[1..];
      if Fits(open + [rest[0]], overhead) {
        PackConserves(open + [rest[0]], rest[1..], overhead);
      } else {
        PackConserves([rest[0]], rest[1..], overhead);
        assert ([open] + Pack([rest[0]], rest[1..], overhead))[1..] == Pack([rest[0]], rest[1..], overhead);
      }
    }
  }

  /** A chunk is over the limit only if it is one line that does not fit on its own. */
  lemma {:induction false} PackBounds(open: seq<string>, rest: seq<string>, overhead: nat)
    requires Fits(open, overhead) || |open| == 1
    ensures forall c :: c in Pack(open, rest, overhead) ==> Fits(c, overhead) || |c| == 1
    decreases |rest|
  {
    if rest != [] {
      if Fits(open + [rest[0]], overhead) {
        PackBounds(open + [rest[0]], rest[1..], overhead);
      } else {
        PackBounds([rest[0]], rest[1..], overhead);
      }
    }
  }

  lemma {:induction false} LineOfChunk(chunks: seq<seq<string>>, i: nat, line: string)
    requires i < |chunks| && line in chunks[i]
    ensures line in Flatten(chunks)
  {
    if i > 0 {
      LineOfChunk(chunks[1..], i - 1, line);
    }
  }

  lemma {:induction false} ChunkOfLine(chunks: seq<seq<string>>, line: string) returns (i: nat)
    requires line in Flatten(chunks)
    ensures i < |chunks| && line in chunks[i]
  {
    if line in chunks[0] {
      i := 0;
    } else {
      var j := ChunkOfLine(chunks[1..], line);
      i := j + 1;
    }
  }

  lemma {:induction false} PartIsShorter(parts: seq<string>, part: string)
    requires part in parts
    ensures |part| <= |Join(parts)|
  {
    if part != parts[0] {
      PartIsShorter(parts[1..], part);
    }
  }

  /** All chunks are within the limit exactly when every line is, together with the header. */
  lemma ChunksFitIff(lines: seq<string>, overhead: nat)
    ensures (forall c :: c in Chunks(lines, overhead) ==> Fits(c, overhead))
            <==> (forall l :: l in lines ==> Fits([l], overhead))
  {
    if lines != [] && overhead > MAX_EVENT_SIZE_FOR_SENDING {
      assert Chunks(lines, overhead)[0] in Chunks(lines, overhead);
      assert lines[0] in lines;
    } else if lines != [] {
      var chunks := Chunks(lines, overhead);
      PackConserves([], lines, overhead);
      PackBounds([], lines, overhead);
      if forall c :: c in chunks ==> Fits(c, overhead) {
        forall l | l in lines
          ensures Fits([l], overhead)
        {
          assert l in Flatten(chunks);
          var i := ChunkOfLine(chunks, l);
          assert chunks[i] in chunks;
          PartIsShorter(chunks[i], l);
          assert Join([l]) == l + Join([]);
        }
      }
      if forall l :: l in lines ==> Fits([l], overhead) {
        forall c | c in chunks
          ensures Fits(c, overhead)
        {
          if |c| == 1 {
            var i :| 0 <= i < |chunks| && chunks[i] == c;
            LineOfChunk(chunks, i, c[0]);
            assert c == [c[0]];
          }
        }
      }
    }
  }

  /** Greedy stays ahead: no other split of a longer text into fitting chunks is shorter. */
  lemma {:induction false} PackIsShortest(other: seq<seq<string>>, before: seq<string>, open: seq<string>,
                                          rest: seq<string>, overhead: nat)
    requires other != [] && Flatten(other) == before + open + rest
    requires forall c :: c in other ==> Fits(c, overhead)
    ensures |Pack(open, rest, overhead)| <= |other|
    decreases |rest|
  {
    if rest != [] {
      var line, tail := rest[0], rest[1..];
      if Fits(open + [line], overhead) {
        assert before + open + rest == before + (open + [line]) + tail;
        PackIsShortest(other, before, open + [line], tail, overhead);
      } else {
        var first, others := other[0], other[1..];
        assert Flatten(other) == first + Flatten(others);
        FirstStopsShort(first, Flatten(others), before, open, line, tail, overhead);
        var left := (before + open)[|first|..];
        assert Flatten(others) == (before + open + rest)[|first|..];
        assert (before + open + rest)[|first|..] == left + [line] + tail;
        assert others != [];
        PackIsShortest(others, left, [line], tail, overhead);
      }
    }
  }

  /** A fitting first chunk cannot reach past the open chunk and a line that no longer fits beside it. */
  lemma FirstStopsShort(first: seq<string>, others: seq<string>, before: seq<string>, open: seq<string>,
                        line: string, tail: seq<string>, overhead: nat)
    requires first + others == before + open + ([line] + tail)
    requires Fits(first, overhead) && !Fits(open + [line], overhead)
    ensures |first| <= |before + open|
  {
    if |first| > |before + open| {
      var all := before + open + ([line] + tail);
      var n := |before + open|;
      assert first == all[..|first|];
      assert first == before + (open + [line]) + all[n + 1..|first|];
      JoinConcat(before + (open + [line]), all[n + 1..|first|]);
      JoinConcat(before, open + [line]);
    }
  }

  /** The greedy packer uses as few chunks as any order-preserving split into chunks that fit. */
  lemma ChunksAreFewest(lines: seq<string>, overhead: nat, other: seq<seq<string>>)
    requires Flatten(other) == lines
    requires forall c :: c in other ==> Fits(c, overhead)
    ensures Flatten(Chunks(lines, overhead)) == lines
    ensures |Chunks(lines, overhead)| <= |other|
  {
    if lines != [] {
      PackConserves([], lines, overhead);
      assert [] + [] + lines == lines;
      PackIsShortest(other, [], [], lines, overhead);
    }
  }

  // ----- both functions of the source refine it

  /** The messages for a list of chunks: the same text around each. */
  function Wrap(chunks: seq<seq<string>>, pre: string, post: string): seq<string> {
    seq(|chunks|, i requires 0 <= i < |chunks| => pre + Join(chunks[i]) + post)
  }

  lemma WrapSnoc(chunks: seq<seq<string>>, last: seq<string>, pre: string, post: string)
    ensures Wrap(chunks + [last], pre, post) == Wrap(chunks, pre, post) + [pre + Join(last) + post]
    ensures post == "" ==> pre + Join(last) + post == pre + Join(last)
  {
  }

  lemma WrapPlain(chunks: seq<seq<string>>, last: seq<string>, pre: string, text: string)
    requires text == pre + Join(last)
    ensures Wrap(chunks + [last], pre, "") == Wrap(chunks, pre, "") + [text]
  {
    WrapSnoc(chunks, last, pre, "");
  }

  function HeaderOnly(header: string): (chunk: seq<string>)
    ensures Join(chunk) == header
  {
    if header != "" then
      assert Join([header]) == header + Join([]);
      [header]
    else []
  }

  lemma JoinTwo(a: string, b: string)
    ensures Join([a, b]) == a + b
  {
    assert Join([b]) == b + Join([]);
    assert [a, b][1..] == [b];
  }

  /** Every message is within the limit exactly when every line is, with its header and tags. */
  lemma MessagesFitIff(lines: seq<string>, pre: string, post: string)
    ensures (forall m :: m in Wrap(Chunks(lines, |pre| + |post|), pre, post) ==> |m| <= MAX_EVENT_SIZE_FOR_SENDING)
            <==> (forall l :: l in lines ==> |pre + l + post| <= MAX_EVENT_SIZE_FOR_SENDING)
  {
    var overhead := |pre| + |post|;
    var chunks := Chunks(lines, overhead);
    var messages := Wrap(chunks, pre, post);
    ChunksFitIff(lines, overhead);
    forall l
      ensures Fits([l], overhead) <==> |pre + l + post| <= MAX_EVENT_SIZE_FOR_SENDING
    {
      assert Join([l]) == l + Join([]);
    }
    if forall m :: m in messages ==> |m| <= MAX_EVENT_SIZE_FOR_SENDING {
      forall c | c in chunks
        ensures Fits(c, overhead)
      {
        var i :| 0 <= i < |chunks| && chunks[i] == c;
        assert messages[i] in messages;
      }
    }
    if forall c :: c in chunks ==> Fits(c, overhead) {
      forall m | m in messages
        ensures |m| <= MAX_EVENT_SIZE_FOR_SENDING
      {
        var i :| 0 <= i < |messages| && messages[i] == m;
        assert Fits(chunks[i], overhead);
      }
    }
  }

  function Suffixed(lines: seq<string>, suffix: string): seq<string> {
    seq(|lines|, i requires 0 <= i < |lines| => lines[i] + suffix)
  }

  function Tagged(lines: seq<string>, addCodeTags: bool, suffix: string): seq<string> {
    seq(|lines|, i requires 0 <= i < |lines| => (if addCodeTags then WrapInCodeTags(lines[i]) else lines[i]) + suffix)
  }

  function WrapInCodeTags(message: string): string {
    "<code>" + message + "</code>"
  }

  // ----- reading messages back

  /** What stands between `before` at the start of the text and `after` at its end. */
  function Between(text: string, before: string, after: string): Option<string> {
    if |before| + |after| <= |text| && before <= text && text[|text| - |after|..] == after then
      Some(text[|before|..|text| - |after|])
    else None
  }

  lemma BetweenBack(before: string, inner: string, after: string)
    ensures Between(before + inner + after, before, after) == Some(inner)
  {
    var text := before + inner + after;
    assert text[..|before|] == before;
  }

  /** Every message is framed by the header and the closing tag. */
  predicate AllFramed(messages: seq<string>, pre: string, post: string) {
    forall m :: m in messages ==> Between(m, pre, post).Some?
  }

  /** The text of the messages one after the other, without what frames each. */
  function TextOf(messages: seq<string>, pre: string, post: string): string {
    if messages == [] then ""
    else
      (match Between(messages[0], pre, post) case Some(body) => body case None => "")
      + TextOf(messages[1..], pre, post)
  }

  /** The pieces of a text that are ended by newlines, and a last one that is not. */
  function Pieces(text: string): seq<string> {
    if text == "" then []
    else if '\n' !in text then [text]
    else
      var i := FirstBreak(text);
      [text[..i]] + Pieces(text[i + 1..])
  }

  function FirstBreak(text: string): (i: nat)
    requires '\n' in text
    ensures i < |text| && text[i] == '\n' && '\n' !in text[..i]
  {
    if text[0] == '\n' then 0
    else
      var i := FirstBreak(text[1..]);
      assert text[..i + 1] == [text[0]] + text[1..][..i];
      i + 1
  }

  lemma FirstPiece(piece: string, rest: string)
    requires '\n' !in piece
    ensures Pieces(piece + "\n" + rest) == [piece] + Pieces(rest)
  {
    var text := piece + "\n" + rest;
    assert text[|piece|] == '\n';
    assert text[..|piece|] == piece && text[|piece| + 1..] == rest;
    FirstBreakIs(text, |piece|);
  }

  lemma {:induction false} FirstBreakIs(text: string, i: nat)
    requires i < |text| && text[i] == '\n' && '\n' !in text[..i]
    ensures FirstBreak(text) == i
  {
    if i > 0 {
      assert text[0] == text[..i][0];
      assert text[1..][..i - 1] == text[..i][1..];
      FirstBreakIs(text[1..], i - 1);
    }
  }

  /** Lines that were each ended by a newline are read back from the text. */
  lemma {:induction false} PiecesBack(lines: seq<string>, ended: seq<string>)
    requires |ended| == |lines| && forall i :: 0 <= i < |lines| ==> ended[i] == lines[i] + "\n" && '\n' !in lines[i]
    ensures Pieces(Join(ended)) == lines
  {
    if lines != [] {
      FirstPiece(lines[0], Join(ended[1..]));
      PiecesBack(lines[1..], ended[1..]);
    }
  }

  lemma {:induction false} TextOfWrap(chunks: seq<seq<string>>, pre: string, post: string)
    ensures AllFramed(Wrap(chunks, pre, post), pre, post)
    ensures TextOf(Wrap(chunks, pre, post), pre, post) == Join(Flatten(chunks))
  {
    var messages := Wrap(chunks, pre, post);
    if chunks != [] {
      assert messages[1..] == Wrap(chunks[1..], pre, post);
      TextOfWrap(chunks[1..], pre, post);
      BetweenBack(pre, Join(chunks[0]), post);
      JoinConcat(chunks[0], Flatten(chunks[1..]));
      assert forall m :: m in messages ==> m == messages[0] || m in messages[1..];
    }
  }

  /** Packing changes nothing about the text. */
  ghost predicate Carries(messages: seq<string>, lines: seq<string>, pre: string, post: string) {
    AllFramed(messages, pre, post) && TextOf(messages, pre, post) == Join(lines)
  }

  lemma WrappedCarries(chunks: seq<seq<string>>, lines: seq<string>, pre: string, post: string)
    requires Flatten(chunks) == lines
    ensures Carries(Wrap(chunks, pre, post), lines, pre, post)
  {
    TextOfWrap(chunks, pre, post);
  }

  lemma PackedCarries(lines: seq<string>, pre: string, post: string)
    ensures Carries(Wrap(Chunks(lines, |pre| + |post|), pre, post), lines, pre, post)
  {
    ChunksConserve(lines, |pre| + |post|);
    WrappedCarries(Chunks(lines, |pre| + |post|), lines, pre, post);
  }

  lemma ChunksConserve(lines: seq<string>, overhead: nat)
    ensures Flatten(Chunks(lines, overhead)) == lines
  {
    if lines != [] {
      PackConserves([], lines, overhead);
    }
  }

  /** The text holds the lines, one after the other, each between `before` and `after`. */
  ghost predicate Holds(text: string, lines: seq<string>, before: string, after: string) {
    exists rendered :: IsRendered(rendered, lines, before, after) && Join(rendered) == text
  }

  ghost predicate IsRendered(rendered: seq<string>, lines: seq<string>, before: string, after: string) {
    |rendered| == |lines| && forall i :: 0 <= i < |lines| ==> Between(rendered[i], before, after) == Some(lines[i])
  }

  lemma SuffixedIsRendered(lines: seq<string>, suffix: string)
    ensures IsRendered(Suffixed(lines, suffix), lines, "", suffix)
    ensures suffix == "" ==> Suffixed(lines, suffix) == lines
  {
    forall i | 0 <= i < |lines|
      ensures Between(Suffixed(lines, suffix)[i], "", suffix) == Some(lines[i])
    {
      BetweenBack("", lines[i], suffix);
      assert "" + lines[i] + suffix == lines[i] + suffix;
    }
    assert suffix == "" ==> forall i :: 0 <= i < |lines| ==> Suffixed(lines, suffix)[i] == lines[i];
  }

  function OpenTag(addCodeTags: bool): string { if addCodeTags then "<code>" else "" }

  function CloseTag(addCodeTags: bool): string { if addCodeTags then "</code>" else "" }

  lemma TaggedIsRendered(lines: seq<string>, addCodeTags: bool, suffix: string)
    ensures IsRendered(Tagged(lines, addCodeTags, suffix), lines, OpenTag(addCodeTags), CloseTag(addCodeTags) + suffix)
  {
    var before, after := OpenTag(addCodeTags), CloseTag(addCodeTags) + suffix;
    forall i | 0 <= i < |lines|
      ensures Between(Tagged(lines, addCodeTags, suffix)[i], before, after) == Some(lines[i])
    {
      BetweenBack(before, lines[i], after);
      assert before + lines[i] + after == Tagged(lines, addCodeTags, suffix)[i];
    }
  }

  /** Lines without newlines are read back from HTML with breaks: split at the newlines, then strip the tags. */
  ghost predicate ReadsBackAs(text: string, lines: seq<string>, before: string, after: string) {
    |Pieces(text)| == |lines| && forall i :: 0 <= i < |lines| ==> Between(Pieces(text)[i], before, after) == Some(lines[i])
  }

  predicate OneLineEach(lines: seq<string>) {
    forall l :: l in lines ==> '\n' !in l
  }

  lemma TaggedReadsBack(lines: seq<string>, addCodeTags: bool)
    requires OneLineEach(lines)
    ensures ReadsBackAs(Join(Tagged(lines, addCodeTags, "<br>\n")), lines, OpenTag(addCodeTags), CloseTag(addCodeTags) + "<br>")
  {
    var ended, pieces := Tagged(lines, addCodeTags, "<br>\n"), Tagged(lines, addCodeTags, "<br>");
    forall i | 0 <= i < |lines|
      ensures ended[i] == pieces[i] + "\n" && '\n' !in pieces[i]
    {
      assert lines[i] in lines;
    }
    PiecesBack(pieces, ended);
    TaggedIsRendered(lines, addCodeTags, "<br>");
  }

  /** The messages hold the lines, each ended by a newline if asked for; then, or if no lines are broken up,
      they can be read back. */
  ghost predicate IsPlainOf(messages: seq<string>, header: string, lines: seq<string>, insertNewLines: bool) {
    var text := TextOf(messages, header, "");
    && AllFramed(messages, header, "")
    && Holds(text, lines, "", if insertNewLines then "\n" else "")
    && (!insertNewLines ==> text == Join(lines))
    && (insertNewLines && OneLineEach(lines) ==> Pieces(text) == lines)
  }

  lemma PlainReadsBack(messages: seq<string>, lines: seq<string>, header: string, insertNewLines: bool)
    requires Carries(messages, Suffixed(lines, if insertNewLines then "\n" else ""), header, "")
    ensures IsPlainOf(messages, header, lines, insertNewLines)
  {
    SuffixedIsRendered(lines, if insertNewLines then "\n" else "");
    if insertNewLines && OneLineEach(lines) {
      PiecesBack(lines, Suffixed(lines, "\n"));
    }
  }

  /** An absent header line is the same as an empty one. */
  method CombineLines(lines: seq<string>, headerLine: string, insertNewLines: bool) returns (result: seq<string>)
    ensures var newline := if insertNewLines then "\n" else "";
            var header := if headerLine != "" then headerLine + newline else "";
            && result == Wrap(Chunks(Suffixed(lines, newline), |header|), header, "")
            && IsPlainOf(result, header, lines, insertNewLines)
  {
    var newline := if insertNewLines then "\n" else "";
    var header := if headerLine != "" then headerLine + newline else "";
    PackedCarries(Suffixed(lines, newline), header, "");
    if lines == [] {
      result := [];
    } else {
      result := PackPlain(lines, newline, header);
    }
    PlainReadsBack(result, lines, header, insertNewLines);
  }

  /** The packing loop of the plain version. */
  method PackPlain(lines: seq<string>, newline: string, header: string) returns (result: seq<string>)
    requires lines != []
    ensures result == Wrap(Chunks(Suffixed(lines, newline), |header|), header, "")
  {
    ghost var all := Suffixed(lines, newline);
    ghost var done: seq<seq<string>>, open: seq<string> := [], [];
    result := [];
    var currentChunk: seq<string> := HeaderOnly(header);
    var currentSize := |header|;
    for i := 0 to |lines|
      invariant result == Wrap(done, header, "")
      invariant Join(currentChunk) == header + Join(open)
      invariant currentSize == |header| + |Join(open)|
      invariant currentChunk == [] ==> i == 0
      invariant Packing(done, open, all, i, |header|)
    {
      var line := lines[i] + newline;
      assert all[i] == line;
      JoinLine(open, line, |header|);
      PackStep(done, open, all, i, |header|);
      if currentSize + |line| > MAX_EVENT_SIZE_FOR_SENDING {
        WrapPlain(done, open, header, Join(currentChunk));
        result := result + [Join(currentChunk)];
        done, open := done + [open], [line];
        currentChunk := HeaderOnly(header);
        currentSize := |header|;
      } else {
        open := open + [line];
      }
      JoinSnoc(currentChunk, line);
      currentChunk := currentChunk + [line];
      currentSize := currentSize + |line|;
    }
    PackDone(done, open, all, |header|);
    WrapPlain(done, open, header, Join(currentChunk));
    if currentChunk != [] {
      result := result + [Join(currentChunk)];
    }
  }

  /** The messages hold the lines, with code tags exactly if asked for and breaks likewise; with breaks the
      lines can be read back. */
  ghost predicate IsHtmlOf(messages: seq<string>, pre: string, post: string, lines: seq<string>,
                           addCodeTags: bool, insertNewLines: bool) {
    var text := TextOf(messages, pre, post);
    && AllFramed(messages, pre, post)
    && Holds(text, lines, OpenTag(addCodeTags), CloseTag(addCodeTags) + if insertNewLines then "<br>\n" else "")
    && (insertNewLines && OneLineEach(lines) ==>
          ReadsBackAs(text, lines, OpenTag(addCodeTags), CloseTag(addCodeTags) + "<br>"))
  }

  lemma HtmlReadsBack(messages: seq<string>, lines: seq<string>, addCodeTags: bool, insertNewLines: bool,
                      pre: string, post: string)
    requires Carries(messages, Tagged(lines, addCodeTags, if insertNewLines then "<br>\n" else ""), pre, post)
    ensures IsHtmlOf(messages, pre, post, lines, addCodeTags, insertNewLines)
  {
    TaggedIsRendered(lines, addCodeTags, if insertNewLines then "<br>\n" else "");
    if insertNewLines && OneLineEach(lines) {
      TaggedReadsBack(lines, addCodeTags);
    }
  }

  method CombineLinesHtml(lines: seq<string>, headerLines: seq<string>, addCodeTags: bool, applyPreTags: bool,
                          insertNewLines: bool) returns (result: seq<string>)
    ensures var br := if insertNewLines then "<br>\n" else "";
            var header := Join(Tagged(headerLines, addCodeTags, br));
            var pre, post := (if applyPreTags then "<pre>" else "") + header, if applyPreTags then "</pre>" else "";
            && result == Wrap(Chunks(Tagged(lines, addCodeTags, br), |pre| + |post|), pre, post)
            && Holds(header, headerLines, OpenTag(addCodeTags), CloseTag(addCodeTags) + br)
            && IsHtmlOf(result, pre, post, lines, addCodeTags, insertNewLines)
  {
    var brTag := if insertNewLines then "<br>\n" else "";
    var preStart := if applyPreTags then "<pre>" else "";
    var preEnd := if applyPreTags then "</pre>" else "";
    result := CombineTagged(lines, headerLines, addCodeTags, brTag, preStart, preEnd);
    HtmlReadsBack(result, lines, addCodeTags, insertNewLines,
                  preStart + Join(Tagged(headerLines, addCodeTags, brTag)), preEnd);
    TaggedIsRendered(headerLines, addCodeTags, brTag);
  }

  /** The rendering of the header and the lines. */
  method CombineTagged(lines: seq<string>, headerLines: seq<string>, addCodeTags: bool, brTag: string,
                       preStart: string, preEnd: string) returns (result: seq<string>)
    ensures var pre, rendered := preStart + Join(Tagged(headerLines, addCodeTags, brTag)), Tagged(lines, addCodeTags, brTag);
            result == Wrap(Chunks(rendered, |pre| + |preEnd|), pre, preEnd) && Carries(result, rendered, pre, preEnd)
  {
    var renderedHeaders := Join(Tagged(headerLines, addCodeTags, brTag));
    var renderedLines := Tagged(lines, addCodeTags, brTag);
    PackedCarries(renderedLines, preStart + renderedHeaders, preEnd);
    if lines == [] {
      return [];
    }
    result := PackRendered(renderedLines, preStart, renderedHeaders, preEnd);
  }

  /** The packing loop of the HTML version. */
  method PackRendered(renderedLines: seq<string>, preStart: string, renderedHeaders: string, preEnd: string)
    returns (result: seq<string>)
    requires renderedLines != []
    ensures result == Wrap(Chunks(renderedLines, |preStart + renderedHeaders| + |preEnd|),
                           preStart + renderedHeaders, preEnd)
  {
    var chunkOverhead := |preStart| + |renderedHeaders| + |preEnd|;
    ghost var pre := preStart + renderedHeaders;
    ghost var done: seq<seq<string>>, open: seq<string> := [], [];
    result := [];
    var currentChunk := [preStart, renderedHeaders];
    var currentSize := chunkOverhead;
    JoinTwo(preStart, renderedHeaders);
    for i := 0 to |renderedLines|
      invariant result == Wrap(done, pre, preEnd)
      invariant Join(currentChunk) == pre + Join(open)
      invariant currentSize == chunkOverhead + |Join(open)|
      invariant Packing(done, open, renderedLines, i, chunkOverhead)
    {
      var line := renderedLines[i];
      JoinLine(open, line, chunkOverhead);
      PackStep(done, open, renderedLines, i, chunkOverhead);
      if currentSize + |line| > MAX_EVENT_SIZE_FOR_SENDING {
        WrapSnoc(done, open, pre, preEnd);
        JoinSnoc(currentChunk, preEnd);
        result := result + [Join(currentChunk + [preEnd])];
        done, open := done + [open], [line];
        currentChunk := [preStart, renderedHeaders];
        currentSize := chunkOverhead;
      } else {
        open := open + [line];
      }
      JoinSnoc(currentChunk, line);
      currentChunk := currentChunk + [line];
      currentSize := currentSize + |line|;
    }
    PackDone(done, open, renderedLines, chunkOverhead);
    WrapSnoc(done, open, pre, preEnd);
    JoinSnoc(currentChunk, preEnd);
    result := result + [Join(currentChunk + [preEnd])];
  }
}
