/**
 * The mobile note editor's plain-text fallback (React-Native
 * components/NoteEditor.tsx): converting between a document and the text of
 * a multi-line input.
 */
module PlainText {
  import opened Wrappers
  import opened Text
  import opened Content

  /** `jsonToPlainText`: the top-level block texts joined by newlines, trimmed. */
  function JsonToPlainText(d: Doc): (r: string)
    ensures IsTrimmed(r)
    ensures d.content.Absent? ==> r == ""
  {
    Trim(Join(Texts(match d.content case Absent => [] case Present(nodes) => nodes), "\n"))
  }

  /** Drops the newlines at the front of `s`. */
  function DropNewlines(s: string): (r: string)
    ensures |r| <= |s| && (s != [] && s[0] == '\n' ==> |r| < |s|)
    ensures r == [] || r[0] != '\n'
  {
    if s != [] && s[0] == '\n' then DropNewlines(s[1..]) else s
  }

  /** `s` holds no newline. */
  predicate NoNewline(s: string) {
    forall i :: 0 <= i < |s| ==> s[i] != '\n'
  }

  /** `text.split(/\n+/)`: the pieces between maximal runs of newlines; there is always at least one. */
  function SplitLines(s: string): (r: seq<string>)
    ensures |r| >= 1
    ensures forall i :: 0 <= i < |r| ==> NoNewline(r[i])
    decreases |s|
  {
    if s == [] then [""]
    else if s[0] == '\n' then [""] + SplitLines(DropNewlines(s))
    else
      var rest := SplitLines(s[1..]);
      [[s[0]] + rest[0]] + rest[1..]
  }

  /** `lines.map((line) => line.trim())`. */
  function TrimAll(lines: seq<string>): (r: seq<string>)
    ensures |r| == |lines|
    ensures forall i {:trigger r[i]} :: 0 <= i < |lines| ==> r[i] == Trim(lines[i])
  {
    if lines == [] then [] else [Trim(lines[0])] + TrimAll(lines[1..])
  }

  /**
   * `plainTextToJson`: a `'doc'` with one paragraph per newline-separated line,
   * each line trimmed; a blank line gives a paragraph without content. The
   * fallback for an empty split result cannot be taken, since a split always
   * has a piece.
   */
  function PlainTextToJson(text: string): (r: Doc)
    ensures r.kind == "doc" && r.content.Present? && |r.content.nodes| >= 1
    ensures r == Paragraphs(TrimAll(SplitLines(text)))
  {
    var lines := TrimAll(SplitLines(text));
    var nodes := if |lines| > 0 then Paragraphs(lines).content.nodes else [Node("paragraph", None, Absent)];
    Doc("doc", Present(nodes))
  }

  /** Each block of the converted document holds its trimmed line: no content for a blank line, one text node otherwise. */
  lemma PlainTextBlocks(text: string, i: nat)
    requires i < |SplitLines(text)|
    ensures var block := PlainTextToJson(text).content.nodes[i];
            var line := Trim(SplitLines(text)[i]);
            && block.kind == "paragraph" && block.text.None?
            && (line == "" ==> block.content.Absent?)
            && (line != "" ==> block.content == Present([Node("text", Some(line), Absent)]))
  {
  }

  /** A line without newlines splits into itself. */
  lemma {:induction false} SplitSingleLine(s: string)
    requires NoNewline(s)
    ensures SplitLines(s) == [s]
  {
    if s != [] {
      SplitSingleLine(s[1..]);
      assert [s[0]] + s[1..] == s;
    }
  }

  /** A line followed by one newline and text that does not start with a newline splits off that line. */
  lemma {:induction false} SplitAfterLine(x: string, y: string)
    requires NoNewline(x)
    requires y == [] || y[0] != '\n'
    ensures SplitLines(x + "\n" + y) == [x] + SplitLines(y)
  {
    if x == [] {
      assert x + "\n" + y == "\n" + y;
      assert DropNewlines("\n" + y) == DropNewlines(y) == y;
    } else {
      SplitAfterLine(x[1..], y);
      assert (x + "\n" + y)[1..] == x[1..] + "\n" + y;
      assert [x[0]] + x[1..] == x;
    }
  }

  /** Non-empty lines without newlines, joined by single newlines, split back into the same lines. */
  lemma {:induction false} SplitJoin(lines: seq<string>)
    requires |lines| >= 1
    requires forall i :: 0 <= i < |lines| ==> lines[i] != [] && NoNewline(lines[i])
    ensures SplitLines(Join(lines, "\n")) == lines
  {
    if |lines| == 1 {
      SplitSingleLine(lines[0]);
    } else {
      SplitJoin(lines[1..]);
      JoinEnds(lines[1..], "\n");
      SplitAfterLine(lines[0], Join(lines[1..], "\n"));
      assert [lines[0]] + lines[1..] == lines;
    }
  }

  /** A line the fallback text round-trips: non-empty, trimmed, no newline inside. */
  predicate WellFormedLine(line: string) {
    line != [] && IsTrimmed(line) && NoNewline(line)
  }

  /** Lines that are already trimmed are left as they are. */
  lemma TrimAllNoop(lines: seq<string>)
    requires forall i :: 0 <= i < |lines| ==> IsTrimmed(lines[i])
    ensures TrimAll(lines) == lines
  {
    forall i | 0 <= i < |lines| ensures TrimAll(lines)[i] == lines[i] {
      TrimNoop(lines[i]);
    }
  }

  /** The paragraphs built from lines give those lines back as their texts. */
  lemma ParagraphTexts(lines: seq<string>)
    ensures Texts(Paragraphs(lines).content.nodes) == lines
  {
    var nodes := Paragraphs(lines).content.nodes;
    forall i | 0 <= i < |lines| ensures Texts(nodes)[i] == lines[i] {
      ParagraphText(lines[i]);
    }
  }

  /** The empty text converts to one empty paragraph, whose plain text is empty again. */
  lemma EmptyRoundTrip()
    ensures JsonToPlainText(PlainTextToJson("")) == ""
  {
    assert SplitLines("") == [""];
    TrimAllNoop([""]);
    ParagraphTexts([""]);
  }

  /** Well-formed lines joined by newlines start and end with a line's own (non-blank) characters. */
  lemma JoinedTrimmed(lines: seq<string>)
    requires |lines| >= 1
    requires forall i :: 0 <= i < |lines| ==> WellFormedLine(lines[i])
    ensures IsTrimmed(Join(lines, "\n"))
  {
    JoinEnds(lines, "\n");
    assert IsTrimmed(lines[0]) && IsTrimmed(lines[|lines| - 1]);
  }

  /** Well-formed lines joined by newlines convert to one paragraph per line. */
  lemma ConvertJoined(lines: seq<string>)
    requires |lines| >= 1
    requires forall i :: 0 <= i < |lines| ==> WellFormedLine(lines[i])
    ensures PlainTextToJson(Join(lines, "\n")) == Paragraphs(lines)
  {
    SplitJoin(lines);
    TrimAllNoop(lines);
  }

  /**
   * Round-trip: text made of non-empty trimmed lines separated by single
   * newlines comes back unchanged from `plainTextToJson` then `jsonToPlainText`.
   */
  lemma RoundTrip(lines: seq<string>)
    requires forall i :: 0 <= i < |lines| ==> WellFormedLine(lines[i])
    ensures JsonToPlainText(PlainTextToJson(Join(lines, "\n"))) == Join(lines, "\n")
  {
    if lines == [] {
      EmptyRoundTrip();
    } else {
      ConvertJoined(lines);
      ParagraphTexts(lines);
      JoinedTrimmed(lines);
      TrimNoop(Join(lines, "\n"));
    }
  }
}
