/**
 * The rich-text document of a note and what the application derives from
 * it: the title and the plain-text preview (Electron utils/content.ts).
 * The mobile editor's `textFromNode` is the same definition as `extractText`
 * and is modelled by `ExtractText` as well.
 */
module Content {
  import opened Wrappers
  import opened Text

  /** An editor node: its type, optional own text and optional children. */
  datatype Node = Node(kind: string, text: Option<string>, content: Children)

  /** A `content` array, which a node or a stored document may lack (`undefined`). */
  datatype Children = Absent | Present(nodes: seq<Node>)

  /** A document: its type (`'doc'`) and its top-level blocks. */
  datatype Doc = Doc(kind: string, content: Children)

  const Untitled: string := "Untitled"

  /** The suffix appended to a truncated preview: the UTF-8 bytes of an ellipsis read as Latin-1/Windows-1252. */
  const Ellipsis: string := "\U{00E2}\U{20AC}\U{00A6}"

  const DefaultPreviewLength: nat := 120

  /** `extractText`: the node's own text when non-empty, else its children's texts concatenated. */
  function ExtractText(n: Node): string
    decreases n, 1
  {
    if n.text.Some? && n.text.value != "" then n.text.value
    else
      match n.content
      case Absent => ""
      case Present(kids) => ConcatTexts(kids)
  }

  /** `nodes.map(extractText).join('')`, written as a recursion over the nodes. */
  function ConcatTexts(nodes: seq<Node>): string
    decreases nodes, 0
  {
    if nodes == [] then "" else ExtractText(nodes[0]) + ConcatTexts(nodes[1..])
  }

  /** The texts of a list of nodes, one per node. */
  function Texts(nodes: seq<Node>): (r: seq<string>)
    ensures |r| == |nodes|
    ensures forall i {:trigger r[i]} :: 0 <= i < |nodes| ==> r[i] == ExtractText(nodes[i])
  {
    if nodes == [] then [] else [ExtractText(nodes[0])] + Texts(nodes[1..])
  }

  /** The children's texts are concatenated with no separator: `ConcatTexts` is `join('')` of `Texts`. */
  lemma {:induction false} ConcatIsJoin(nodes: seq<Node>)
    ensures ConcatTexts(nodes) == Join(Texts(nodes), "")
  {
    if |nodes| > 1 {
      ConcatIsJoin(nodes[1..]);
      assert Texts(nodes[1..]) == Texts(nodes)[1..];
    }
  }

  /** `extractText` on a node: own non-empty text wins, a node without children gives `''`. */
  lemma ExtractTextCases(n: Node)
    ensures n.text.Some? && n.text.value != "" ==> ExtractText(n) == n.text.value
    ensures (n.text.None? || n.text.value == "") && n.content.Absent? ==> ExtractText(n) == ""
    ensures (n.text.None? || n.text.value == "") && n.content.Present? ==>
              ExtractText(n) == Join(Texts(n.content.nodes), "")
  {
    if n.content.Present? {
      ConcatIsJoin(n.content.nodes);
    }
  }

  /** `extractTitle`: the first block's text, trimmed, or `'Untitled'`; never empty and always trimmed. */
  function ExtractTitle(d: Doc): (r: string)
    ensures r != [] && IsTrimmed(r)
    ensures d.content.Absent? || d.content.nodes == [] ==> r == Untitled
  {
    if d.content.Absent? || |d.content.nodes| == 0 then Untitled
    else
      var text := Trim(ExtractText(d.content.nodes[0]));
      if text != "" then text else Untitled
  }

  /** The title is the first block's trimmed text whenever that is not blank. */
  lemma TitleIsFirstBlock(first: Node, rest: seq<Node>, kind: string)
    requires Trim(ExtractText(first)) != ""
    ensures ExtractTitle(Doc(kind, Present([first] + rest))) == Trim(ExtractText(first))
  {
  }

  /** A blank first block gives `'Untitled'`, whatever follows it. */
  lemma TitleOfBlankFirstBlock(first: Node, rest: seq<Node>, kind: string)
    requires AllWhitespace(ExtractText(first))
    ensures ExtractTitle(Doc(kind, Present([first] + rest))) == Untitled
  {
  }

  /** The title depends on the first block only. */
  lemma TitleDependsOnFirstBlock(first: Node, rest: seq<Node>, kind: string)
    ensures ExtractTitle(Doc(kind, Present([first] + rest))) == ExtractTitle(Doc(kind, Present([first])))
  {
  }

  /** A paragraph holding one text node (an empty line: a paragraph without content). */
  function Paragraph(line: string): Node {
    Node("paragraph", None, if line == "" then Absent else Present([Node("text", Some(line), Absent)]))
  }

  /** A document made of one paragraph per line. */
  function Paragraphs(lines: seq<string>): (r: Doc)
    ensures r.kind == "doc" && r.content.Present? && |r.content.nodes| == |lines|
    ensures forall i {:trigger r.content.nodes[i]} :: 0 <= i < |lines| ==> r.content.nodes[i] == Paragraph(lines[i])
  {
    if lines == [] then Doc("doc", Present([]))
    else Doc("doc", Present([Paragraph(lines[0])] + Paragraphs(lines[1..]).content.nodes))
  }

  /** The text of a one-line paragraph is that line. */
  lemma ParagraphText(line: string)
    ensures ExtractText(Paragraph(line)) == line
  {
    if line != "" {
      var t := Node("text", Some(line), Absent);
      assert ConcatTexts([t]) == ExtractText(t) + ConcatTexts([]);
    }
  }

  /** All the text of the blocks: their texts joined by one space, then trimmed. */
  function AllText(blocks: seq<Node>): string {
    Trim(Join(Texts(blocks), " "))
  }

  /**
   * `extractPlainTextPreview`: `''` without blocks; the whole text when it fits
   * in `maxLength`; else exactly its first `maxLength` characters and the suffix.
   */
  function ExtractPlainTextPreview(d: Doc, maxLength: nat := DefaultPreviewLength): (r: string)
    ensures d.content.Absent? ==> r == ""
    ensures |r| <= maxLength + |Ellipsis|
    ensures d.content.Present? && |AllText(d.content.nodes)| <= maxLength ==> r == AllText(d.content.nodes)
    ensures d.content.Present? && |AllText(d.content.nodes)| > maxLength ==>
              |r| == maxLength + |Ellipsis| && r[..maxLength] <= AllText(d.content.nodes)
              && r[maxLength..] == Ellipsis
  {
    if d.content.Absent? then ""
    else
      var allText := AllText(d.content.nodes);
      if |allText| <= maxLength then allText
      else allText[..maxLength] + Ellipsis
  }

  /** The preview never starts with whitespace (it is cut from trimmed text). */
  lemma PreviewStartsTrimmed(d: Doc, maxLength: nat)
    ensures var r := ExtractPlainTextPreview(d, maxLength); r == [] || !IsWhitespace(r[0])
  {
    if d.content.Present? {
      var all := AllText(d.content.nodes);
      assert IsTrimmed(all);
    }
  }

  /** A preview cut at 120: longer text gives 120 characters and the 3-character suffix. */
  lemma PreviewDefaultBound(d: Doc)
    ensures |ExtractPlainTextPreview(d)| <= 123
  {
  }
}
