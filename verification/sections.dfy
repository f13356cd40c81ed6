/**
 * Section extraction from a parsed GeneReviews page.
 *
 * A parsed page is its elements in document order. Each element carries its
 * tag name, its full text (`tag.text`), its text as
 * `get_text(strip=True, separator=' ')` renders it, and the position of its
 * next sibling element, if it has one. The parser itself is not modelled:
 * both texts are given with the element.
 */
module Sections {
  import opened Wrappers
  import opened Text

  datatype Node = Node(name: string, text: string, strippedText: string, nextSibling: Option<nat>)

  /** Sibling links point forward in document order and stay inside the page. */
  predicate WellFormed(nodes: seq<Node>) {
    forall i :: 0 <= i < |nodes| && nodes[i].nextSibling.Some? ==> i < nodes[i].nextSibling.value < |nodes|
  }

  /** A parsed page: the parser only ever produces well-formed sibling links. */
  type Document = nodes: seq<Node> | WellFormed(nodes) witness []

  /** The section headings the extractor looks at. */
  predicate IsHeading(n: Node) {
    n.name in ["h2", "h3", "h4"]
  }

  /** The block elements whose text is collected. */
  predicate IsBlock(n: Node) {
    n.name in ["p", "ul", "ol"]
  }

  /** A heading whose text contains the sectionTitle, ignoring letter case. */
  predicate MatchesLabel(n: Node, sectionTitle: string) {
    IsHeading(n) && Contains(Lower(n.text), Lower(sectionTitle))
  }

  /** Position of the first heading at or after `from` whose text contains `sectionTitle`. */
  function FindHeading(doc: Document, sectionTitle: string, from: nat): (r: Option<nat>)
    ensures r.Some? ==> from <= r.value < |doc| && MatchesLabel(doc[r.value], sectionTitle)
    ensures r.Some? ==> forall j :: from <= j < r.value ==> !MatchesLabel(doc[j], sectionTitle)
    ensures r.None? ==> forall j :: from <= j < |doc| ==> !MatchesLabel(doc[j], sectionTitle)
    decreases |doc| - from
  {
    if from >= |doc| then None
    else if MatchesLabel(doc[from], sectionTitle) then Some(from)
    else FindHeading(doc, sectionTitle, from + 1)
  }

  /** A position in the page, or none: where the sibling walk stands. */
  predicate InPage(doc: Document, cur: Option<nat>) {
    cur.Some? ==> cur.value < |doc|
  }

  /** The element at `cur` and all its later siblings, in order. */
  function Siblings(doc: Document, cur: Option<nat>): (r: seq<nat>)
    requires InPage(doc, cur)
    ensures forall k :: 0 <= k < |r| ==> r[k] < |doc|
    decreases if cur.Some? then |doc| - cur.value else 0
  {
    match cur
    case None => []
    case Some(i) => [i] + Siblings(doc, doc[i].nextSibling)
  }

  /** The longest prefix of `idxs` holding no heading. */
  function UntilHeading(doc: Document, idxs: seq<nat>): (r: seq<nat>)
    requires forall k :: 0 <= k < |idxs| ==> idxs[k] < |doc|
    ensures |r| <= |idxs| && r == idxs[..|r|]
    ensures forall k :: 0 <= k < |r| ==> !IsHeading(doc[r[k]])
    ensures |r| < |idxs| ==> IsHeading(doc[idxs[|r|]])
  {
    if idxs == [] || IsHeading(doc[idxs[0]]) then []
    else [idxs[0]] + UntilHeading(doc, idxs[1..])
  }

  /** What one element contributes to a section: its text, when it is a non-empty paragraph or list. */
  function Contribution(n: Node): seq<string> {
    if IsBlock(n) && n.strippedText != "" then [n.strippedText] else []
  }

  /** The non-empty texts of the paragraphs and lists among `idxs`, in order. */
  function BlockTexts(doc: Document, idxs: seq<nat>): seq<string>
    requires forall k :: 0 <= k < |idxs| ==> idxs[k] < |doc|
  {
    if idxs == [] then []
    else
      Contribution(doc[idxs[0]]) + BlockTexts(doc, idxs[1..])
  }

  /** The blocks met walking from `cur` through later siblings up to the next heading. */
  function WalkTexts(doc: Document, cur: Option<nat>): seq<string>
    requires InPage(doc, cur)
  {
    BlockTexts(doc, UntilHeading(doc, Siblings(doc, cur)))
  }

  /** The blocks of the section that starts at heading `h`: those of its later siblings, up to the next heading. */
  function SectionBlocks(doc: Document, h: nat): seq<string>
    requires h < |doc|
  {
    WalkTexts(doc, doc[h].nextSibling)
  }

  /** The text of the section whose heading first matches `sectionTitle`, or `""` when none does. */
  function SectionText(doc: Document, sectionTitle: string): string {
    match FindHeading(doc, sectionTitle, 0)
    case None => ""
    case Some(h) => Join(SectionBlocks(doc, h), "\n\n")
  }

  /**
   * One step of the sibling walk past a non-heading element: what was
   * collected so far, followed by the rest of the walk, stays the same once
   * the element's contribution is collected and the walk moves on.
   */
  lemma WalkStep(doc: Document, i: nat, content: seq<string>)
    requires i < |doc| && !IsHeading(doc[i])
    ensures content + WalkTexts(doc, Some(i)) ==
              (content + Contribution(doc[i])) + WalkTexts(doc, doc[i].nextSibling)
  {
    var rest := Siblings(doc, doc[i].nextSibling);
    assert Siblings(doc, Some(i)) == [i] + rest;
    assert ([i] + rest)[1..] == rest;
    assert UntilHeading(doc, [i] + rest) == [i] + UntilHeading(doc, rest);
    assert ([i] + UntilHeading(doc, rest))[1..] == UntilHeading(doc, rest);
  }

  /** The walk ends when no sibling is left or a heading is reached: nothing more is collected. */
  lemma WalkEnd(doc: Document, cur: Option<nat>)
    requires InPage(doc, cur)
    requires cur.None? || IsHeading(doc[cur.value])
    ensures WalkTexts(doc, cur) == []
  {
  }

  /**
   * `_extract_text_from_section`: find the first matching heading, then walk
   * its later siblings up to the next heading, collecting the non-empty texts
   * of paragraphs and lists, and join them with a blank line.
   */
  method ExtractTextFromSection(doc: Document, sectionTitle: string) returns (text: string)
    ensures text == SectionText(doc, sectionTitle)
    ensures FindHeading(doc, sectionTitle, 0).None? ==> text == ""
  {
    var header := FindHeading(doc, sectionTitle, 0);
    if header.None? {
      return "";
    }
    var content: seq<string> := [];
    var current := doc[header.value].nextSibling;
    while current.Some? && !IsHeading(doc[current.value])
      invariant InPage(doc, current)
      invariant content + WalkTexts(doc, current) == SectionBlocks(doc, header.value)
      decreases if current.Some? then |doc| - current.value else 0
    {
      WalkStep(doc, current.value, content);
      var node := doc[current.value];
      ghost var before := content;
      if IsBlock(node) {
        var blockText := node.strippedText;
        if blockText != "" {
          content := content + [blockText];
        }
      }
      assert content == before + Contribution(node);
      current := node.nextSibling;
    }
    WalkEnd(doc, current);
    assert content == SectionBlocks(doc, header.value);
    return Join(content, "\n\n");
  }

  /** The sibling walk only visits later elements, in increasing order. */
  lemma {:induction false} SiblingsIncrease(doc: Document, cur: Option<nat>)
    requires InPage(doc, cur)
    ensures forall k :: 0 <= k < |Siblings(doc, cur)| ==> cur.value <= Siblings(doc, cur)[k]
    ensures forall j, k :: 0 <= j < k < |Siblings(doc, cur)| ==> Siblings(doc, cur)[j] < Siblings(doc, cur)[k]
    decreases if cur.Some? then |doc| - cur.value else 0
  {
    if cur.Some? {
      SiblingsIncrease(doc, doc[cur.value].nextSibling);
    }
  }

  /**
   * Nothing at or after the next heading contributes: when the sibling walk
   * meets its first heading at position `n`, the section's blocks are those
   * of the elements before it, whatever follows.
   */
  lemma {:induction false} StopsAtHeading(doc: Document, idxs: seq<nat>, n: nat)
    requires forall k :: 0 <= k < |idxs| ==> idxs[k] < |doc|
    requires n < |idxs| && IsHeading(doc[idxs[n]])
    requires forall k :: 0 <= k < n ==> !IsHeading(doc[idxs[k]])
    ensures BlockTexts(doc, UntilHeading(doc, idxs)) == BlockTexts(doc, idxs[..n])
    decreases n
  {
    if n == 0 {
      assert UntilHeading(doc, idxs) == [];
    } else {
      var rest := UntilHeading(doc, idxs[1..]);
      StopsAtHeading(doc, idxs[1..], n - 1);
      assert UntilHeading(doc, idxs) == [idxs[0]] + rest;
      assert ([idxs[0]] + rest)[1..] == rest;
      assert idxs[..n][1..] == idxs[1..][..n - 1];
    }
  }

  /**
   * Every collected block is the non-empty text of a paragraph or list
   * among the elements walked: other tags contribute nothing.
   */
  lemma {:induction false} BlocksFromParagraphsAndLists(doc: Document, idxs: seq<nat>, t: string)
    requires forall k :: 0 <= k < |idxs| ==> idxs[k] < |doc|
    requires t in BlockTexts(doc, idxs)
    ensures t != "" && exists k :: 0 <= k < |idxs| && IsBlock(doc[idxs[k]]) && doc[idxs[k]].strippedText == t
    decreases |idxs|
  {
    var n := doc[idxs[0]];
    if !(IsBlock(n) && n.strippedText != "" && n.strippedText == t) {
      BlocksFromParagraphsAndLists(doc, idxs[1..], t);
      var k :| 0 <= k < |idxs[1..]| && IsBlock(doc[idxs[1..][k]]) && doc[idxs[1..][k]].strippedText == t;
      assert idxs[k + 1] == idxs[1..][k];
    }
  }

  /** Position of the first `title` element at or after `from`: `soup.find('title')`. */
  function FindTitle(doc: Document, from: nat): (r: Option<nat>)
    ensures r.Some? ==> from <= r.value < |doc| && doc[r.value].name == "title"
    ensures r.Some? ==> forall j :: from <= j < r.value ==> doc[j].name != "title"
    ensures r.None? ==> forall j :: from <= j < |doc| ==> doc[j].name != "title"
    decreases |doc| - from
  {
    if from >= |doc| then None
    else if doc[from].name == "title" then Some(from)
    else FindTitle(doc, from + 1)
  }

  const UnknownDisease := "Unknown Disease"
  const TitleSeparator := " - "

  /**
   * The disease name: the text of the first `title` element up to the first
   * `" - "`, all of it when there is none, or "Unknown Disease" when the
   * page has no `title` element.
   */
  function DiseaseName(doc: Document): (name: string)
    ensures FindTitle(doc, 0).None? ==> name == UnknownDisease
    ensures FindTitle(doc, 0).Some? ==>
              var title := doc[FindTitle(doc, 0).value].text;
              && |name| <= |title| && title[..|name|] == name
              && (forall j :: 0 <= j < |name| ==> !OccursAt(title, TitleSeparator, j))
              && (name == title || OccursAt(title, TitleSeparator, |name|))
  {
    match FindTitle(doc, 0)
    case None => UnknownDisease
    case Some(t) => BeforeFirst(doc[t].text, TitleSeparator)
  }
}
