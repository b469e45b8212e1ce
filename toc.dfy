/**
 * The table-of-contents builder. The h2/h3 headings of the article
 * container, in document order, are an array whose ids are filled in in
 * place; the table is a block of one link entry per heading, inserted after
 * the container's first paragraph.
 */
module Toc {
  import opened Strings

  /**
   * A collected heading. `id` is the element's id, "" when it has none
   * (as the DOM reports it); `tagName` is the element's tag name ("H2" or
   * "H3" in an HTML page).
   */
  datatype Heading = Heading(id: string, tagName: string, text: string)

  /** One `<li class=…><a href=…>text</a></li>` of the table. */
  datatype Entry = Entry(className: string, href: string, text: string)

  /** The `<div class="table-of-contents">` block with its title and list. */
  datatype TocBlock = TocBlock(className: string, title: string, entries: seq<Entry>)

  /** Fewer headings than this and no table is built. */
  const MinHeadings := 3
  const IdPrefix := "heading-"
  const TocClass := "table-of-contents"
  const TocTitle := "Table of Contents"

  /**
   * The id given to the heading at position `index` when it has none:
   * "heading-" followed by the decimal numeral of the position.
   */
  function GeneratedId(index: nat): (r: string)
    ensures |r| > |IdPrefix| && r[..|IdPrefix|] == IdPrefix
    ensures DecimalValue(r[|IdPrefix|..]) == index
    ensures forall k :: |IdPrefix| <= k < |r| ==> '0' <= r[k] <= '9'
    ensures r[|IdPrefix|] == '0' ==> r == IdPrefix + "0"
  {
    assert (IdPrefix + NatToString(index))[|IdPrefix|..] == NatToString(index);
    IdPrefix + NatToString(index)
  }

  /**
   * The heading at position `index` once the loop has seen it: it has a
   * non-empty id, an existing id is kept, and tag and text are untouched.
   */
  function WithId(h: Heading, index: nat): (r: Heading)
    ensures r.id != ""
    ensures h.id != "" ==> r == h
    ensures h.id == "" ==> r.id == GeneratedId(index)
    ensures r.tagName == h.tagName && r.text == h.text
  {
    if h.id == "" then h.(id := GeneratedId(index)) else h
  }

  /**
   * All headings after id assignment: every heading has a non-empty id, an
   * existing id is kept, a missing one becomes "heading-" followed by the
   * position; tag and text are untouched.
   */
  function WithIds(hs: seq<Heading>): (r: seq<Heading>)
    ensures |r| == |hs|
    ensures forall k :: 0 <= k < |hs| ==> r[k].id != ""
    ensures forall k :: 0 <= k < |hs| && hs[k].id != "" ==> r[k].id == hs[k].id
    ensures forall k :: 0 <= k < |hs| && hs[k].id == "" ==> r[k].id == GeneratedId(k)
    ensures forall k :: 0 <= k < |hs| ==> r[k].tagName == hs[k].tagName && r[k].text == hs[k].text
  {
    seq(|hs|, k requires 0 <= k < |hs| => WithId(hs[k], k))
  }

  /**
   * The list entry for one heading: a fragment link "#" + id, the
   * lower-cased tag as class, the heading's text.
   */
  function EntryFor(h: Heading): (r: Entry)
    ensures |r.href| == |h.id| + 1 && r.href[0] == '#' && r.href[1..] == h.id
    ensures r.className == ToLower(h.tagName)
    ensures r.text == h.text
  {
    Entry(ToLower(h.tagName), "#" + h.id, h.text)
  }

  /** One entry per heading, in order, each linking to its heading. */
  function Entries(hs: seq<Heading>): (r: seq<Entry>)
    ensures |r| == |hs|
    ensures forall k :: 0 <= k < |hs| ==> |r[k].href| == |hs[k].id| + 1 && r[k].href[0] == '#' && r[k].href[1..] == hs[k].id
    ensures forall k :: 0 <= k < |hs| ==> r[k].className == ToLower(hs[k].tagName) && r[k].text == hs[k].text
  {
    seq(|hs|, k requires 0 <= k < |hs| => EntryFor(hs[k]))
  }

  /**
   * The table for a list of headings whose ids are already assigned: the
   * "table-of-contents" block titled "Table of Contents", with one entry
   * per heading, in order, linking to that heading's id.
   */
  function BlockFor(hs: seq<Heading>): (r: TocBlock)
    ensures r.className == TocClass && r.title == TocTitle
    ensures |r.entries| == |hs|
    ensures forall k :: 0 <= k < |hs| ==> r.entries[k].href == "#" + hs[k].id && r.entries[k].text == hs[k].text
  {
    TocBlock(TocClass, TocTitle, Entries(hs))
  }

  /**
   * Entry `k` of the table links to heading `k`: its href is "#" followed
   * by that heading's final, non-empty id, its class is the lower-cased
   * tag, its text the heading's text.
   */
  lemma EntryLinksHeading(hs: seq<Heading>, k: nat)
    requires k < |hs|
    ensures var e := Entries(WithIds(hs))[k];
            |e.href| >= 2 && e.href == "#" + WithIds(hs)[k].id &&
            e.className == ToLower(hs[k].tagName) && e.text == hs[k].text
  {
  }

  /** The class of an entry is "h2" or "h3" for the tags HTML reports. */
  lemma EntryClassIsLowerTag(h: Heading)
    requires h.tagName == "H2" || h.tagName == "H3"
    ensures EntryFor(h).className == if h.tagName == "H2" then "h2" else "h3"
  {
  }

  /** Two headings without an id get different generated ids. */
  lemma GeneratedIdsDistinct(hs: seq<Heading>, i: nat, j: nat)
    requires i < |hs| && j < |hs| && i != j
    requires hs[i].id == "" && hs[j].id == ""
    ensures WithIds(hs)[i].id != WithIds(hs)[j].id
  {
  }

  /**
   * When the final ids are pairwise distinct, the fragment of entry `k`
   * names heading `k` and no other, so every link lands on its own heading.
   */
  lemma EntryTargetUnique(hs: seq<Heading>, k: nat, j: nat)
    requires k < |hs| && j < |hs|
    requires forall a, b :: 0 <= a < b < |hs| ==> WithIds(hs)[a].id != WithIds(hs)[b].id
    requires Entries(WithIds(hs))[k].href == "#" + WithIds(hs)[j].id
    ensures j == k
  {
    var x, y := WithIds(hs)[k].id, WithIds(hs)[j].id;
    assert ("#" + x)[1..] == x;
    assert ("#" + y)[1..] == y;
  }

  /** The article container: its headings, whether it has a paragraph, and the tables inserted after its first paragraph. */
  class Article {
    const headings: array<Heading>
    const hasParagraph: bool
    var inserted: seq<TocBlock>

    constructor (hs: seq<Heading>, paragraph: bool)
      ensures headings[..] == hs && fresh(headings)
      ensures hasParagraph == paragraph && inserted == []
    {
      headings := new Heading[|hs|](k requires 0 <= k < |hs| => hs[k]);
      hasParagraph := paragraph;
      inserted := [];
    }
  }

  /**
   * `generateTOC`. With no container, or fewer than three headings, nothing
   * changes. Otherwise every heading without an id gets one, and the table
   * of their entries is inserted if the container has a paragraph; ids are
   * assigned either way.
   */
  method GenerateToc(content: Article?)
    modifies if content == null then {} else {content as object, content.headings as object}
    ensures content != null && content.headings.Length < MinHeadings ==>
              content.headings[..] == old(content.headings[..]) &&
              content.inserted == old(content.inserted)
    ensures content != null && content.headings.Length >= MinHeadings ==>
              content.headings[..] == WithIds(old(content.headings[..])) &&
              content.inserted == old(content.inserted) +
                (if content.hasParagraph then [BlockFor(content.headings[..])] else [])
  {
    if content == null {
      return;
    }
    var headings := content.headings;
    if headings.Length < MinHeadings {
      return;
    }
    var entries: seq<Entry> := [];
    for index := 0 to headings.Length
      modifies headings
      invariant headings[..index] == WithIds(old(headings[..]))[..index]
      invariant headings[index..] == old(headings[index..])
      invariant entries == Entries(headings[..index])
    {
      if headings[index].id == "" {
        headings[index] := headings[index].(id := GeneratedId(index));
      }
      entries := entries + [EntryFor(headings[index])];
    }
    assert headings[..headings.Length] == headings[..];
    if content.hasParagraph {
      content.inserted := content.inserted + [TocBlock(TocClass, TocTitle, entries)];
    }
  }
}
