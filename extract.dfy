/**
 `extract_template_fields` (main.py:16-30): the text of every page, in page
 order, is appended to one string, whose whitespace is then collapsed and
 whose colons are then split onto their own lines.  The PDF reader is not
 modelled: a document is the sequence of strings its pages' text
 extraction returns.
 */
module Extract {
  import opened Whitespace
  import opened Colons

  /** The page texts appended in page order with nothing between them, as
      the loop at main.py:20-22 builds it (a left fold). */
  function Concat(pages: seq<string>): string {
    if pages == [] then [] else Concat(pages[..|pages| - 1]) + pages[|pages| - 1]
  }

  /** The text `extract_template_fields` returns for a document whose pages
      extract to `pages`. */
  function Normalize(pages: seq<string>): string {
    SplitColons(Collapse(Concat(pages)))
  }

  /** main.py:16-30 as the source writes it: a loop that grows `text` page
      by page, then the collapse and the two colon passes. */
  method ExtractTemplateFields(pages: seq<string>) returns (text: string)
    ensures text == Normalize(pages)
  {
    text := "";
    for k := 0 to |pages|
      invariant text == Concat(pages[..k])
    {
      assert pages[..k + 1][..k] == pages[..k];
      text := text + pages[k];
    }
    assert pages[..|pages|] == pages;
    text := Collapse(text);
    text := ReplaceAll(text, ": ", ":\n");
    text := ReplaceAll(text, ":", ":\n");
  }

  // ---------------------------------------------------------------------
  // Page order

  lemma {:induction false} ConcatAppend(a: seq<string>, b: seq<string>)
    ensures Concat(a + b) == Concat(a) + Concat(b)
    decreases |b|
  {
    if b == [] {
      assert a + b == a;
    } else {
      var n := |b| - 1;
      assert a + b == (a + b[..n]) + [b[n]];
      assert b == b[..n] + [b[n]];
      ConcatSnoc(a + b[..n], b[n]);
      ConcatSnoc(b[..n], b[n]);
      ConcatAppend(a, b[..n]);
    }
  }

  /** Each page's text stands in the concatenation exactly after the
      earlier pages' text and before the later pages' text, with no
      separator on either side. */
  lemma ConcatPageAt(pages: seq<string>, k: nat)
    requires k < |pages|
    ensures Concat(pages) == Concat(pages[..k]) + pages[k] + Concat(pages[k + 1..])
  {
    SplitAt(pages, k);
    ConcatThree(pages[..k], pages[k], pages[k + 1..]);
  }

  lemma SplitAt(pages: seq<string>, k: nat)
    requires k < |pages|
    ensures pages == pages[..k] + [pages[k]] + pages[k + 1..]
  {
  }

  lemma ConcatThree(front: seq<string>, page: string, back: seq<string>)
    ensures Concat(front + [page] + back) == Concat(front) + page + Concat(back)
  {
    ConcatAppend(front + [page], back);
    ConcatSnoc(front, page);
  }

  lemma ConcatSnoc(front: seq<string>, page: string)
    ensures Concat(front + [page]) == Concat(front) + page
  {
    assert (front + [page])[..|front|] == front;
  }

  lemma AllSpaceAppend(a: string, b: string)
    ensures AllSpace(a + b) <==> AllSpace(a) && AllSpace(b)
  {
    if AllSpace(a + b) {
      assert forall i :: 0 <= i < |a| ==> a[i] == (a + b)[i];
      assert forall i :: 0 <= i < |b| ==> b[i] == (a + b)[|a| + i];
    }
  }

  /** The concatenation is all whitespace exactly when every page is. */
  lemma {:induction false} ConcatBlank(pages: seq<string>)
    ensures AllSpace(Concat(pages)) <==> forall k :: 0 <= k < |pages| ==> AllSpace(pages[k])
  {
    if pages != [] {
      var n := |pages| - 1;
      ConcatBlank(pages[..n]);
      AllSpaceAppend(Concat(pages[..n]), pages[n]);
      assert forall k :: 0 <= k < n ==> pages[..n][k] == pages[k];
    }
  }

  // ---------------------------------------------------------------------
  // What extract_template_fields promises

  lemma CollapsedSpacesSeparate(t: string)
    requires Collapsed(t)
    ensures SpacesSeparate(t)
    ensures NoNewline(t)
  {
    forall i | 0 <= i < |t| && IsSpace(t[i])
      ensures t[i] == ' ' && i + 1 < |t| && !IsSpace(t[i + 1])
    {
      assert i != |t| - 1;
    }
    assert IsSpace('\n');
  }

  /** Every colon of the template text is immediately followed by a line
      break. */
  lemma NormalizeColonsEndLines(pages: seq<string>)
    ensures ColonsEndLines(Normalize(pages))
  {
    SplitColonsIsColonLines(Collapse(Concat(pages)));
    ColonLinesEndLines(Collapse(Concat(pages)));
  }

  /** Every line break of the template text is one the colon passes
      inserted: it follows a colon, or a colon and the line break the first
      pass put there. */
  lemma NormalizeNewlines(pages: seq<string>)
    ensures NewlinesFollowColons(Normalize(pages))
  {
    var t := Collapse(Concat(pages));
    CollapseIsCollapsed(Concat(pages));
    CollapsedSpacesSeparate(t);
    SplitColonsIsColonLines(t);
    ColonLinesNewlines(t);
  }

  /** The template text starts with a non-whitespace character, holds no
      whitespace but spaces and line breaks, and each of its spaces sits
      between two non-whitespace characters. */
  lemma NormalizeSpacing(pages: seq<string>)
    ensures SpacedLines(Normalize(pages))
    ensures |Normalize(pages)| > 0 ==> !IsSpace(Normalize(pages)[0])
  {
    var t := Collapse(Concat(pages));
    CollapseIsCollapsed(Concat(pages));
    CollapsedSpacesSeparate(t);
    SplitColonsIsColonLines(t);
    ColonLinesSpacing(t);
  }

  /** The template text holds the non-whitespace characters of the pages,
      in page order, and no others: no colon is added or lost. */
  lemma NormalizeKeepsText(pages: seq<string>)
    ensures NonSpace(Normalize(pages)) == NonSpace(Concat(pages))
  {
    var t := Collapse(Concat(pages));
    SplitColonsIsColonLines(t);
    ColonLinesKeepsNonSpace(t);
    CollapseKeepsNonSpace(Concat(pages));
  }

  /** Apart from the line breaks it inserts, the colon stage only removes
      the space after each colon of the collapsed text. */
  lemma NormalizeOnlyInsertsNewlines(pages: seq<string>)
    ensures DropNewlines(Normalize(pages)) == DropSpaceAfterColon(Collapse(Concat(pages)))
  {
    var t := Collapse(Concat(pages));
    CollapseIsCollapsed(Concat(pages));
    CollapsedSpacesSeparate(t);
    SplitColonsIsColonLines(t);
    ColonLinesOnlyInsertsNewlines(t);
  }

  /** The template text is empty exactly when every page's text is empty
      or whitespace only. */
  lemma NormalizeEmpty(pages: seq<string>)
    ensures Normalize(pages) == [] <==> forall k :: 0 <= k < |pages| ==> AllSpace(pages[k])
  {
    var t := Collapse(Concat(pages));
    SplitColonsIsColonLines(t);
    CollapseEmpty(Concat(pages));
    ConcatBlank(pages);
  }

  /** A one-page template made of three labels separated by single
      spaces, such as "Name: Objective: Standard:", becomes
      "Name:\n\nObjective:\n\nStandard:\n": two line breaks after a label
      that a space followed, one after the last. */
  lemma NormalizeThreeLabels(a: string, b: string, c: string)
    requires NoSpace(a) && NoSpace(b) && NoSpace(c)
    requires ':' !in a && ':' !in b && ':' !in c
    ensures Normalize([a + ": " + b + ": " + c + ":"]) == a + ":\n\n" + b + ":\n\n" + c + ":\n"
  {
    var x := a + ": " + b + ": " + c + ":";
    var ws := [a + ":", b + ":", c + ":"];
    LabelIsWord(a);
    LabelIsWord(b);
    LabelIsWord(c);
    assert ws[1..] == [b + ":", c + ":"] && ws[1..][1..] == [c + ":"];
    calc {
      Join(ws, " ");
      (a + ":") + " " + Join(ws[1..], " ");
      (a + ":") + " " + ((b + ":") + " " + Join(ws[1..][1..], " "));
      (a + ":") + " " + ((b + ":") + " " + (c + ":"));
      x;
    }
    WordsOfJoin(ws);
    assert [x][..0] == [];
    assert Concat([x]) == x;
    SplitColonsIsColonLines(x);
    ColonLinesThreeLabels(a, b, c);
  }

  lemma LabelIsWord(a: string)
    requires NoSpace(a)
    ensures NoSpace(a + ":") && a + ":" != []
  {
    assert forall i :: 0 <= i < |a| ==> (a + ":")[i] == a[i];
    assert (a + ":")[|a|] == ':';
  }
}
