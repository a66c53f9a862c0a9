/** The client's `renderMarkdown` helper (src/components/Home.jsx): a reply
    chunk is split into lines, blank lines are dropped, lines opening with a
    list marker become list items with the marker removed, and all other
    lines become paragraphs. The JSX it builds is reduced to the two lists of
    texts. */
module Markdown {
  import opened ChatTypes
  import opened JsText

  /** What the helper renders: nothing (`null`), or a block holding the list
      items and the paragraphs, each group in line order. */
  datatype Rendered = Nothing | Block(listItems: seq<string>, paragraphs: seq<string>)

  /** A whole marker of the pattern: `*`, `-`, or digits followed by `.`. */
  predicate IsMarker(p: string) {
    || p == "*"
    || p == "-"
    || (|p| >= 2 && p[|p| - 1] == '.' && forall i :: 0 <= i < |p| - 1 ==> IsDigit(p[i]))
  }

  /** `p` is a word of the regular language `(\*|-|\d+\.)\s+`. */
  ghost predicate MatchesListPattern(p: string) {
    exists m :: 0 < m < |p| && IsMarker(p[..m]) && AllWhitespace(p[m..])
  }

  /** Length of the run of digits `s` starts with. */
  function DigitRun(s: string): (n: nat)
    ensures n <= |s|
    ensures forall i :: 0 <= i < n ==> IsDigit(s[i])
    ensures n < |s| ==> !IsDigit(s[n])
  {
    if |s| > 0 && IsDigit(s[0]) then 1 + DigitRun(s[1..]) else 0
  }

  /** Length of the run of white space `s` starts with (`\s+` is greedy). */
  function SpaceRun(s: string): (n: nat)
    ensures n <= |s|
    ensures forall i :: 0 <= i < n ==> IsJsWhitespace(s[i])
    ensures n < |s| ==> !IsJsWhitespace(s[n])
  {
    if |s| > 0 && IsJsWhitespace(s[0]) then 1 + SpaceRun(s[1..]) else 0
  }

  /** Length of the marker `line` opens with, if it opens with one. */
  function MarkerLength(line: string): (m: Option<nat>)
    ensures m.Some? ==> 0 < m.value <= |line| && IsMarker(line[..m.value])
  {
    if |line| == 0 then None
    else if line[0] == '*' || line[0] == '-' then Some(1)
    else
      var d := DigitRun(line);
      if 0 < d < |line| && line[d] == '.' then Some(d + 1) else None
  }

  /** How much of `line` the replacement of `^(\*|-|\d+\.)\s+` by "" removes:
      the marker and all the white space after it, when the pattern matches. */
  function ListPrefix(line: string): (n: Option<nat>)
    ensures n.Some? ==> 0 < n.value <= |line|
  {
    match MarkerLength(line)
    case None => None
    case Some(m) =>
      var w := SpaceRun(line[m..]);
      if w == 0 then None else Some(m + w)
  }

  /** Any marker at the start of `line` is the one `MarkerLength` finds. */
  lemma MarkerIsUnique(line: string, m: nat)
    requires 0 < m <= |line| && IsMarker(line[..m])
    ensures MarkerLength(line) == Some(m)
  {
    var p := line[..m];
    assert p[0] == line[0];
    if line[0] != '*' && line[0] != '-' {
      var d := DigitRun(line);
      assert p != "*" && p != "-";
      assert forall i :: 0 <= i < m - 1 ==> IsDigit(line[i]) by {
        forall i | 0 <= i < m - 1 ensures IsDigit(line[i]) {
          assert p[i] == line[i];
        }
      }
      assert line[m - 1] == '.' by { assert p[m - 1] == line[m - 1]; }
      assert d == m - 1;
    }
  }

  /** `ListPrefix` computes what JavaScript's regular expression matches: the
      longest prefix of `line` in the language of the pattern, and nothing
      when no prefix is. */
  lemma ListPrefixIsLongestMatch(line: string)
    ensures ListPrefix(line).Some? ==>
      var n := ListPrefix(line).value;
      && MatchesListPattern(line[..n])
      && forall k :: n < k <= |line| ==> !MatchesListPattern(line[..k])
    ensures ListPrefix(line).None? ==> forall k :: 0 <= k <= |line| ==> !MatchesListPattern(line[..k])
  {
    forall k, m | 0 <= k <= |line| && 0 < m < k && IsMarker(line[..k][..m]) && AllWhitespace(line[..k][m..])
      ensures ListPrefix(line).Some? && k <= ListPrefix(line).value
    {
      assert line[..k][..m] == line[..m];
      MarkerIsUnique(line, m);
      var w := SpaceRun(line[m..]);
      assert IsJsWhitespace(line[..k][m]);
      assert IsJsWhitespace(line[m..][0]);
      assert forall i :: 0 <= i < k - m ==> line[m..][i] == line[..k][m..][i];
    }
    if ListPrefix(line).Some? {
      var n := ListPrefix(line).value;
      var m := MarkerLength(line).value;
      assert line[..n][..m] == line[..m];
      assert forall i :: m <= i < n ==> line[..n][i] == line[m..][i - m];
      assert AllWhitespace(line[..n][m..]);
    }
  }

  /** A line that begins with white space is never a list item, even when a
      marker follows: the pattern is anchored at the first character. */
  lemma IndentedLineIsNotListItem(line: string)
    requires |line| > 0 && IsJsWhitespace(line[0])
    ensures ListPrefix(line).None?
  {
  }

  /** The greedy `\s+` takes all the white space after the marker, so a list
      item never starts with white space. */
  lemma ListItemHasNoLeadingBlank(line: string)
    requires ListPrefix(line).Some?
    ensures var n := ListPrefix(line).value;
            n == |line| || !IsJsWhitespace(line[n])
  {
    var m := MarkerLength(line).value;
    var n := ListPrefix(line).value;
    if n < |line| {
      assert line[n] == line[m..][n - m];
    }
  }

  /** The lines of a chunk that survive the blank-line filter. */
  function NonBlank(lines: seq<string>): (r: seq<string>)
    ensures |r| <= |lines|
    ensures forall i :: 0 <= i < |r| ==> Trim(r[i]) != ""
    ensures forall l :: l in r <==> l in lines && Trim(l) != ""
  {
    if |lines| == 0 then []
    else
      var rest := NonBlank(lines[1..]);
      assert forall l :: l in lines <==> l == lines[0] || l in lines[1..];
      if Trim(lines[0]) != "" then [lines[0]] + rest else rest
  }

  /** `t` is what `line` renders as a list item: the line matches and `t` is
      the line with the matched prefix replaced by "". */
  predicate IsItemOf(line: string, t: string) {
    ListPrefix(line).Some? && t == line[ListPrefix(line).value..]
  }

  /** Texts of the list items among `lines`, markers removed, in order. */
  function ListItems(lines: seq<string>): seq<string> {
    if |lines| == 0 then []
    else
      var rest := ListItems(lines[1..]);
      match ListPrefix(lines[0])
      case Some(n) => [lines[0][n..]] + rest
      case None => rest
  }

  /** The lines among `lines` that are not list items, in order. */
  function Paragraphs(lines: seq<string>): seq<string> {
    if |lines| == 0 then []
    else
      var rest := Paragraphs(lines[1..]);
      if ListPrefix(lines[0]).None? then [lines[0]] + rest else rest
  }

  /** The non-blank lines of a chunk, split at line feeds. */
  function ContentLines(chunk: string): seq<string> {
    NonBlank(Split(chunk, '\n'))
  }

  /** `renderMarkdown`: a block whose list items and paragraphs together
      account for every non-blank line, or nothing when there is none. */
  function RenderMarkdown(chunk: string): (r: Rendered)
    ensures r.Nothing? <==> ContentLines(chunk) == []
    ensures r.Block? ==> |r.listItems| + |r.paragraphs| == |ContentLines(chunk)| > 0
    ensures r.Block? ==>
      r.listItems == ListItems(ContentLines(chunk)) && r.paragraphs == Paragraphs(ContentLines(chunk))
  {
    var lines := ContentLines(chunk);
    var items := ListItems(lines);
    var paragraphs := Paragraphs(lines);
    PartitionCount(lines);
    if |items| > 0 then Block(items, paragraphs)
    else if |paragraphs| > 0 then Block([], paragraphs)
    else Nothing
  }

  /** The list items are exactly the matching lines with their marker and the
      white space after it removed. */
  lemma {:induction false} ListItemsAreStrippedLines(lines: seq<string>)
    ensures forall t :: t in ListItems(lines) <==> exists l :: l in lines && IsItemOf(l, t)
  {
    if |lines| > 0 {
      var head, tail := lines[0], lines[1..];
      ListItemsAreStrippedLines(tail);
      assert forall l :: l in lines <==> l == head || l in tail;
      var rest := ListItems(tail);
      forall t
        ensures t in ListItems(lines) <==> exists l :: l in lines && IsItemOf(l, t)
      {
        match ListPrefix(head)
        case None =>
          assert ListItems(lines) == rest;
          assert !IsItemOf(head, t);
        case Some(n) =>
          assert ListItems(lines) == [head[n..]] + rest;
          assert IsItemOf(head, t) <==> t == head[n..];
      }
    }
  }

  /** The paragraphs are exactly the lines that do not match, unchanged. */
  lemma {:induction false} ParagraphsAreUnmatchedLines(lines: seq<string>)
    ensures forall l :: l in Paragraphs(lines) <==> l in lines && ListPrefix(l).None?
  {
    if |lines| > 0 {
      ParagraphsAreUnmatchedLines(lines[1..]);
      assert forall l :: l in lines <==> l == lines[0] || l in lines[1..];
    }
  }

  /** What a rendered block shows: every non-blank line of the chunk either
      as a list item with its marker stripped, when it matches, or as a
      paragraph unchanged, when it does not. */
  lemma {:induction false} RenderedLines(chunk: string)
    ensures var r := RenderMarkdown(chunk);
            r.Block? ==>
              && (forall t :: t in r.listItems <==>
                    exists l :: l in Split(chunk, '\n') && Trim(l) != "" && IsItemOf(l, t))
              && (forall l :: l in r.paragraphs <==>
                    l in Split(chunk, '\n') && Trim(l) != "" && ListPrefix(l).None?)
  {
    var lines := ContentLines(chunk);
    ListItemsAreStrippedLines(lines);
    ParagraphsAreUnmatchedLines(lines);
  }

  /** Every line is either a list item or a paragraph, never both. */
  lemma {:induction false} PartitionCount(lines: seq<string>)
    ensures |ListItems(lines)| + |Paragraphs(lines)| == |lines|
  {
    if |lines| > 0 {
      PartitionCount(lines[1..]);
    }
  }

  /** Extracting list items commutes with concatenation, so the items keep
      the relative order of their lines. */
  lemma {:induction false} ListItemsAppend(a: seq<string>, b: seq<string>)
    ensures ListItems(a + b) == ListItems(a) + ListItems(b)
  {
    if |a| == 0 {
      assert a + b == b;
    } else {
      assert (a + b)[0] == a[0];
      assert (a + b)[1..] == a[1..] + b;
      ListItemsAppend(a[1..], b);
    }
  }

  /** Paragraphs keep the relative order of their lines. */
  lemma {:induction false} ParagraphsAppend(a: seq<string>, b: seq<string>)
    ensures Paragraphs(a + b) == Paragraphs(a) + Paragraphs(b)
  {
    if |a| == 0 {
      assert a + b == b;
    } else {
      assert (a + b)[0] == a[0];
      assert (a + b)[1..] == a[1..] + b;
      ParagraphsAppend(a[1..], b);
    }
  }

  /** Dropping blank lines keeps the others in order. */
  lemma {:induction false} NonBlankAppend(a: seq<string>, b: seq<string>)
    ensures NonBlank(a + b) == NonBlank(a) + NonBlank(b)
  {
    if |a| == 0 {
      assert a + b == b;
    } else {
      assert (a + b)[0] == a[0];
      assert (a + b)[1..] == a[1..] + b;
      NonBlankAppend(a[1..], b);
    }
  }

  lemma {:induction false} NonBlankEmptyIff(lines: seq<string>)
    ensures NonBlank(lines) == [] <==> forall i :: 0 <= i < |lines| ==> AllWhitespace(lines[i])
  {
    if |lines| > 0 {
      NonBlankEmptyIff(lines[1..]);
      TrimBlankIff(lines[0]);
      if forall i :: 0 <= i < |lines[1..]| ==> AllWhitespace(lines[1..][i]) {
        if AllWhitespace(lines[0]) {
          forall i | 0 <= i < |lines| ensures AllWhitespace(lines[i]) {
            if i > 0 { assert lines[i] == lines[1..][i - 1]; }
          }
        }
      } else {
        var i :| 0 <= i < |lines[1..]| && !AllWhitespace(lines[1..][i]);
        assert lines[1..][i] == lines[i + 1];
      }
    }
  }

  /** The helper renders nothing exactly when the chunk is all white space
      (line feeds included). */
  lemma RenderNothingIffBlank(chunk: string)
    ensures RenderMarkdown(chunk) == Nothing <==> AllWhitespace(chunk)
  {
    var lines := Split(chunk, '\n');
    PartitionCount(ContentLines(chunk));
    NonBlankEmptyIff(lines);
    JoinSplit(chunk, '\n');
    JoinAllWhitespace(lines, '\n');
  }
}
