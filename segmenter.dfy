/** Splitting a page's text into entry blocks, one per heading line
    (find_entries_on_page). */
module Segmenter {
  import opened Wrappers
  import opened Text
  import opened Heading

  /** An entry block: the index of its heading line on the page and the
      lines that belong to it, heading first. */
  datatype Block = Block(startLine: nat, lines: seq<string>)

  /** The block's text, its lines joined by newlines. */
  function BlockText(b: Block): string {
    JoinLines(b.lines)
  }

  /** The site attribution printed in every page footer. */
  const SiteMarker := "RVingwithBikes.Com"

  /** A page-footer artifact: the site attribution or a `Page N` line. */
  predicate IsFooter(line: string) {
    Contains(line, SiteMarker) || StartsWith(Trim(line), "Page ")
  }

  /** How the segmenter treats a line. The heading test comes first, so a
      heading line is never dropped as a footer. */
  datatype LineKind = HeadingLine | FooterLine | TextLine

  function KindOf(line: string): LineKind {
    if IsHeadingLine(line) then HeadingLine
    else if IsFooter(line) then FooterLine
    else TextLine
  }

  /** The kind of every line of the page, in order. */
  function Kinds(lines: seq<string>): (r: seq<LineKind>)
    ensures |r| == |lines|
  {
    if |lines| == 0 then []
    else Kinds(lines[..|lines| - 1]) + [KindOf(lines[|lines| - 1])]
  }

  lemma {:induction false} KindsAt(lines: seq<string>, i: nat)
    requires i < |lines|
    ensures Kinds(lines)[i] == KindOf(lines[i])
    decreases |lines|
  {
    if i < |lines| - 1 {
      var p := lines[..|lines| - 1];
      KindsAt(p, i);
      assert Kinds(lines)[i] == Kinds(p)[i];
      assert p[i] == lines[i];
    }
  }

  /** The indices i < n of heading lines, ascending. */
  function Heads(kinds: seq<LineKind>, n: nat): (r: seq<nat>)
    requires n <= |kinds|
    ensures forall k :: 0 <= k < |r| ==> r[k] < n && kinds[r[k]] == HeadingLine
  {
    if n == 0 then []
    else
      var prev := Heads(kinds, n - 1);
      if kinds[n - 1] == HeadingLine then prev + [n - 1] else prev
  }

  /** The heading indices are strictly ascending. */
  lemma {:induction false} HeadsAscending(kinds: seq<LineKind>, n: nat)
    requires n <= |kinds|
    ensures forall a, b :: 0 <= a < b < |Heads(kinds, n)| ==> Heads(kinds, n)[a] < Heads(kinds, n)[b]
  {
    if n > 0 {
      HeadsAscending(kinds, n - 1);
    }
  }

  /** Where heading line i sits among the heading indices below n: every
      heading line is listed. */
  function HeadIndex(kinds: seq<LineKind>, n: nat, i: nat): (m: nat)
    requires i < n <= |kinds| && kinds[i] == HeadingLine
    ensures m < |Heads(kinds, n)| && Heads(kinds, n)[m] == i
  {
    if i < n - 1 then HeadIndex(kinds, n - 1, i) else |Heads(kinds, n - 1)|
  }

  /** The lines with index in [a, b) that are not footers, in order. */
  function Kept(lines: seq<string>, kinds: seq<LineKind>, a: nat, b: nat): seq<string>
    requires |kinds| == |lines| && b <= |lines|
    decreases b
  {
    if b <= a then []
    else Kept(lines, kinds, a, b - 1) + (if kinds[b - 1] == FooterLine then [] else [lines[b - 1]])
  }

  /** The block that starts at heading s and runs up to (not including) e. */
  function BlockFrom(lines: seq<string>, kinds: seq<LineKind>, s: nat, e: nat): Block
    requires |kinds| == |lines| && s < |lines| && e <= |lines|
  {
    Block(s, [lines[s]] + Kept(lines, kinds, s + 1, e))
  }

  /** Where the block of the j-th heading ends: at the next heading, or at
      the end n. */
  function NextStart(h: seq<nat>, j: nat, n: nat): nat
    requires j < |h|
  {
    if j + 1 < |h| then h[j + 1] else n
  }

  /** Line indices below n. */
  predicate Below(h: seq<nat>, n: nat) {
    forall k :: 0 <= k < |h| ==> h[k] < n
  }

  /** The blocks of all headings among h but the last, each running up to
      the heading after it. */
  function Closed(lines: seq<string>, kinds: seq<LineKind>, h: seq<nat>): (r: seq<Block>)
    requires |kinds| == |lines| && Below(h, |lines|)
    ensures |r| == if |h| == 0 then 0 else |h| - 1
    decreases |h|
  {
    if |h| <= 1 then []
    else Closed(lines, kinds, h[..|h| - 1]) + [BlockFrom(lines, kinds, h[|h| - 2], h[|h| - 1])]
  }

  /** The reference segmentation: one block per heading line, each running
      to the next heading or to the end of the page. */
  function SegmentBy(lines: seq<string>, kinds: seq<LineKind>): (r: seq<Block>)
    requires |kinds| == |lines|
    ensures |r| == |Heads(kinds, |lines|)|
  {
    var h := Heads(kinds, |lines|);
    if |h| == 0 then [] else Closed(lines, kinds, h) + [BlockFrom(lines, kinds, h[|h| - 1], |lines|)]
  }

  function Segment(lines: seq<string>): seq<Block> {
    SegmentBy(lines, Kinds(lines))
  }

  /** The j-th closed block is the block of heading h[j]. */
  lemma {:induction false} ClosedAt(lines: seq<string>, kinds: seq<LineKind>, h: seq<nat>, j: nat)
    requires |kinds| == |lines| && Below(h, |lines|) && j + 1 < |h|
    ensures Closed(lines, kinds, h)[j] == BlockFrom(lines, kinds, h[j], h[j + 1])
    decreases |h|
  {
    var h' := h[..|h| - 1];
    if j + 1 < |h'| {
      ClosedAt(lines, kinds, h', j);
      assert Closed(lines, kinds, h)[j] == Closed(lines, kinds, h')[j];
      assert h'[j] == h[j] && h'[j + 1] == h[j + 1];
    }
  }

  /** The j-th block of the segmentation is the block of the j-th heading,
      running to the next heading or to the end of the page. */
  lemma {:induction false} BlockAt(lines: seq<string>, kinds: seq<LineKind>, j: nat)
    requires |kinds| == |lines| && j < |Heads(kinds, |lines|)|
    ensures var h := Heads(kinds, |lines|);
      SegmentBy(lines, kinds)[j] == BlockFrom(lines, kinds, h[j], NextStart(h, j, |lines|))
  {
    var h := Heads(kinds, |lines|);
    if j + 1 < |h| {
      ClosedAt(lines, kinds, h, j);
    }
  }

  // ---------------------------------------------------------------------
  // Properties of the reference segmentation

  /** The number of heading lines among the first n. */
  function HeadingCount(kinds: seq<LineKind>, n: nat): nat
    requires n <= |kinds|
  {
    if n == 0 then 0
    else HeadingCount(kinds, n - 1) + (if kinds[n - 1] == HeadingLine then 1 else 0)
  }

  lemma {:induction false} HeadsCount(kinds: seq<LineKind>, n: nat)
    requires n <= |kinds|
    ensures |Heads(kinds, n)| == HeadingCount(kinds, n)
  {
    if n > 0 {
      HeadsCount(kinds, n - 1);
    }
  }

  /** A page with N heading lines yields exactly N blocks; with none it
      yields no block at all. */
  lemma {:induction false} SegmentCount(lines: seq<string>, kinds: seq<LineKind>)
    requires |kinds| == |lines|
    ensures |SegmentBy(lines, kinds)| == HeadingCount(kinds, |lines|)
    ensures HeadingCount(kinds, |lines|) == 0 ==> SegmentBy(lines, kinds) == []
  {
    HeadsCount(kinds, |lines|);
  }

  /** Where the k-th kept line of [a, b) comes from: a non-footer line of
      the range. */
  function KeptSource(lines: seq<string>, kinds: seq<LineKind>, a: nat, b: nat, k: nat): (i: nat)
    requires |kinds| == |lines| && b <= |lines| && k < |Kept(lines, kinds, a, b)|
    ensures a <= i < b && kinds[i] != FooterLine && lines[i] == Kept(lines, kinds, a, b)[k]
    decreases b
  {
    if b <= a then assert false; a
    else if k < |Kept(lines, kinds, a, b - 1)| then KeptSource(lines, kinds, a, b - 1, k)
    else b - 1
  }

  /** Every non-footer line of the range is kept. */
  lemma {:induction false} KeptComplete(lines: seq<string>, kinds: seq<LineKind>, a: nat, b: nat)
    requires |kinds| == |lines| && b <= |lines|
    ensures forall i :: a <= i < b && kinds[i] != FooterLine ==> lines[i] in Kept(lines, kinds, a, b)
    decreases b
  {
    if b > a {
      KeptComplete(lines, kinds, a, b - 1);
      assert Kept(lines, kinds, a, b)
          == Kept(lines, kinds, a, b - 1) + (if kinds[b - 1] == FooterLine then [] else [lines[b - 1]]);
    }
  }

  /** Each block starts with its heading line, found at its start_line. */
  lemma {:induction false} BlockHeading(lines: seq<string>, kinds: seq<LineKind>, j: nat)
    requires |kinds| == |lines| && j < |SegmentBy(lines, kinds)|
    ensures var b := SegmentBy(lines, kinds)[j];
      && b.startLine == Heads(kinds, |lines|)[j]
      && b.startLine < |lines| && kinds[b.startLine] == HeadingLine
      && |b.lines| > 0 && b.lines[0] == lines[b.startLine]
  {
    BlockAt(lines, kinds, j);
  }

  /** Blocks come in heading order. */
  lemma {:induction false} SegmentOrdered(lines: seq<string>, kinds: seq<LineKind>)
    requires |kinds| == |lines|
    ensures var s := SegmentBy(lines, kinds);
      forall a, b :: 0 <= a < b < |s| ==> s[a].startLine < s[b].startLine
  {
    var s := SegmentBy(lines, kinds);
    var h := Heads(kinds, |lines|);
    HeadsAscending(kinds, |lines|);
    forall a, b | 0 <= a < b < |s| ensures s[a].startLine < s[b].startLine {
      BlockHeading(lines, kinds, a);
      BlockHeading(lines, kinds, b);
    }
  }

  /** Every heading line of the page starts a block. */
  lemma {:induction false} SegmentCoversHeadings(lines: seq<string>, kinds: seq<LineKind>, i: nat)
    requires |kinds| == |lines| && i < |lines| && kinds[i] == HeadingLine
    ensures exists j :: 0 <= j < |SegmentBy(lines, kinds)| && SegmentBy(lines, kinds)[j].startLine == i
  {
    var j := HeadIndex(kinds, |lines|, i);
    BlockHeading(lines, kinds, j);
  }

  /** No heading line lies strictly between the j-th heading and the next
      one. */
  lemma {:induction false} NoHeadingBetween(kinds: seq<LineKind>, n: nat, j: nat, i: nat)
    requires n <= |kinds| && j < |Heads(kinds, n)|
    requires Heads(kinds, n)[j] < i < NextStart(Heads(kinds, n), j, n)
    ensures kinds[i] != HeadingLine
  {
    if kinds[i] == HeadingLine {
      var m := HeadIndex(kinds, n, i);
      HeadsAscending(kinds, n);
    }
  }

  /** The k-th line (k > 0) of the j-th block is line i of the page, a text
      line strictly between that block's heading and the next heading: a
      block never holds a footer or a second heading. */
  lemma {:induction false} BodyLine(lines: seq<string>, kinds: seq<LineKind>, j: nat, k: nat) returns (i: nat)
    requires |kinds| == |lines|
    requires j < |SegmentBy(lines, kinds)| && 0 < k < |SegmentBy(lines, kinds)[j].lines|
    ensures SegmentBy(lines, kinds)[j].startLine < i < NextStart(Heads(kinds, |lines|), j, |lines|)
    ensures kinds[i] == TextLine && lines[i] == SegmentBy(lines, kinds)[j].lines[k]
  {
    var h := Heads(kinds, |lines|);
    BlockAt(lines, kinds, j);
    i := BlockLine(lines, kinds, h[j], NextStart(h, j, |lines|), k);
    NoHeadingBetween(kinds, |lines|, j, i);
  }

  /** The k-th line (k > 0) of the block from s to e is a non-footer line
      strictly between s and e. */
  lemma {:induction false} BlockLine(lines: seq<string>, kinds: seq<LineKind>, s: nat, e: nat, k: nat)
    returns (i: nat)
    requires |kinds| == |lines| && s < |lines| && e <= |lines|
    requires 0 < k < |BlockFrom(lines, kinds, s, e).lines|
    ensures s < i < e && kinds[i] != FooterLine && lines[i] == BlockFrom(lines, kinds, s, e).lines[k]
  {
    i := KeptSource(lines, kinds, s + 1, e, k - 1);
  }

  /** Every text line after the j-th heading and before the next one is in
      the j-th block. */
  lemma {:induction false} BodyComplete(lines: seq<string>, kinds: seq<LineKind>, j: nat, i: nat)
    requires |kinds| == |lines| && j < |SegmentBy(lines, kinds)|
    requires SegmentBy(lines, kinds)[j].startLine < i < NextStart(Heads(kinds, |lines|), j, |lines|)
    requires kinds[i] == TextLine
    ensures lines[i] in SegmentBy(lines, kinds)[j].lines
  {
    var h := Heads(kinds, |lines|);
    BlockAt(lines, kinds, j);
    KeptComplete(lines, kinds, h[j] + 1, NextStart(h, j, |lines|));
  }

  /** Lines before the first heading belong to no block: no heading line
      comes before the first block's start. */
  lemma {:induction false} SegmentPreamble(lines: seq<string>, kinds: seq<LineKind>, i: nat)
    requires |kinds| == |lines| && i < |lines| && kinds[i] == HeadingLine
    ensures |SegmentBy(lines, kinds)| > 0 && SegmentBy(lines, kinds)[0].startLine <= i
  {
    var m := HeadIndex(kinds, |lines|, i);
    HeadsAscending(kinds, |lines|);
    BlockHeading(lines, kinds, 0);
  }

  /** A text line is neither a heading nor a footer. */
  lemma {:induction false} TextLineMeaning(lines: seq<string>, i: nat)
    requires i < |lines| && Kinds(lines)[i] == TextLine
    ensures !IsHeadingLine(lines[i]) && !IsFooter(lines[i])
  {
    KindsAt(lines, i);
  }

  // ---------------------------------------------------------------------
  // The loop

  /** The state find_entries_on_page keeps while it walks the lines: the
      blocks closed so far, the lines of the open block and the index of
      its heading (None before the first heading). */
  datatype ScanState = ScanState(entries: seq<Block>, current: seq<string>, start: Option<nat>)

  /** The closed blocks plus the open one, if it holds any line. */
  function Close(st: ScanState): seq<Block> {
    match st.start
    case Some(s) => if |st.current| > 0 then st.entries + [Block(s, st.current)] else st.entries
    case None => st.entries
  }

  /** One loop iteration, on line i of the given kind: a heading closes the
      open block and opens its own; any other line joins the open block
      unless it is a footer, and is ignored before the first heading. */
  function Step(st: ScanState, i: nat, line: string, kind: LineKind): ScanState {
    if kind == HeadingLine then ScanState(Close(st), [line], Some(i))
    else if st.start.Some? && kind != FooterLine then ScanState(st.entries, st.current + [line], st.start)
    else st
  }

  /** The state after the first i lines. */
  function ScanTo(lines: seq<string>, kinds: seq<LineKind>, i: nat): ScanState
    requires |kinds| == |lines| && i <= |lines|
  {
    if i == 0 then ScanState([], [], None)
    else Step(ScanTo(lines, kinds, i - 1), i - 1, lines[i - 1], kinds[i - 1])
  }

  /** What the state after the first i lines means in terms of the
      headings among them. */
  ghost predicate Scanned(lines: seq<string>, kinds: seq<LineKind>, i: nat, st: ScanState)
    requires |kinds| == |lines| && i <= |lines|
  {
    var h := Heads(kinds, i);
    && (|h| == 0 ==> st.start == None && st.current == [])
    && (|h| > 0 ==> st.start == Some(h[|h| - 1])
                    && st.current == [lines[h[|h| - 1]]] + Kept(lines, kinds, h[|h| - 1] + 1, i))
    && st.entries == Closed(lines, kinds, h)
  }

  /** Closing the block of the last heading when heading i arrives. */
  lemma {:induction false} ClosedStep(lines: seq<string>, kinds: seq<LineKind>, h: seq<nat>, i: nat)
    requires |kinds| == |lines| && i < |lines| && |h| > 0 && Below(h, |lines|)
    ensures Below(h + [i], |lines|)
    ensures Closed(lines, kinds, h + [i]) == Closed(lines, kinds, h) + [BlockFrom(lines, kinds, h[|h| - 1], i)]
  {
    assert (h + [i])[..|h|] == h;
  }

  /** A heading line closes the open block, if any, and opens its own. */
  lemma {:induction false} ScanHeadingStep(lines: seq<string>, kinds: seq<LineKind>, i: nat, st: ScanState)
    requires |kinds| == |lines| && i < |lines| && kinds[i] == HeadingLine
    requires Scanned(lines, kinds, i, st)
    ensures Scanned(lines, kinds, i + 1, ScanState(Close(st), [lines[i]], Some(i)))
  {
    assert Heads(kinds, i + 1) == Heads(kinds, i) + [i];
    assert Kept(lines, kinds, i + 1, i + 1) == [];
    if |Heads(kinds, i)| > 0 {
      ScanLaterHeading(lines, kinds, i, st);
    }
  }

  /** A heading after the first closes the block of the one before it. */
  lemma {:induction false} ScanLaterHeading(lines: seq<string>, kinds: seq<LineKind>, i: nat, st: ScanState)
    requires |kinds| == |lines| && i < |lines| && kinds[i] == HeadingLine
    requires Scanned(lines, kinds, i, st) && |Heads(kinds, i)| > 0
    ensures Close(st) == Closed(lines, kinds, Heads(kinds, i) + [i])
  {
    var h := Heads(kinds, i);
    ClosedStep(lines, kinds, h, i);
  }

  /** Any other line joins the open block unless it is a footer; before the
      first heading it is ignored. */
  lemma {:induction false} ScanOtherStep(lines: seq<string>, kinds: seq<LineKind>, i: nat, st: ScanState)
    requires |kinds| == |lines| && i < |lines| && kinds[i] != HeadingLine
    requires Scanned(lines, kinds, i, st)
    ensures Scanned(lines, kinds, i + 1, Step(st, i, lines[i], kinds[i]))
  {
    var h := Heads(kinds, i);
    assert Heads(kinds, i + 1) == h;
    if st.start.Some? {
      var s := st.start.value;
      if kinds[i] != FooterLine {
        assert Kept(lines, kinds, s + 1, i + 1) == Kept(lines, kinds, s + 1, i) + [lines[i]];
      } else {
        assert Kept(lines, kinds, s + 1, i + 1) == Kept(lines, kinds, s + 1, i);
      }
    }
  }

  /** The state after any number of lines has the meaning Scanned gives it. */
  lemma {:induction false} ScanToScanned(lines: seq<string>, kinds: seq<LineKind>, i: nat)
    requires |kinds| == |lines| && i <= |lines|
    ensures Scanned(lines, kinds, i, ScanTo(lines, kinds, i))
  {
    if i > 0 {
      ScanToScanned(lines, kinds, i - 1);
      var st := ScanTo(lines, kinds, i - 1);
      if kinds[i - 1] == HeadingLine {
        ScanHeadingStep(lines, kinds, i - 1, st);
      } else {
        ScanOtherStep(lines, kinds, i - 1, st);
      }
    }
  }

  /** Walking all the lines and closing the open block yields the reference
      segmentation. */
  lemma {:induction false} ScanSegments(lines: seq<string>, kinds: seq<LineKind>)
    requires |kinds| == |lines|
    ensures Close(ScanTo(lines, kinds, |lines|)) == SegmentBy(lines, kinds)
  {
    ScanToScanned(lines, kinds, |lines|);
  }

  /** The kind of every line, one line at a time. */
  lemma {:induction false} KindsAll(lines: seq<string>)
    ensures forall i :: 0 <= i < |lines| ==> KindOf(lines[i]) == Kinds(lines)[i]
  {
    forall i | 0 <= i < |lines| ensures KindOf(lines[i]) == Kinds(lines)[i] {
      KindsAt(lines, i);
    }
  }

  /** The loop of find_entries_on_page, for any line classifier that agrees
      with kinds: one pass over the page's lines that keeps the lines of the
      open block and closes it at each new heading. */
  method SegmentWith(lines: seq<string>, ghost kinds: seq<LineKind>, classify: string -> LineKind)
    returns (entries: seq<Block>)
    requires |kinds| == |lines|
    requires forall i :: 0 <= i < |lines| ==> classify(lines[i]) == kinds[i]
    ensures entries == SegmentBy(lines, kinds)
  {
    entries := [];
    var current: seq<string> := [];
    var start: Option<nat> := None;
    var i := 0;
    while i < |lines|
      invariant 0 <= i <= |lines|
      invariant ScanState(entries, current, start) == ScanTo(lines, kinds, i)
    {
      var line := lines[i];
      var kind := classify(line);
      if kind == HeadingLine {
        if |current| > 0 && start.Some? {
          entries := entries + [Block(start.value, current)];
        }
        current := [line];
        start := Some(i);
      } else if start.Some? && kind != FooterLine {
        current := current + [line];
      }
      i := i + 1;
    }
    if |current| > 0 && start.Some? {
      entries := entries + [Block(start.value, current)];
    }
    ScanSegments(lines, kinds);
  }

  /** find_entries_on_page's segmentation of a page's lines, with the
      heading pattern and the footer test as the classifier. */
  method SegmentLines(lines: seq<string>) returns (entries: seq<Block>)
    ensures entries == Segment(lines)
  {
    KindsAll(lines);
    entries := SegmentWith(lines, Kinds(lines), KindOf);
  }

  /** find_entries_on_page: split the page text into lines and segment them. */
  method FindEntries(text: string) returns (entries: seq<Block>)
    ensures entries == Segment(SplitLines(text))
  {
    entries := SegmentLines(SplitLines(text));
  }
}
