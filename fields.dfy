/** The labelled fields of one entry's text, read the way the extractor's
    regular expressions read them. Each pattern is written out as string
    functions: the greedy whitespace after a tag (which may run over
    newlines), the lazy group that stops at the first lookahead
    alternative, and the backtracking that gives an empty value when a
    tag is followed by whitespace only. */
module Fields {
  import opened Wrappers
  import opened Text

  // ---------------------------------------------------------------------
  // Lookahead-terminated fields: `Label:\s*(.+?)(?=\nT1|...|\nTk|$)` with
  // DOTALL, value `.strip()`

  /** `$` without MULTILINE: at the end, or just before a final newline. */
  predicate EndAt(s: string, e: nat) {
    e == |s| || (e + 1 == |s| && s[e] == '\n')
  }

  /** A newline followed by one of the terms starts at e. */
  predicate TermAt(s: string, terms: seq<string>, e: nat)
    decreases |terms|
  {
    |terms| > 0 && (OccursAt(s, "\n" + terms[0], e) || TermAt(s, terms[1..], e))
  }

  /** TermAt holds exactly when one of the terms, after a newline, occurs
      at e. */
  lemma {:induction false} TermAtMeaning(s: string, terms: seq<string>, e: nat)
    ensures TermAt(s, terms, e) <==> exists k :: 0 <= k < |terms| && OccursAt(s, "\n" + terms[k], e)
    decreases |terms|
  {
    if |terms| > 0 {
      TermAtMeaning(s, terms[1..], e);
      if TermAt(s, terms[1..], e) {
        var k :| 0 <= k < |terms[1..]| && OccursAt(s, "\n" + terms[1..][k], e);
        assert OccursAt(s, "\n" + terms[k + 1], e);
      }
      if exists k :: 0 <= k < |terms| && OccursAt(s, "\n" + terms[k], e) {
        var k :| 0 <= k < |terms| && OccursAt(s, "\n" + terms[k], e);
        if k > 0 {
          assert terms[1..][k - 1] == terms[k];
        }
      }
    }
  }

  /** Where the lazy group stops: the first e >= i at which one of the
      lookahead alternatives holds. */
  function StopAt(s: string, terms: seq<string>, i: nat): (e: nat)
    requires i <= |s|
    ensures i <= e <= |s|
    decreases |s| - i
  {
    if TermAt(s, terms, i) || EndAt(s, i) then i else StopAt(s, terms, i + 1)
  }

  /** StopAt stops at a lookahead alternative, and at the first one. */
  lemma {:induction false} StopAtFirst(s: string, terms: seq<string>, i: nat)
    requires i <= |s|
    ensures var e := StopAt(s, terms, i);
      && (TermAt(s, terms, e) || EndAt(s, e))
      && forall j :: i <= j < e ==> !TermAt(s, terms, j) && !EndAt(s, j)
    decreases |s| - i
  {
    if !(TermAt(s, terms, i) || EndAt(s, i)) {
      StopAtFirst(s, terms, i + 1);
    }
  }

  /** Some character in s[a..b] is not a newline. */
  predicate HasNonNewline(s: string, a: nat, b: nat) {
    exists k :: a <= k < b && k < |s| && s[k] != '\n'
  }

  /** The search for the tag starts at its first occurrence. The value
      runs from the first non-space after it to the first terminator, and
      is stripped. When only whitespace follows the tag the pattern
      still matches one whitespace character, so the value is empty; when
      nothing follows, there is no match. */
  function LookaheadField(s: string, tag: string, terms: seq<string>): (r: Option<string>)
    ensures r.Some? ==> IsTrimmed(r.value)
  {
    match IndexFrom(s, tag, 0)
    case None => None
    case Some(i) => ValueAfter(s, i + |tag|, terms)
  }

  /** The value of a lookahead field whose tag ends at p. */
  function ValueAfter(s: string, p: nat, terms: seq<string>): (r: Option<string>)
    requires p <= |s|
    ensures r.Some? ==> IsTrimmed(r.value)
  {
    var q := SkipSpace(s, p);
    if q < |s| then Some(Trim(s[q..StopAt(s, terms, q + 1)]))
    else if p < q then Some("")
    else None
  }

  /** Where the pieces of a tag, a space and a value lie in a text. */
  lemma {:induction false} Layout(s: string, i: nat, tag: string, v: string, tail: string)
    requires i <= |s| && s[i..] == tag + " " + v + tail && v != []
    ensures i + |tag| + 1 < |s|
    ensures OccursAt(s, tag, i)
    ensures s[i + |tag|] == ' ' && s[i + |tag| + 1] == v[0]
    ensures s[i + |tag| + 1..] == v + tail
  {
    var p := i + |tag|;
    assert s[i..p] == s[i..][..|tag|] == tag;
    assert s[p] == s[i..][|tag|] == ' ';
    assert s[p + 1] == s[i..][|tag| + 1] == v[0];
    assert s[p + 1..] == s[i..][|tag| + 1..] == v + tail;
  }

  /** A lookahead field whose tag first occurs at i reads on after it. */
  lemma {:induction false} LookaheadAt(s: string, tag: string, terms: seq<string>, i: nat)
    requires IndexFrom(s, tag, 0).Some? && IndexFrom(s, tag, 0).value == i
    ensures LookaheadField(s, tag, terms) == ValueAfter(s, IndexFrom(s, tag, 0).value + |tag|, terms)
  {
  }

  /** The value after a tag, once its start q and its stop e are known. */
  lemma {:induction false} ValueAt(s: string, p: nat, terms: seq<string>, q: nat, e: nat)
    requires p <= q < |s| && SkipSpace(s, p) == q
    requires q < e <= |s| && StopAt(s, terms, q + 1) == e
    ensures ValueAfter(s, p, terms) == Some(Trim(s[q..e]))
  {
  }

  /** A single space before a non-space is all the whitespace skipped. */
  lemma {:induction false} OneSpace(s: string, p: nat)
    requires p + 1 < |s| && s[p] == ' ' && !IsSpace(s[p + 1])
    ensures SkipSpace(s, p) == p + 1
  {
    assert SkipSpace(s, p + 1) == p + 1;
  }

  /** No line starting with one of the terms begins inside v, reading on
      into the text that follows it. */
  predicate NoTermInside(v: string, tail: string, terms: seq<string>) {
    forall j, k :: 0 <= j < |v| && 0 <= k < |terms| ==> !OccursAt(v + tail, "\n" + terms[k], j)
  }

  /** A value on one line holds no terminator line. */
  lemma {:induction false} OneLineNoTerm(v: string, tail: string, terms: seq<string>)
    requires '\n' !in v
    ensures NoTermInside(v, tail, terms)
  {
    forall j, k | 0 <= j < |v| && 0 <= k < |terms| ensures !OccursAt(v + tail, "\n" + terms[k], j) {
      assert (v + tail)[j] == v[j];
    }
  }

  /** Reading a pattern at q + j of s is reading it at j of s[q..]. */
  lemma {:induction false} OccursShift(s: string, q: nat, u: string, x: string, j: nat)
    requires q <= |s| && s[q..] == u
    ensures OccursAt(s, x, q + j) == OccursAt(u, x, j)
  {
    if q + j + |x| <= |s| {
      var a := s[q + j..q + j + |x|];
      var b := u[j..j + |x|];
      forall m | 0 <= m < |a| ensures a[m] == b[m] {
        assert a[m] == s[q + j + m] && b[m] == u[j + m];
        assert u[j + m] == s[q..][j + m];
      }
      assert a == b;
    }
  }

  /** A value that no terminator line starts inside, followed by the end
      of the text or by a terminator line, stops the lazy group right
      after the value. */
  lemma {:induction false} StopAfterValue(s: string, terms: seq<string>, q: nat, v: string, tail: string)
    requires q <= |s| && s[q..] == v + tail
    requires v != [] && !IsSpace(v[|v| - 1]) && NoTermInside(v, tail, terms)
    requires tail == [] || exists t :: t in terms && StartsWith(tail, "\n" + t)
    ensures StopAt(s, terms, q + 1) == q + |v|
  {
    var e := q + |v|;
    forall j | q + 1 <= j < e ensures !TermAt(s, terms, j) && !EndAt(s, j) {
      NoStopInside(s, terms, q, v, tail, j);
    }
    if tail == [] {
      assert EndAt(s, e);
    } else {
      TermAfterValue(s, terms, q, v, tail);
    }
    StopAtIs(s, terms, q + 1, e);
  }

  /** The lazy group cannot stop inside such a value. */
  lemma {:induction false} NoStopInside(s: string, terms: seq<string>, q: nat, v: string, tail: string, j: nat)
    requires q <= |s| && s[q..] == v + tail
    requires v != [] && !IsSpace(v[|v| - 1]) && NoTermInside(v, tail, terms)
    requires q < j < q + |v|
    ensures !TermAt(s, terms, j) && !EndAt(s, j)
  {
    TermAtMeaning(s, terms, j);
    forall k | 0 <= k < |terms| ensures !OccursAt(s, "\n" + terms[k], j) {
      OccursShift(s, q, v + tail, "\n" + terms[k], j - q);
    }
    assert s[q + |v| - 1] == s[q..][|v| - 1] == v[|v| - 1];
  }

  /** A terminator line right after the value is where the group stops. */
  lemma {:induction false} TermAfterValue(s: string, terms: seq<string>, q: nat, v: string, tail: string)
    requires q <= |s| && s[q..] == v + tail
    requires exists t :: t in terms && StartsWith(tail, "\n" + t)
    ensures TermAt(s, terms, q + |v|)
  {
    var t :| t in terms && StartsWith(tail, "\n" + t);
    var k :| 0 <= k < |terms| && terms[k] == t;
    var x := "\n" + t;
    assert (v + tail)[|v|..|v| + |x|] == tail[..|x|] == x;
    assert OccursAt(v + tail, x, |v|);
    OccursShift(s, q, v + tail, x, |v|);
    TermAtMeaning(s, terms, q + |v|);
  }

  /** The value a lookahead field reads back: a tag, a space, a stripped
      value of one or more lines, none of which but the first starts with
      one of the terms, then nothing or a line that starts with one of the
      terms. */
  lemma {:induction false} LookaheadRoundTrip(pre: string, tag: string, v: string, terms: seq<string>, tail: string)
    requires forall j :: 0 <= j < |pre| ==> !OccursAt(pre + tag + " " + v + tail, tag, j)
    requires v != [] && IsTrimmed(v) && NoTermInside(v, tail, terms)
    requires tail == [] || exists t :: t in terms && StartsWith(tail, "\n" + t)
    ensures LookaheadField(pre + tag + " " + v + tail, tag, terms) == Some(v)
  {
    var s := pre + tag + " " + v + tail;
    assert s[|pre|..] == tag + " " + v + tail;
    LookaheadLayout(s, |pre|, tag, v, terms, tail);
    LookaheadReads(s, |pre|, tag, v, terms);
  }

  /** The field's value, from where the tag first occurs and where the
      value and its stop lie. */
  lemma {:induction false} LookaheadReads(s: string, i: nat, tag: string, v: string, terms: seq<string>)
    requires IndexFrom(s, tag, 0).Some? && IndexFrom(s, tag, 0).value == i
    requires i + |tag| + 1 + |v| <= |s| && s[i + |tag| + 1..i + |tag| + 1 + |v|] == v
    requires SkipSpace(s, i + |tag|) == i + |tag| + 1
    requires v != [] && IsTrimmed(v)
    requires StopAt(s, terms, i + |tag| + 2) == i + |tag| + 1 + |v|
    ensures LookaheadField(s, tag, terms) == Some(v)
  {
    ValueIs(s, i + |tag|, terms, v);
    LookaheadIs(s, tag, terms, i, v);
  }

  /** The field's value, once the tag's first occurrence and the value
      after it are known. */
  lemma {:induction false} LookaheadIs(s: string, tag: string, terms: seq<string>, i: nat, v: string)
    requires IndexFrom(s, tag, 0).Some? && IndexFrom(s, tag, 0).value == i
    requires ValueAfter(s, i + |tag|, terms) == Some(v)
    ensures LookaheadField(s, tag, terms) == Some(v)
  {
    LookaheadAt(s, tag, terms, i);
  }

  /** Where the tag, the value and its stop lie when the tag first occurs
      at i and is followed by a space, the value and a terminator. */
  lemma {:induction false} LookaheadLayout(s: string, i: nat, tag: string, v: string, terms: seq<string>, tail: string)
    requires i <= |s| && s[i..] == tag + " " + v + tail
    requires forall j :: 0 <= j < i ==> !OccursAt(s, tag, j)
    requires v != [] && IsTrimmed(v) && NoTermInside(v, tail, terms)
    requires tail == [] || exists t :: t in terms && StartsWith(tail, "\n" + t)
    ensures IndexFrom(s, tag, 0).Some? && IndexFrom(s, tag, 0).value == i
    ensures i + |tag| + 1 + |v| <= |s| && s[i + |tag| + 1..i + |tag| + 1 + |v|] == v
    ensures SkipSpace(s, i + |tag|) == i + |tag| + 1
    ensures StopAt(s, terms, i + |tag| + 2) == i + |tag| + 1 + |v|
  {
    var p := i + |tag|;
    var q := p + 1;
    Layout(s, i, tag, v, tail);
    IndexFromAt(s, tag, 0, i);
    OneSpace(s, p);
    StopAfterValue(s, terms, q, v, tail);
    HeadOf(s, q, v, tail);
  }

  /** The value after a tag that ends at p, from where the value and its
      stop are. */
  lemma {:induction false} ValueIs(s: string, p: nat, terms: seq<string>, v: string)
    requires p + 1 + |v| <= |s| && v != [] && IsTrimmed(v)
    requires s[p + 1..p + 1 + |v|] == v
    requires SkipSpace(s, p) == p + 1
    requires StopAt(s, terms, p + 2) == p + 1 + |v|
    ensures ValueAfter(s, p, terms) == Some(v)
  {
    TrimOfTrimmed(v);
    ValueAt(s, p, terms, p + 1, p + 1 + |v|);
  }

  /** A stop found by a scan is the one StopAt names. */
  lemma {:induction false} StopAtIs(s: string, terms: seq<string>, i: nat, e: nat)
    requires i <= e <= |s|
    requires forall j :: i <= j < e ==> !TermAt(s, terms, j) && !EndAt(s, j)
    requires TermAt(s, terms, e) || EndAt(s, e)
    ensures StopAt(s, terms, i) == e
    decreases e - i
  {
    if i < e {
      StopAtIs(s, terms, i + 1, e);
    }
  }

  const CgNotesEnds: seq<string> := ["Trail:", "Trail Notes:", "Directions:", "Other:", "Related", "Contributor:", "RVingwithBikes"]
  const TrailNotesEnds: seq<string> := ["Directions:", "Other:", "Related", "Contributor:", "RVingwithBikes"]
  const DirectionsEnds: seq<string> := ["Other:", "Related", "Contributor:", "RVingwithBikes"]
  const OtherEnds: seq<string> := ["Related", "Contributor:", "RVingwithBikes"]
  const BlogPostEnds: seq<string> := ["Contributor:", "RVingwithBikes"]

  /** The CG Notes field, with every trailing period removed. */
  function CgNotes(text: string): (r: Option<string>)
    ensures r.Some? ==> r.value == [] || r.value[|r.value| - 1] != '.'
    ensures r.Some? <==> LookaheadField(text, "CG Notes:", CgNotesEnds).Some?
  {
    match LookaheadField(text, "CG Notes:", CgNotesEnds)
    case None => None
    case Some(v) => Some(StripTrailingDots(v))
  }

  function TrailNotes(text: string): Option<string> {
    LookaheadField(text, "Trail Notes:", TrailNotesEnds)
  }

  function Directions(text: string): Option<string> {
    LookaheadField(text, "Directions:", DirectionsEnds)
  }

  function Other(text: string): Option<string> {
    LookaheadField(text, "Other:", OtherEnds)
  }

  function BlogPost(text: string): Option<string> {
    LookaheadField(text, "Related Blog Post:", BlogPostEnds)
  }

  /** A notes value ending in periods reads back without them. */
  lemma {:induction false} CgNotesRoundTrip(pre: string, v: string, dots: string, tail: string)
    requires forall j :: 0 <= j < |pre| ==> !OccursAt(pre + "CG Notes:" + " " + (v + dots) + tail, "CG Notes:", j)
    requires v != [] && IsTrimmed(v) && v[|v| - 1] != '.'
    requires forall k :: 0 <= k < |dots| ==> dots[k] == '.'
    requires NoTermInside(v + dots, tail, CgNotesEnds)
    requires tail == [] || exists t :: t in CgNotesEnds && StartsWith(tail, "\n" + t)
    ensures CgNotes(pre + "CG Notes:" + " " + (v + dots) + tail) == Some(v)
  {
    var w := v + dots;
    assert w[0] == v[0];
    assert w[|w| - 1] == if dots == [] then v[|v| - 1] else '.';
    LookaheadRoundTrip(pre, "CG Notes:", w, CgNotesEnds, tail);
    StripDotsOf(v, dots);
  }

  /** Removing trailing periods undoes appending them to a string that
      does not end in one. */
  lemma {:induction false} StripDotsOf(v: string, dots: string)
    requires v == [] || v[|v| - 1] != '.'
    requires forall k :: 0 <= k < |dots| ==> dots[k] == '.'
    ensures StripTrailingDots(v + dots) == v
    decreases |dots|
  {
    if dots == [] {
      assert v + dots == v;
    } else {
      assert (v + dots)[..|v + dots| - 1] == v + dots[..|dots| - 1];
      StripDotsOf(v, dots[..|dots| - 1]);
    }
  }

  // ---------------------------------------------------------------------
  // Line fields: `Label:\s*(.+?)(?=\n|$)` without DOTALL, value `.strip()`

  /** The value runs from the first non-space after the tag to the end
      of that line. When only whitespace follows the tag, the value is
      empty if some of it is not a newline (the group can then take one
      such character), and there is no match otherwise. */
  function LineField(s: string, tag: string): (r: Option<string>)
    ensures r.Some? ==> IsTrimmed(r.value) && '\n' !in r.value
  {
    match IndexFrom(s, tag, 0)
    case None => None
    case Some(i) => LineAfter(s, i + |tag|)
  }

  /** The value of a line field whose tag ends at p. */
  function LineAfter(s: string, p: nat): (r: Option<string>)
    requires p <= |s|
    ensures r.Some? ==> IsTrimmed(r.value) && '\n' !in r.value
  {
    var q := SkipSpace(s, p);
    if q < |s| then
      var v := s[q..FindChar(s, '\n', q)];
      TrimNoNewline(v);
      Some(Trim(v))
    else if HasNonNewline(s, p, q) then Some("")
    else None
  }

  /** Stripping a line keeps it free of newlines. */
  lemma {:induction false} TrimNoNewline(v: string)
    requires '\n' !in v
    ensures '\n' !in Trim(v)
  {
    var a := TrimStart(v);
    TrimStartFacts(v);
    assert forall k :: 0 <= k < |a| ==> a[k] == v[|v| - |a| + k];
    var b := TrimEnd(a);
    TrimEndFacts(a);
    assert forall k :: 0 <= k < |b| ==> b[k] == a[k];
  }

  function Contributor(text: string): Option<string> {
    LineField(text, "Contributor:")
  }

  function ContributorBlog(text: string): Option<string> {
    LineField(text, "Contributor's Blog:")
  }

  /** A line field reads back a stripped one-line value. */
  lemma {:induction false} LineRoundTrip(pre: string, tag: string, v: string, tail: string)
    requires forall j :: 0 <= j < |pre| ==> !OccursAt(pre + tag + " " + v + tail, tag, j)
    requires v != [] && IsTrimmed(v) && '\n' !in v
    requires tail == [] || tail[0] == '\n'
    ensures LineField(pre + tag + " " + v + tail, tag) == Some(v)
  {
    var s := pre + tag + " " + v + tail;
    assert s[|pre|..] == tag + " " + v + tail;
    LineLayout(s, |pre|, tag, v, tail);
    LineReads(s, |pre|, tag, v);
  }

  /** The line field's value, from where the tag first occurs and where
      the value and its line end lie. */
  lemma {:induction false} LineReads(s: string, i: nat, tag: string, v: string)
    requires IndexFrom(s, tag, 0).Some? && IndexFrom(s, tag, 0).value == i
    requires i + |tag| + 1 + |v| <= |s| && s[i + |tag| + 1..i + |tag| + 1 + |v|] == v
    requires SkipSpace(s, i + |tag|) == i + |tag| + 1
    requires FindChar(s, '\n', i + |tag| + 1) == i + |tag| + 1 + |v|
    requires v != [] && IsTrimmed(v)
    ensures LineField(s, tag) == Some(v)
  {
    LineValueIs(s, i + |tag|, v);
    LineIs(s, tag, i, v);
  }

  /** The line field's value, once the tag's first occurrence and the
      value after it are known. */
  lemma {:induction false} LineIs(s: string, tag: string, i: nat, v: string)
    requires IndexFrom(s, tag, 0).Some? && IndexFrom(s, tag, 0).value == i
    requires LineAfter(s, i + |tag|) == Some(v)
    ensures LineField(s, tag) == Some(v)
  {
    LineAt(s, tag, i);
  }

  /** Where the tag, the value and its line end lie when the tag first
      occurs at i and is followed by a space and the value. */
  lemma {:induction false} LineLayout(s: string, i: nat, tag: string, v: string, tail: string)
    requires i <= |s| && s[i..] == tag + " " + v + tail
    requires forall j :: 0 <= j < i ==> !OccursAt(s, tag, j)
    requires v != [] && !IsSpace(v[0]) && '\n' !in v
    requires tail == [] || tail[0] == '\n'
    ensures IndexFrom(s, tag, 0).Some? && IndexFrom(s, tag, 0).value == i
    ensures i + |tag| + 1 + |v| <= |s| && s[i + |tag| + 1..i + |tag| + 1 + |v|] == v
    ensures SkipSpace(s, i + |tag|) == i + |tag| + 1
    ensures FindChar(s, '\n', i + |tag| + 1) == i + |tag| + 1 + |v|
  {
    var p := i + |tag|;
    var q := p + 1;
    Layout(s, i, tag, v, tail);
    IndexFromAt(s, tag, 0, i);
    OneSpace(s, p);
    LineEnd(s, q, v, tail);
    HeadOf(s, q, v, tail);
  }

  /** A line field whose tag first occurs at i reads on after it. */
  lemma {:induction false} LineAt(s: string, tag: string, i: nat)
    requires IndexFrom(s, tag, 0).Some? && IndexFrom(s, tag, 0).value == i
    ensures LineField(s, tag) == LineAfter(s, IndexFrom(s, tag, 0).value + |tag|)
  {
  }

  /** The value of a line field whose tag ends at p, from where the value
      and its line end are. */
  lemma {:induction false} LineValueIs(s: string, p: nat, v: string)
    requires p + 1 + |v| <= |s| && v != [] && IsTrimmed(v)
    requires s[p + 1..p + 1 + |v|] == v
    requires SkipSpace(s, p) == p + 1
    requires FindChar(s, '\n', p + 1) == p + 1 + |v|
    ensures LineAfter(s, p) == Some(v)
  {
    TrimOfTrimmed(v);
  }

  /** A text that goes on with w + tail from q holds w there. */
  lemma {:induction false} HeadOf(s: string, q: nat, w: string, tail: string)
    requires q <= |s| && s[q..] == w + tail
    ensures q + |w| <= |s| && s[q..q + |w|] == w
  {
    assert s[q..q + |w|] == s[q..][..|w|];
  }

  /** A line that holds no newline ends where the text ends or where a
      newline follows. */
  lemma {:induction false} LineEnd(s: string, q: nat, w: string, tail: string)
    requires q <= |s| && s[q..] == w + tail
    requires '\n' !in w
    requires tail == [] || tail[0] == '\n'
    ensures FindChar(s, '\n', q) == q + |w|
  {
    forall j | q <= j < q + |w| ensures s[j] != '\n' {
      assert s[j] == s[q..][j - q] == w[j - q];
    }
    if tail != [] {
      assert s[q + |w|] == s[q..][|w|] == tail[0];
    }
    FindCharIs(s, '\n', q, q + |w|);
  }

  /** A first occurrence found by a scan is the one FindChar names. */
  lemma {:induction false} FindCharIs(s: string, c: char, i: nat, j: nat)
    requires i <= j <= |s|
    requires forall k :: i <= k < j ==> s[k] != c
    requires j == |s| || s[j] == c
    ensures FindChar(s, c, i) == j
    decreases j - i
  {
    if i < j {
      FindCharIs(s, c, i + 1, j);
    }
  }

  // ---------------------------------------------------------------------
  // Names: `Label:\s*(.+?)\.?\s*(\n|$)`, value `.strip().rstrip('.')`

  /** The name the lazy group leaves of the rest of a line: one final
      period is left outside the group (unless it is the group's only
      character), then the value is stripped and its trailing periods
      removed. */
  function NameOf(line: string): (r: string)
    ensures r == [] || r[|r| - 1] != '.'
  {
    StripTrailingDots(Trim(DropFinalDot(TrimEnd(line))))
  }

  /** The group of a line whose right end is already stripped: a final
      period stays outside it unless it is the only character. */
  function DropFinalDot(l: string): (g: string)
    ensures g == l || (|l| >= 2 && l[|l| - 1] == '.' && g == l[..|l| - 1])
  {
    if |l| >= 2 && l[|l| - 1] == '.' then l[..|l| - 1] else l
  }

  /** A name followed by an optional period and spaces reads back as the
      name. */
  lemma {:induction false} NameRoundTrip(v: string, dot: bool, pad: string)
    requires v != [] && IsTrimmed(v) && v[|v| - 1] != '.'
    requires forall k :: 0 <= k < |pad| ==> IsSpace(pad[k])
    ensures NameOf(v + (if dot then "." else "") + pad) == v
  {
    var w := v + (if dot then "." else "");
    assert !IsSpace(w[|w| - 1]);
    TrimEndPadded(w, pad);
    assert DropFinalDot(w) == v by {
      if dot {
        assert w[..|w| - 1] == v;
      } else {
        assert w == v;
      }
    }
    TrimOfTrimmed(v);
    assert StripTrailingDots(v) == v;
  }

  /** Stripping the right end of a string that ends in a non-space,
      followed by spaces, removes exactly the spaces. */
  lemma {:induction false} TrimEndPadded(w: string, pad: string)
    requires w != [] && !IsSpace(w[|w| - 1])
    requires forall k :: 0 <= k < |pad| ==> IsSpace(pad[k])
    ensures TrimEnd(w + pad) == w
    decreases |pad|
  {
    if pad == [] {
      assert w + pad == w;
      TrimEndOfTrimmed(w);
    } else {
      assert (w + pad)[..|w + pad| - 1] == w + pad[..|pad| - 1];
      TrimEndPadded(w, pad[..|pad| - 1]);
    }
  }

  /** Some non-newline is followed by a newline inside s[a..b]. */
  predicate SpaceThenNewline(s: string, a: nat, b: nat) {
    exists k, m :: a <= k < m < b && m < |s| && s[k] != '\n' && s[m] == '\n'
  }

  /** The campground name, stripped and without trailing periods: the name on
      the rest of the line after the first "Campground:", which must end in
      a newline. When no newline follows the name, the match can only be
      one whitespace character before a newline inside the gap after the
      tag, and the name is empty. */
  function CampgroundName(text: string): (r: Option<string>)
    ensures r.Some? ==> r.value == [] || r.value[|r.value| - 1] != '.'
  {
    match IndexFrom(text, "Campground:", 0)
    case None => None
    case Some(i) => NameAfter(text, i + 11)
  }

  /** The campground name after a tag that ends at p. */
  function NameAfter(text: string, p: nat): (r: Option<string>)
    requires p <= |text|
    ensures r.Some? ==> r.value == [] || r.value[|r.value| - 1] != '.'
  {
    var q := SkipSpace(text, p);
    var n := FindChar(text, '\n', q);
    if n < |text| then Some(NameOf(text[q..n]))
    else if SpaceThenNewline(text, p, q) then Some("")
    else None
  }

  /** Text with a campground line, its name optionally followed by a
      period. */
  function CampgroundText(pre: string, v: string, dot: bool, rest: string): string {
    pre + "Campground: " + v + (if dot then "." else "") + "\n" + rest
  }

  /** A campground line reads back its name. */
  lemma {:induction false} CampgroundRoundTrip(pre: string, v: string, dot: bool, rest: string)
    requires forall j :: 0 <= j < |pre| ==> !OccursAt(CampgroundText(pre, v, dot, rest), "Campground:", j)
    requires v != [] && IsTrimmed(v) && v[|v| - 1] != '.' && '\n' !in v
    ensures CampgroundName(CampgroundText(pre, v, dot, rest)) == Some(v)
  {
    var w := v + (if dot then "." else "");
    var s := CampgroundText(pre, v, dot, rest);
    assert s[|pre|..] == "Campground: " + w + ("\n" + rest);
    assert '\n' !in w by {
      forall k | 0 <= k < |w| ensures w[k] != '\n' {
        if k < |v| { assert w[k] == v[k]; }
      }
    }
    CampgroundReads(s, |pre|, w, "\n" + rest);
    NameRoundTrip(v, dot, "");
    assert w + "" == w;
  }

  /** The campground round trip, for a tag that first occurs at i. */
  lemma {:induction false} CampgroundReads(s: string, i: nat, w: string, tail: string)
    requires i <= |s| && s[i..] == "Campground: " + w + tail
    requires forall j :: 0 <= j < i ==> !OccursAt(s, "Campground:", j)
    requires w != [] && !IsSpace(w[0]) && '\n' !in w
    requires tail != [] && tail[0] == '\n'
    ensures CampgroundName(s) == Some(NameOf(w))
  {
    LineLayout(s, i, "Campground:", w, tail);
    assert i + 12 + |w| < |s| by {
      Layout(s, i, "Campground:", w, tail);
      assert |s| - (i + 12) == |w| + |tail|;
    }
    NameIs(s, i + 11, w);
    CampgroundIs(s, i, w);
  }

  /** The campground name, once the tag's first occurrence and the name
      after it are known. */
  lemma {:induction false} CampgroundIs(s: string, i: nat, w: string)
    requires IndexFrom(s, "Campground:", 0).Some? && IndexFrom(s, "Campground:", 0).value == i
    requires NameAfter(s, i + 11) == Some(NameOf(w))
    ensures CampgroundName(s) == Some(NameOf(w))
  {
    CampgroundAt(s, i);
  }

  /** The campground name after a tag that ends at p, from where the
      name and its line end are. */
  lemma {:induction false} NameIs(s: string, p: nat, w: string)
    requires p + 1 + |w| < |s| && s[p + 1..p + 1 + |w|] == w
    requires SkipSpace(s, p) == p + 1
    requires FindChar(s, '\n', p + 1) == p + 1 + |w|
    ensures NameAfter(s, p) == Some(NameOf(w))
  {
    var n := FindChar(s, '\n', p + 1);
    assert n < |s| && s[p + 1..n] == w;
  }

  /** A campground name whose tag first occurs at i reads on after it. */
  lemma {:induction false} CampgroundAt(s: string, i: nat)
    requires IndexFrom(s, "Campground:", 0).Some? && IndexFrom(s, "Campground:", 0).value == i
    ensures CampgroundName(s) == NameAfter(s, IndexFrom(s, "Campground:", 0).value + 11)
  {
  }

  // ---------------------------------------------------------------------
  // Trails: every non-overlapping `Trail:` name line of a section

  /** The part of an entry searched for trails: the text before the first
      "Trail Notes:", or the whole text when there is none. */
  function TrailSection(text: string): (r: string)
    ensures r <= text
    ensures !Contains(r, "Trail Notes:")
    ensures forall j :: 0 <= j < |r| ==> !OccursAt(text, "Trail Notes:", j)
    ensures |r| < |text| ==> OccursAt(text, "Trail Notes:", |r|)
  {
    var r := BeforeFirst(text, "Trail Notes:");
    assert forall j :: 0 <= j <= |r| ==> !OccursAt(r, "Trail Notes:", j) by {
      forall j | 0 <= j <= |r| ensures !OccursAt(r, "Trail Notes:", j) {
        if j + 12 <= |r| {
          assert !OccursAt(text, "Trail Notes:", j);
          assert r[j..j + 12] == text[j..j + 12];
        }
      }
    }
    r
  }

  /** One trail match: the text it captures, and where the search for the
      next match starts (past the end of the text when no match can
      follow). */
  datatype TrailHit = TrailHit(line: string, next: nat)

  /** The first trail match of a text. A tag with more text after it takes
      the rest of that line, and the next search starts after that line's
      newline (the pattern itself ends after the last newline of the
      whitespace that follows, and no tag can start inside whitespace, so
      the next match is the same). A tag followed only by whitespace gives
      one empty capture if some of it is not a newline, and ends the
      matches. */
  function FirstTrail(s: string): (r: Option<TrailHit>)
    ensures r.Some? ==> 0 < r.value.next
  {
    match IndexFrom(s, "Trail:", 0)
    case None => None
    case Some(i) =>
      var p := i + 6;
      var q := SkipSpace(s, p);
      if q < |s| then
        var n := FindChar(s, '\n', q);
        Some(TrailHit(s[q..n], n + 1))
      else if HasNonNewline(s, p, q) then Some(TrailHit("", |s| + 1))
      else None
  }

  /** The cleaned names of all trail matches, left to right. */
  function TrailMatches(s: string): seq<string>
    decreases |s|
  {
    match FirstTrail(s)
    case None => []
    case Some(h) => [NameOf(h.line)] + (if h.next <= |s| then TrailMatches(s[h.next..]) else [])
  }

  /** One line per trail. */
  function TrailLines(names: seq<string>): string {
    if names == [] then "" else "Trail: " + names[0] + "\n" + TrailLines(names[1..])
  }

  /** Names that read back unchanged from a trail line. */
  predicate CleanName(v: string) {
    v != [] && IsTrimmed(v) && v[|v| - 1] != '.' && '\n' !in v
  }

  /** A trail line contributes its name, and the search goes on after
      it. */
  lemma {:induction false} TrailHead(v: string, rest: string)
    requires CleanName(v)
    ensures TrailMatches("Trail: " + v + "\n" + rest) == [v] + TrailMatches(rest)
  {
    var s := "Trail: " + v + "\n" + rest;
    var n := 7 + |v|;
    assert s[0..6] == "Trail:";
    IndexFromAt(s, "Trail:", 0, 0);
    assert s[6] == ' ' && s[7] == v[0];
    assert SkipSpace(s, 7) == 7;
    assert SkipSpace(s, 6) == 7;
    forall j | 7 <= j < n ensures s[j] != '\n' {
      assert s[j] == v[j - 7];
    }
    assert s[n] == '\n';
    FindCharIs(s, '\n', 7, n);
    assert s[7..n] == v + "" + "";
    NameRoundTrip(v, false, "");
    assert FirstTrail(s) == Some(TrailHit(v, n + 1));
    TrailStep(s, TrailHit(v, n + 1));
    assert s[n + 1..] == rest;
  }

  /** A match with text after it: its name, then the matches of what
      follows. */
  lemma {:induction false} TrailStep(s: string, h: TrailHit)
    requires FirstTrail(s) == Some(h) && h.next <= |s|
    ensures TrailMatches(s) == [NameOf(h.line)] + TrailMatches(s[h.next..])
  {
    var more := TrailMatches(s[h.next..]);
    var all := TrailMatches(s);
    assert all[1..] == more;
    assert all == [all[0]] + more;
  }

  /** A match with no text after it is the last one. */
  lemma {:induction false} TrailLast(s: string, h: TrailHit)
    requires FirstTrail(s) == Some(h) && h.next > |s|
    ensures TrailMatches(s) == [NameOf(h.line)]
  {
    var all := TrailMatches(s);
    assert all == [all[0]];
  }

  /** Text in which no trail tag starts adds no trail matches: the search
      goes on in the text that follows it. */
  lemma {:induction false} TrailSkip(pre: string, rest: string)
    requires forall j :: 0 <= j < |pre| ==> !OccursAt(pre + rest, "Trail:", j)
    ensures TrailMatches(pre + rest) == TrailMatches(rest)
  {
    TrailFirst(pre, rest);
    assert (pre + rest)[|pre|..] == rest;
    var r := IndexFrom(rest, "Trail:", 0);
    if r.None? {
      TrailNone(pre + rest);
      TrailNone(rest);
    } else if SkipSpace(rest, r.value + 6) < |rest| {
      TrailsAfterLine(pre + rest, rest, |pre|, r.value);
    } else {
      TrailsAfterEnd(pre + rest, rest, |pre|, r.value);
    }
  }

  /** TrailSkip when the first tag of the suffix has a name after it. */
  lemma {:induction false} TrailsAfterLine(s: string, rest: string, d: nat, i: nat)
    requires d <= |s| && s[d..] == rest
    requires IndexFrom(rest, "Trail:", 0) == Some(i) && IndexFrom(s, "Trail:", 0) == Some(d + i)
    requires SkipSpace(rest, i + 6) < |rest|
    ensures TrailMatches(s) == TrailMatches(rest)
  {
    var q := SkipSpace(rest, i + 6);
    var n := FindChar(rest, '\n', q);
    var h := TrailHit(rest[q..n], n + 1);
    var g := TrailHit(rest[q..n], d + n + 1);
    FirstTrailAt(rest, i, q, n, rest[q..n]);
    FirstTrailShifted(s, rest, d, i, q, n);
    if n < |rest| {
      TrailSkipStep(s, rest, d, h, g);
    } else {
      TrailSkipLast(s, rest, d, h, g);
    }
  }

  /** When only whitespace follows the suffix's first tag, which is the
      text's first tag, the text's first match is an empty name exactly
      when the suffix's is. */
  lemma {:induction false} FirstTrailEndShifted(s: string, rest: string, d: nat, i: nat)
    requires d <= |s| && s[d..] == rest && i + 6 <= |rest|
    requires IndexFrom(s, "Trail:", 0) == Some(d + i)
    requires SkipSpace(rest, i + 6) == |rest|
    ensures FirstTrail(s) == if HasNonNewline(rest, i + 6, |rest|) then Some(TrailHit("", d + |rest| + 1)) else None
  {
    SkipSpaceShift(s, rest, d, i + 6, |rest|, d + i + 6, |s|);
    NonNewlineShift(s, rest, d, i + 6, |rest|, d + i + 6, |s|);
    FirstTrailEnd(s, d + i);
  }

  /** The first match of a text is its suffix's first match, moved along,
      when the suffix holds the text's first tag and a name after it. */
  lemma {:induction false} FirstTrailShifted(s: string, rest: string, d: nat, i: nat, q: nat, n: nat)
    requires d <= |s| && s[d..] == rest && i + 6 <= |rest|
    requires IndexFrom(s, "Trail:", 0) == Some(d + i)
    requires SkipSpace(rest, i + 6) == q && q < |rest| && FindChar(rest, '\n', q) == n
    ensures FirstTrail(s) == Some(TrailHit(rest[q..n], d + n + 1))
  {
    SkipSpaceShift(s, rest, d, i + 6, q, d + i + 6, d + q);
    FindCharShift(s, rest, d, q, n, d + q, d + n);
    FirstTrailsAt(s, rest, d, i, q, n);
  }

  /** The first match of a text whose first tag, the start of the name
      after it and the end of that name's line are those of its suffix,
      moved along. */
  lemma {:induction false} FirstTrailsAt(s: string, rest: string, d: nat, i: nat, q: nat, n: nat)
    requires IndexFrom(s, "Trail:", 0) == Some(d + i)
    requires q <= n <= |rest| && q < |rest| && d + |rest| == |s|
    requires SkipSpace(s, d + i + 6) == d + q && FindChar(s, '\n', d + q) == d + n
    requires s[d + q..d + n] == rest[q..n]
    ensures FirstTrail(s) == Some(TrailHit(rest[q..n], d + n + 1))
  {
    FirstTrailAt(s, d + i, d + q, d + n, rest[q..n]);
  }

  /** TrailSkip when only whitespace follows the first tag of the
      suffix. */
  lemma {:induction false} TrailsAfterEnd(s: string, rest: string, d: nat, i: nat)
    requires d <= |s| && s[d..] == rest
    requires IndexFrom(rest, "Trail:", 0) == Some(i) && IndexFrom(s, "Trail:", 0) == Some(d + i)
    requires SkipSpace(rest, i + 6) == |rest|
    ensures TrailMatches(s) == TrailMatches(rest)
  {
    FirstTrailEnd(rest, i);
    FirstTrailEndShifted(s, rest, d, i);
    if HasNonNewline(rest, i + 6, |rest|) {
      TrailSkipLast(s, rest, d, TrailHit("", |rest| + 1), TrailHit("", d + |rest| + 1));
    } else {
      TrailNone(s);
      TrailNone(rest);
    }
  }

  /** A text without a match has no matches. */
  lemma {:induction false} TrailNone(s: string)
    requires FirstTrail(s).None?
    ensures TrailMatches(s) == []
  {
  }

  /** The step of TrailSkip where the first match ends the text. */
  lemma {:induction false} TrailSkipLast(s: string, rest: string, d: nat, h: TrailHit, g: TrailHit)
    requires d <= |s| && s[d..] == rest
    requires FirstTrail(rest) == Some(h) && h.next > |rest|
    requires g == TrailHit(h.line, d + h.next) && FirstTrail(s) == Some(g)
    ensures TrailMatches(s) == TrailMatches(rest)
  {
    TrailLast(rest, h);
    TrailLast(s, g);
  }

  /** The suffixes of a text and of its own suffix at matching positions
      have the same matches. */
  lemma {:induction false} SameSuffix(s: string, rest: string, d: nat, k: nat, j: nat)
    requires d <= |s| && s[d..] == rest && k <= |rest| && j == d + k
    ensures TrailMatches(s[j..]) == TrailMatches(rest[k..])
  {
    assert s[j..] == rest[k..];
  }

  lemma {:induction false} ConsEqual<T>(x: T, y: T, a: seq<T>, b: seq<T>)
    requires x == y && a == b
    ensures [x] + a == [y] + b
  {
  }

  /** The step of TrailSkip where text follows the first match. */
  lemma {:induction false} TrailSkipStep(s: string, rest: string, d: nat, h: TrailHit, g: TrailHit)
    requires d <= |s| && s[d..] == rest
    requires FirstTrail(rest) == Some(h) && h.next <= |rest|
    requires g == TrailHit(h.line, d + h.next) && FirstTrail(s) == Some(g)
    ensures TrailMatches(s) == TrailMatches(rest)
  {
    TrailStep(s, g);
    TrailStep(rest, h);
    SameSuffix(s, rest, d, h.next, g.next);
    ConsEqual(NameOf(g.line), NameOf(h.line), TrailMatches(s[g.next..]), TrailMatches(rest[h.next..]));
  }

  /** The first match, once its tag, the start of its name and the end of
      that name's line are known. */
  lemma {:induction false} FirstTrailAt(s: string, i: nat, q: nat, n: nat, line: string)
    requires IndexFrom(s, "Trail:", 0) == Some(i)
    requires SkipSpace(s, i + 6) == q && q < |s| && FindChar(s, '\n', q) == n && s[q..n] == line
    ensures FirstTrail(s) == Some(TrailHit(line, n + 1))
  {
  }

  /** The first match of a tag followed only by whitespace. */
  lemma {:induction false} FirstTrailEnd(s: string, i: nat)
    requires IndexFrom(s, "Trail:", 0) == Some(i) && SkipSpace(s, i + 6) == |s|
    ensures FirstTrail(s) == if HasNonNewline(s, i + 6, |s|) then Some(TrailHit("", |s| + 1)) else None
  {
  }

  /** With no trail tag starting in pre, the first tag of pre + rest is
      the first tag of rest, moved by |pre|. */
  lemma {:induction false} TrailFirst(pre: string, rest: string)
    requires forall j :: 0 <= j < |pre| ==> !OccursAt(pre + rest, "Trail:", j)
    ensures var r := IndexFrom(rest, "Trail:", 0);
      && (r.None? ==> IndexFrom(pre + rest, "Trail:", 0).None?)
      && (r.Some? ==> IndexFrom(pre + rest, "Trail:", 0) == Some(|pre| + r.value))
  {
    var s := pre + rest;
    assert s[|pre|..] == rest;
    match IndexFrom(rest, "Trail:", 0)
    case None => TrailFirstNone(s, rest, |pre|);
    case Some(i) => TrailFirstAt(s, rest, |pre|, i);
  }

  /** TrailFirst when the suffix holds no tag. */
  lemma {:induction false} TrailFirstNone(s: string, rest: string, d: nat)
    requires d <= |s| && s[d..] == rest
    requires forall j :: 0 <= j < d ==> !OccursAt(s, "Trail:", j)
    requires IndexFrom(rest, "Trail:", 0).None?
    ensures IndexFrom(s, "Trail:", 0).None?
  {
    IndexFromFirst(rest, "Trail:", 0);
    IndexFromFirst(s, "Trail:", 0);
    if IndexFrom(s, "Trail:", 0).Some? {
      var i := IndexFrom(s, "Trail:", 0).value;
      OccursShift(s, d, rest, "Trail:", i - d);
      assert false;
    }
  }

  /** TrailFirst when the suffix's first tag is at i. */
  lemma {:induction false} TrailFirstAt(s: string, rest: string, d: nat, i: nat)
    requires d <= |s| && s[d..] == rest
    requires forall j :: 0 <= j < d ==> !OccursAt(s, "Trail:", j)
    requires IndexFrom(rest, "Trail:", 0) == Some(i)
    ensures IndexFrom(s, "Trail:", 0) == Some(d + i)
  {
    IndexFromFirst(rest, "Trail:", 0);
    forall j | 0 <= j < d + i ensures !OccursAt(s, "Trail:", j) {
      if j >= d {
        OccursShift(s, d, rest, "Trail:", j - d);
      }
    }
    OccursShift(s, d, rest, "Trail:", i);
    IndexFromAt(s, "Trail:", 0, d + i);
  }

  /** Whitespace skipped in a suffix is skipped at the same place in the
      whole text. */
  lemma {:induction false} SkipSpaceShift(s: string, rest: string, d: nat, p: nat, q: nat, dp: nat, dq: nat)
    requires d <= |s| && s[d..] == rest && p <= |rest| && SkipSpace(rest, p) == q
    requires dp == d + p && dq == d + q
    ensures SkipSpace(s, dp) == dq
  {
    forall k | dp <= k < dq ensures IsSpace(s[k]) {
      assert s[k] == rest[k - d];
    }
    if dq < |s| {
      assert s[dq] == rest[q];
    }
    SkipSpaceAt(s, dp, dq);
  }

  /** A line found in a suffix is the same line of the whole text. */
  lemma {:induction false} FindCharShift(s: string, rest: string, d: nat, q: nat, n: nat, dq: nat, dn: nat)
    requires d <= |s| && s[d..] == rest && q <= |rest| && FindChar(rest, '\n', q) == n
    requires dq == d + q && dn == d + n
    ensures FindChar(s, '\n', dq) == dn
    ensures s[dq..dn] == rest[q..n]
  {
    forall k | dq <= k < dn ensures s[k] != '\n' {
      assert s[k] == rest[k - d];
    }
    if n < |rest| {
      assert s[dn] == rest[n];
    }
    FindCharIs(s, '\n', dq, dn);
    var a := s[dq..dn];
    var b := rest[q..n];
    forall m | 0 <= m < |a| ensures a[m] == b[m] {
      assert a[m] == s[dq + m] && b[m] == rest[q + m];
    }
    assert a == b;
  }

  /** Trailing whitespace of a suffix holds a non-newline exactly when it
      does in the whole text. */
  lemma {:induction false} NonNewlineShift(s: string, rest: string, d: nat, p: nat, q: nat, dp: nat, dq: nat)
    requires d <= |s| && s[d..] == rest && p <= q <= |rest|
    requires dp == d + p && dq == d + q
    ensures HasNonNewline(s, dp, dq) <==> HasNonNewline(rest, p, q)
  {
    if HasNonNewline(s, dp, dq) {
      var k :| dp <= k < dq && k < |s| && s[k] != '\n';
      assert rest[k - d] == s[k];
    }
    if HasNonNewline(rest, p, q) {
      var k :| p <= k < q && k < |rest| && rest[k] != '\n';
      assert s[d + k] == rest[k];
    }
  }

  /** The first trail line, then the rest. */
  lemma {:induction false} TrailLinesHead(names: seq<string>, tail: string)
    requires names != []
    ensures TrailLines(names) + tail == "Trail: " + names[0] + "\n" + (TrailLines(names[1..]) + tail)
  {
  }

  /** Every name after the first is clean too. */
  lemma {:induction false} CleanTail(names: seq<string>)
    requires names != [] && forall k :: 0 <= k < |names| ==> CleanName(names[k])
    ensures forall k :: 0 <= k < |names[1..]| ==> CleanName(names[1..][k])
  {
    forall k | 0 <= k < |names[1..]| ensures CleanName(names[1..][k]) {
      assert names[1..][k] == names[k + 1];
    }
  }

  lemma {:induction false} ConsAppend<T>(a: seq<T>, x: seq<T>)
    requires a != []
    ensures [a[0]] + (a[1..] + x) == a + x
  {
    assert a == [a[0]] + a[1..];
  }

  /** Consecutive trail lines read back the names they were written from,
      in order and all of them, and the search goes on in what follows. */
  lemma {:induction false} TrailLinesRead(names: seq<string>, tail: string)
    requires forall k :: 0 <= k < |names| ==> CleanName(names[k])
    ensures TrailMatches(TrailLines(names) + tail) == names + TrailMatches(tail)
    decreases |names|
  {
    if names != [] {
      var rest := TrailLines(names[1..]) + tail;
      var more := TrailMatches(tail);
      TrailLinesHead(names, tail);
      TrailHead(names[0], rest);
      CleanTail(names);
      TrailLinesRead(names[1..], tail);
      ConsAppend(names, more);
    } else {
      assert TrailLines(names) + tail == tail;
    }
  }

  /** Trail lines after any text in which no trail tag starts, such as an
      entry's heading and campground lines, read back as their names, in
      order, before the matches of the text that follows. */
  lemma {:induction false} TrailRoundTrip(pre: string, names: seq<string>, tail: string)
    requires forall k :: 0 <= k < |names| ==> CleanName(names[k])
    requires forall j :: 0 <= j < |pre| ==> !OccursAt(pre + TrailLines(names) + tail, "Trail:", j)
    ensures TrailMatches(pre + TrailLines(names) + tail) == names + TrailMatches(tail)
  {
    assert pre + TrailLines(names) + tail == pre + (TrailLines(names) + tail);
    TrailSkip(pre, TrailLines(names) + tail);
    TrailLinesRead(names, tail);
  }

  /** The names a text's trail section yields. */
  function Trails(text: string): seq<string> {
    TrailMatches(TrailSection(text))
  }

  /** An entry laid out as text without a trail tag, then its trail lines,
      then either nothing or its trail notes, yields exactly those trail
      names, in order. */
  lemma {:induction false} TrailsRoundTrip(pre: string, names: seq<string>, rest: string)
    requires forall k :: 0 <= k < |names| ==> CleanName(names[k])
    requires forall j :: 0 <= j < |pre| ==> !OccursAt(pre + TrailLines(names), "Trail:", j)
    requires forall j :: 0 <= j < |pre + TrailLines(names)| ==> !OccursAt(pre + TrailLines(names) + rest, "Trail Notes:", j)
    requires rest == [] || OccursAt(rest, "Trail Notes:", 0)
    ensures Trails(pre + TrailLines(names) + rest) == names
  {
    var sec := pre + TrailLines(names);
    var text := sec + rest;
    var r := TrailSection(text);
    if rest != [] {
      assert text[|sec|..] == rest;
      OccursShift(text, |sec|, rest, "Trail Notes:", 0);
    }
    assert |r| == |sec|;
    assert r == sec;
    assert sec == pre + TrailLines(names) + "";
    TrailRoundTrip(pre, names, "");
    assert names + TrailMatches("") == names;
  }
}
