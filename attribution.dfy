/** Attributing page links to the parts of an entry (extract_entry_from_page):
    the campground link with its trail-keyword filter, the trail anchors
    counted across earlier entries, the nearest blog-post link and the
    first unclaimed contributor-blog link. */
module Attribution {
  import opened Wrappers
  import opened Text
  import opened Segmenter
  import opened Links
  import opened Fields

  /** A word the page layout reports, with the y coordinate of its top. */
  datatype Word = Word(text: string, top: real)

  /** A name with the link attributed to it: `{'name': …, 'link': …}`. */
  datatype Named = Named(name: string, link: Option<string>)

  /** The tops of the words whose text is exactly w, in page order. */
  function WordTops(words: seq<Word>, w: string): (r: seq<real>)
    ensures |r| <= |words|
    decreases |words|
  {
    if words == [] then []
    else (if words[0].text == w then [words[0].top] else []) + WordTops(words[1..], w)
  }

  /** t is the top of some word whose text is w. */
  predicate TopOf(words: seq<Word>, w: string, t: real) {
    exists j :: 0 <= j < |words| && words[j].text == w && words[j].top == t
  }

  /** Every top collected is the top of a word with that text, and every
      word with that text gives one. */
  lemma {:induction false} WordTopsSound(words: seq<Word>, w: string)
    ensures forall k :: 0 <= k < |WordTops(words, w)| ==> TopOf(words, w, WordTops(words, w)[k])
    ensures forall j :: 0 <= j < |words| && words[j].text == w ==> words[j].top in WordTops(words, w)
    decreases |words|
  {
    if words != [] {
      var r := WordTops(words, w);
      var r' := WordTops(words[1..], w);
      var h := if words[0].text == w then [words[0].top] else [];
      assert r == h + r';
      WordTopsSound(words[1..], w);
      forall k | 0 <= k < |r| ensures TopOf(words, w, r[k]) {
        if k < |h| {
          assert words[0].top == r[k];
        } else {
          assert r[k] == r'[k - |h|];
          var j :| 0 <= j < |words[1..]| && words[1..][j].text == w && words[1..][j].top == r'[k - |h|];
          assert words[j + 1] == words[1..][j];
        }
      }
      forall j | 0 <= j < |words| && words[j].text == w ensures words[j].top in r {
        if j > 0 {
          assert words[1..][j - 1] == words[j];
        }
      }
    }
  }

  // ---------------------------------------------------------------------
  // Campground link

  /** URI fragments that mark a trail or path page rather than a
      campground's own page. */
  const TrailKeywords: seq<string> :=
    ["/trail/", "/trails", "traillink.com", "recreationtrails", "loop", "greenway", "bikeway", "pathway", "/bicycling"]

  /** The URI, lower-cased, contains one of the trail keywords. */
  predicate LooksLikeTrail(uri: string) {
    exists k :: 0 <= k < |TrailKeywords| && Contains(Lower(uri), TrailKeywords[k])
  }

  /** The campground link: the band lookup at the index-th "Campground:"
      word of the page, kept only when it is a non-empty URI that does not
      look like a trail link. */
  function CampgroundLink(tops: seq<real>, links: seq<Link>, index: nat): Option<string> {
    if index < |tops| then
      match LinkFor(links, tops[index])
      case None => None
      case Some(u) => if u != "" && !LooksLikeTrail(u) then Some(u) else None
    else None
  }

  /** The campground link is the URI of the first link whose band holds the
      index-th "Campground:" word, when that URI is not empty and mentions
      no trail keyword; a URI with a trail keyword is never kept, even when
      its band matches, and neither is anything when the page has too few
      "Campground:" words. */
  lemma {:induction false} CampgroundLinkMeaning(tops: seq<real>, links: seq<Link>, index: nat)
    ensures var r := CampgroundLink(tops, links, index);
      && (r.Some? <==>
            index < |tops| && LinkFor(links, tops[index]).Some?
            && LinkFor(links, tops[index]).value != "" && !LooksLikeTrail(LinkFor(links, tops[index]).value))
      && (r.Some? ==>
            exists k :: 0 <= k < |links| && InBand(links[k], tops[index]) && links[k].uri == r.value
                        && forall j :: 0 <= j < k ==> !InBand(links[j], tops[index]))
      && (r.Some? ==> forall k :: 0 <= k < |TrailKeywords| ==> !Contains(Lower(r.value), TrailKeywords[k]))
  {
    if index < |tops| {
      LinkForMeaning(links, tops[index]);
    }
  }

  // ---------------------------------------------------------------------
  // Trail anchors

  /** The text of entry i, or "" past the last entry. */
  function EntryText(blocks: seq<Block>, i: nat): string {
    if i < |blocks| then BlockText(blocks[i]) else ""
  }

  /** The sum of count over the texts of the entries before entry n. */
  function CountBefore(blocks: seq<Block>, n: nat, count: string -> nat): nat {
    if n == 0 then 0 else CountBefore(blocks, n - 1, count) + count(EntryText(blocks, n - 1))
  }

  /** The anchors of different entries never overlap: entry a claims the
      words from CountBefore(a) on, and every later entry starts past them. */
  lemma {:induction false} AnchorsDisjoint(blocks: seq<Block>, count: string -> nat, a: nat, b: nat)
    requires a < b
    ensures CountBefore(blocks, a, count) + count(EntryText(blocks, a)) <= CountBefore(blocks, b, count)
    decreases b
  {
    if b > a + 1 {
      AnchorsDisjoint(blocks, count, a, b - 1);
    }
  }

  /** The loop that sums count over the entries before entry `index`,
      reading "" for an index past the last entry. */
  method SumBefore(blocks: seq<Block>, index: nat, count: string -> nat) returns (offset: nat)
    ensures offset == CountBefore(blocks, index, count)
  {
    offset := 0;
    for ei := 0 to index
      invariant offset == CountBefore(blocks, ei, count)
    {
      var prev := if ei < |blocks| then BlockText(blocks[ei]) else "";
      offset := offset + count(prev);
    }
  }

  /** The number of trail matches in an entry's text. */
  function TrailCount(text: string): nat {
    |Trails(text)|
  }

  /** The number of trail matches in the entries before entry n. */
  function TrailsBefore(blocks: seq<Block>, n: nat): nat {
    CountBefore(blocks, n, TrailCount)
  }

  /** The trail anchors of different entries never overlap: the trails of
      entry a take the "Trail:" words from TrailsBefore(a) on, and every
      later entry starts past them. */
  lemma {:induction false} TrailAnchorsDisjoint(blocks: seq<Block>, a: nat, b: nat)
    requires a < b
    ensures TrailsBefore(blocks, a) + |Trails(EntryText(blocks, a))| <= TrailsBefore(blocks, b)
  {
    AnchorsDisjoint(blocks, TrailCount, a, b);
  }

  /** The trail-word offset of entry `index`: the trail matches of the
      entries before it. */
  method TrailOffset(blocks: seq<Block>, index: nat) returns (offset: nat)
    ensures offset == TrailsBefore(blocks, index)
  {
    offset := SumBefore(blocks, index, TrailCount);
  }

  /** The link of the trail anchored at the w-th "Trail:" word, if the page
      has that many. */
  function TrailLink(tops: seq<real>, links: seq<Link>, w: nat): Option<string> {
    if w < |tops| then LinkFor(links, tops[w]) else None
  }

  /** The trails of entry `index`, each name with the link of its anchor. */
  function AttributedTrails(names: seq<string>, base: nat, tops: seq<real>, links: seq<Link>): seq<Named> {
    seq(|names|, i requires 0 <= i < |names| => Named(names[i], TrailLink(tops, links, base + i)))
  }

  /** The trail loop: the i-th trail name of entry `index` gets the link of
      the "Trail:" word numbered (trails in earlier entries) + i. */
  method AttributeTrails(names: seq<string>, blocks: seq<Block>, index: nat, tops: seq<real>, links: seq<Link>)
    returns (trails: seq<Named>)
    ensures |trails| == |names|
    ensures forall i :: 0 <= i < |names| ==>
      trails[i].name == names[i] && trails[i].link == TrailLink(tops, links, TrailsBefore(blocks, index) + i)
    ensures trails == AttributedTrails(names, TrailsBefore(blocks, index), tops, links)
  {
    ghost var base := TrailsBefore(blocks, index);
    trails := [];
    for i := 0 to |names|
      invariant |trails| == i
      invariant forall k :: 0 <= k < i ==> trails[k] == Named(names[k], TrailLink(tops, links, base + k))
    {
      var offset := TrailOffset(blocks, index);
      var wordIndex := offset + i;
      var link: Option<string> := None;
      if wordIndex < |tops| {
        link := FindLinkForPosition(links, tops[wordIndex]);
      }
      assert wordIndex == base + i && link == TrailLink(tops, links, wordIndex);
      TrailsGrow(trails, names, base, tops, links, i, link);
      trails := trails + [Named(names[i], link)];
    }
    AttributedTrailsIs(trails, names, base, tops, links);
  }

  /** One more step of the trail loop keeps every name paired with the
      link of its anchor. */
  lemma {:induction false} TrailsGrow(trails: seq<Named>, names: seq<string>, base: nat, tops: seq<real>, links: seq<Link>,
                                      i: nat, link: Option<string>)
    requires |trails| == i < |names|
    requires forall k :: 0 <= k < i ==> trails[k] == Named(names[k], TrailLink(tops, links, base + k))
    requires link == TrailLink(tops, links, base + i)
    ensures |trails + [Named(names[i], link)]| == i + 1
    ensures forall k :: 0 <= k < i + 1 ==>
      (trails + [Named(names[i], link)])[k] == Named(names[k], TrailLink(tops, links, base + k))
  {
  }

  /** A list that pairs each name with the link of its anchor is the
      attributed trail list. */
  lemma {:induction false} AttributedTrailsIs(trails: seq<Named>, names: seq<string>, base: nat, tops: seq<real>, links: seq<Link>)
    requires |trails| == |names|
    requires forall k :: 0 <= k < |names| ==> trails[k] == Named(names[k], TrailLink(tops, links, base + k))
    ensures trails == AttributedTrails(names, base, tops, links)
  {
  }

  // ---------------------------------------------------------------------
  // Blog-post link

  /** The label whose presence in an entry claims one "Related" word. */
  const BlogPostTag := "Related Blog Post:"

  /** The host name that marks a link to the authors' own blog. */
  const BlogMarker := "chambersontheroad"

  /** 1 when an entry's text holds a related blog post. */
  function RelatedCount(text: string): nat {
    if Contains(text, BlogPostTag) then 1 else 0
  }

  /** The number of entries before entry n that hold a related blog post. */
  function RelatedBefore(blocks: seq<Block>, n: nat): nat {
    CountBefore(blocks, n, RelatedCount)
  }

  /** Each entry with a related blog post claims its own "Related" word:
      a later entry's offset is past it. */
  lemma {:induction false} RelatedAnchorsDistinct(blocks: seq<Block>, a: nat, b: nat)
    requires a < b && Contains(EntryText(blocks, a), BlogPostTag)
    ensures RelatedBefore(blocks, a) < RelatedBefore(blocks, b)
  {
    AnchorsDisjoint(blocks, RelatedCount, a, b);
  }

  /** The "Related" word offset of entry `index`: the entries before it
      that hold a related blog post. */
  method RelatedOffset(blocks: seq<Block>, index: nat) returns (offset: nat)
    ensures offset == RelatedBefore(blocks, index)
  {
    offset := SumBefore(blocks, index, RelatedCount);
  }

  /** The links whose URI mentions the blog, in page order. */
  function BlogLinks(links: seq<Link>): (r: seq<Link>)
    ensures forall k :: 0 <= k < |r| ==> r[k] in links && Contains(r[k].uri, BlogMarker)
    decreases |links|
  {
    if links == [] then []
    else (if Contains(links[0].uri, BlogMarker) then [links[0]] else []) + BlogLinks(links[1..])
  }

  /** Every blog link of the page is a candidate. */
  lemma {:induction false} BlogLinksComplete(links: seq<Link>)
    ensures forall l :: l in links && Contains(l.uri, BlogMarker) ==> l in BlogLinks(links)
    decreases |links|
  {
    if links != [] {
      BlogLinksComplete(links[1..]);
      forall l | l in links && Contains(l.uri, BlogMarker) ensures l in BlogLinks(links) {
        if l != links[0] {
          assert l in links[1..];
        }
      }
    }
  }

  /** The page positions, from i on, of the links whose URI mentions the
      blog, in increasing order. */
  function BlogPositions(links: seq<Link>, i: nat): (r: seq<nat>)
    requires i <= |links|
    ensures forall k :: 0 <= k < |r| ==> i <= r[k] < |links| && Contains(links[r[k]].uri, BlogMarker)
    ensures forall a, b :: 0 <= a < b < |r| ==> r[a] < r[b]
    decreases |links| - i
  {
    if i == |links| then []
    else (if Contains(links[i].uri, BlogMarker) then [i] else []) + BlogPositions(links, i + 1)
  }

  /** The filter keeps page order: the k-th blog link of links[i..] is the
      link at the k-th blog position from i on. */
  lemma {:induction false} BlogLinksInOrder(links: seq<Link>, i: nat)
    requires i <= |links|
    ensures var c := BlogLinks(links[i..]);
      var ps := BlogPositions(links, i);
      && |c| == |ps|
      && forall k :: 0 <= k < |c| ==> c[k] == links[ps[k]]
    decreases |links| - i
  {
    if i < |links| {
      BlogLinksInOrder(links, i + 1);
      assert links[i..][1..] == links[i + 1..];
      assert links[i..][0] == links[i];
    }
  }

  /** Every blog link from i on has its position listed. */
  lemma {:induction false} BlogPositionsComplete(links: seq<Link>, i: nat, q: nat)
    requires i <= q < |links| && Contains(links[q].uri, BlogMarker)
    ensures q in BlogPositions(links, i)
    decreases q - i
  {
    if i < q {
      BlogPositionsComplete(links, i + 1, q);
    }
  }

  function Abs(x: real): real {
    if x < 0.0 then -x else x
  }

  /** How far a link's top is from y. */
  function Distance(l: Link, y: real): real {
    Abs(l.yTop - y)
  }

  /** `min(cands, key=distance)`, as a scan from i on that replaces the best
      candidate only by a strictly closer one. */
  function NearestFrom(cands: seq<Link>, y: real, i: nat, best: nat): (k: nat)
    requires best < i <= |cands|
    ensures k < |cands|
    decreases |cands| - i
  {
    if i == |cands| then best
    else NearestFrom(cands, y, i + 1, if Distance(cands[i], y) < Distance(cands[best], y) then i else best)
  }

  function Nearest(cands: seq<Link>, y: real): (k: nat)
    requires |cands| > 0
    ensures k < |cands|
  {
    NearestFrom(cands, y, 1, 0)
  }

  /** Scanning on from a best candidate of the first i keeps the best of all. */
  lemma {:induction false} NearestFromMeaning(cands: seq<Link>, y: real, i: nat, best: nat)
    requires best < i <= |cands|
    requires forall j :: 0 <= j < i ==> Distance(cands[best], y) <= Distance(cands[j], y)
    requires forall j :: 0 <= j < best ==> Distance(cands[best], y) < Distance(cands[j], y)
    ensures var k := NearestFrom(cands, y, i, best);
      && k < |cands|
      && (forall j :: 0 <= j < |cands| ==> Distance(cands[k], y) <= Distance(cands[j], y))
      && (forall j :: 0 <= j < k ==> Distance(cands[k], y) < Distance(cands[j], y))
    decreases |cands| - i
  {
    if i < |cands| {
      var next := if Distance(cands[i], y) < Distance(cands[best], y) then i else best;
      NearestFromMeaning(cands, y, i + 1, next);
    }
  }

  /** The nearest candidate is no farther than any other, and strictly
      nearer than every candidate before it: ties go to the earliest. */
  lemma {:induction false} NearestMeaning(cands: seq<Link>, y: real)
    requires |cands| > 0
    ensures var k := Nearest(cands, y);
      && k < |cands|
      && (forall j :: 0 <= j < |cands| ==> Distance(cands[k], y) <= Distance(cands[j], y))
      && (forall j :: 0 <= j < k ==> Distance(cands[k], y) < Distance(cands[j], y))
  {
    NearestFromMeaning(cands, y, 1, 0);
  }

  /** The blog-post link of entry `index`: the blog link nearest to the
      "Related" word that entry claims. */
  function BlogPostLink(blocks: seq<Block>, words: seq<Word>, links: seq<Link>, index: nat): Option<string> {
    var tops := WordTops(words, "Related");
    var offset := RelatedBefore(blocks, index);
    var cands := BlogLinks(links);
    if offset < |tops| && |cands| > 0 then
      Some(cands[Nearest(cands, tops[offset])].uri)
    else None
  }

  /** The blog-post link is the URI of a blog link of the page at least as
      close to the claimed "Related" word as every other blog link, and
      strictly closer than every blog link earlier on the page (ties go to
      the earliest); there is none exactly when the page has too few
      "Related" words or no blog link. */
  lemma {:induction false} BlogPostLinkMeaning(blocks: seq<Block>, words: seq<Word>, links: seq<Link>, index: nat)
    ensures var tops := WordTops(words, "Related");
      var offset := RelatedBefore(blocks, index);
      var r := BlogPostLink(blocks, words, links, index);
      && (r.None? <==> offset >= |tops| || forall l :: l in links ==> !Contains(l.uri, BlogMarker))
      && (r.Some? ==>
            exists p :: 0 <= p < |links| && Contains(links[p].uri, BlogMarker) && links[p].uri == r.value
              && (forall q :: 0 <= q < |links| && Contains(links[q].uri, BlogMarker) ==>
                    Distance(links[p], tops[offset]) <= Distance(links[q], tops[offset]))
              && (forall q :: 0 <= q < p && Contains(links[q].uri, BlogMarker) ==>
                    Distance(links[p], tops[offset]) < Distance(links[q], tops[offset])))
  {
    var tops := WordTops(words, "Related");
    var offset := RelatedBefore(blocks, index);
    var cands := BlogLinks(links);
    BlogLinksComplete(links);
    if |cands| > 0 {
      assert cands[0] in links;
    }
    if offset < |tops| && |cands| > 0 {
      NearestBlogLink(links, tops[offset]);
    }
  }

  /** The nearest blog link, read at its page position. */
  lemma {:induction false} NearestBlogLink(links: seq<Link>, y: real)
    requires |BlogLinks(links)| > 0
    ensures var cands := BlogLinks(links);
      exists p :: 0 <= p < |links| && Contains(links[p].uri, BlogMarker)
        && links[p].uri == cands[Nearest(cands, y)].uri
        && (forall q :: 0 <= q < |links| && Contains(links[q].uri, BlogMarker) ==>
              Distance(links[p], y) <= Distance(links[q], y))
        && (forall q :: 0 <= q < p && Contains(links[q].uri, BlogMarker) ==>
              Distance(links[p], y) < Distance(links[q], y))
  {
    var cands := BlogLinks(links);
    var ps := BlogPositions(links, 0);
    assert links[0..] == links;
    BlogLinksInOrder(links, 0);
    forall q | 0 <= q < |links| && Contains(links[q].uri, BlogMarker) ensures q in ps {
      BlogPositionsComplete(links, 0, q);
    }
    NearestMeaning(cands, y);
    var k := Nearest(cands, y);
    NearestAtPosition(links, cands, ps, y, k);
  }

  /** A first nearest candidate, read at its position in an order-keeping
      list of positions that covers every blog link. */
  lemma {:induction false} NearestAtPosition(links: seq<Link>, cands: seq<Link>, ps: seq<nat>, y: real, k: nat)
    requires |cands| == |ps| && k < |cands|
    requires forall i :: 0 <= i < |ps| ==> ps[i] < |links| && cands[i] == links[ps[i]]
    requires forall i :: 0 <= i < |cands| ==> Contains(cands[i].uri, BlogMarker)
    requires forall a, b :: 0 <= a < b < |ps| ==> ps[a] < ps[b]
    requires forall q :: 0 <= q < |links| && Contains(links[q].uri, BlogMarker) ==> q in ps
    requires forall j :: 0 <= j < |cands| ==> Distance(cands[k], y) <= Distance(cands[j], y)
    requires forall j :: 0 <= j < k ==> Distance(cands[k], y) < Distance(cands[j], y)
    ensures exists p :: 0 <= p < |links| && Contains(links[p].uri, BlogMarker)
              && links[p].uri == cands[k].uri
              && (forall q :: 0 <= q < |links| && Contains(links[q].uri, BlogMarker) ==>
                    Distance(links[p], y) <= Distance(links[q], y))
              && (forall q :: 0 <= q < p && Contains(links[q].uri, BlogMarker) ==>
                    Distance(links[p], y) < Distance(links[q], y))
  {
    var p := ps[k];
    forall q | 0 <= q < |links| && Contains(links[q].uri, BlogMarker)
      ensures Distance(links[p], y) <= Distance(links[q], y)
      ensures q < p ==> Distance(links[p], y) < Distance(links[q], y)
    {
      var j :| 0 <= j < |ps| && ps[j] == q;
      assert cands[j] == links[q];
      assert k < j ==> p < ps[j];
    }
    assert 0 <= p < |links| && links[p] == cands[k];
  }

  // ---------------------------------------------------------------------
  // Contributor-blog link

  /** A link not yet claimed by the entry and not a blog link. */
  predicate Unclaimed(l: Link, used: seq<Option<string>>) {
    Some(l.uri) !in used && !Contains(l.uri, BlogMarker)
  }

  /** The index of the first unclaimed link at or after i, or |links|. */
  function FirstUnclaimedFrom(links: seq<Link>, used: seq<Option<string>>, i: nat): (k: nat)
    requires i <= |links|
    ensures i <= k <= |links|
    ensures k < |links| ==> Unclaimed(links[k], used)
    ensures forall j :: i <= j < k ==> !Unclaimed(links[j], used)
    decreases |links| - i
  {
    if i == |links| || Unclaimed(links[i], used) then i else FirstUnclaimedFrom(links, used, i + 1)
  }

  function ContributorBlogLink(links: seq<Link>, used: seq<Option<string>>): Option<string> {
    var k := FirstUnclaimedFrom(links, used, 0);
    if k < |links| then Some(links[k].uri) else None
  }

  /** The contributor-blog link is the URI of the first link, in page order,
      that is neither claimed nor a blog link; there is none exactly when
      every link is one or the other. */
  lemma {:induction false} ContributorBlogLinkMeaning(links: seq<Link>, used: seq<Option<string>>)
    ensures var r := ContributorBlogLink(links, used);
      && (r.None? <==> forall j :: 0 <= j < |links| ==> !Unclaimed(links[j], used))
      && (r.Some? ==> Some(r.value) !in used && !Contains(r.value, BlogMarker))
      && (r.Some? ==>
            exists k :: 0 <= k < |links| && links[k].uri == r.value
                        && forall j :: 0 <= j < k ==> !Unclaimed(links[j], used))
  {
    var k := FirstUnclaimedFrom(links, used, 0);
    if k < |links| {
      assert Unclaimed(links[k], used);
    }
  }

  /** A first unclaimed link found by a scan is the one FirstUnclaimedFrom
      names. */
  lemma {:induction false} FirstUnclaimedAt(links: seq<Link>, used: seq<Option<string>>, i: nat, k: nat)
    requires i <= k <= |links|
    requires forall j :: i <= j < k ==> !Unclaimed(links[j], used)
    requires k == |links| || Unclaimed(links[k], used)
    ensures FirstUnclaimedFrom(links, used, i) == k
    decreases k - i
  {
    if i < k {
      FirstUnclaimedAt(links, used, i + 1, k);
    }
  }

  /** The contributor-blog loop: the first link whose URI is not among the
      used ones and is not a blog link. */
  method FindContributorBlogLink(links: seq<Link>, used: seq<Option<string>>) returns (r: Option<string>)
    ensures r == ContributorBlogLink(links, used)
  {
    r := None;
    for i := 0 to |links|
      invariant forall j :: 0 <= j < i ==> !Unclaimed(links[j], used)
    {
      var link := links[i];
      if Some(link.uri) !in used && !Contains(link.uri, BlogMarker) {
        FirstUnclaimedAt(links, used, 0, i);
        return Some(link.uri);
      }
    }
    FirstUnclaimedAt(links, used, 0, |links|);
  }
}
