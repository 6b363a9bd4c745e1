/** Page links: the annotation filter and coordinate flip of
    extract_links_from_page, and the vertical band lookup of
    find_link_for_position. */
module Links {
  import opened Wrappers

  /** The `/A` action of an annotation; `uri` is its `/URI` entry, if any. */
  datatype Action = Action(uri: Option<string>)

  /** A page annotation as the PDF reader yields it: its `/Subtype` name,
      its `/A` action and its `/Rect` numbers (empty when absent). */
  datatype Annotation = Annotation(subtype: Option<string>, action: Option<Action>, rect: seq<real>)

  /** A link in top-down page coordinates. */
  datatype Link = Link(uri: string, x0: real, x1: real, yTop: real, yBottom: real)

  /** An annotation the extractor turns into a link: a `/Link` whose action
      carries a `/URI` and whose rectangle is not empty. */
  predicate IsUriLink(a: Annotation) {
    && a.subtype == Some("/Link")
    && a.action.Some? && a.action.value.uri.Some?
    && |a.rect| > 0
  }

  /** The link of a URI annotation, its rectangle turned from the PDF's
      bottom-up y axis into the top-down one of a page of the given
      height. */
  function Flip(a: Annotation, height: real): (l: Link)
    requires IsUriLink(a) && |a.rect| >= 4
    ensures l.uri == a.action.value.uri.value && l.x0 == a.rect[0] && l.x1 == a.rect[2]
    ensures height - l.yTop == a.rect[3] && height - l.yBottom == a.rect[1]
    ensures l.yBottom - l.yTop == a.rect[3] - a.rect[1]
    ensures a.rect[1] <= a.rect[3] ==> l.yTop <= l.yBottom
  {
    Link(a.action.value.uri.value, a.rect[0], a.rect[2], height - a.rect[3], height - a.rect[1])
  }

  /** The links of the first n annotations, in order, or None when one of
      them is a URI link whose rectangle has fewer than four numbers (the
      source then fails with an index error). */
  function LinksUpTo(annots: seq<Annotation>, height: real, n: nat): Option<seq<Link>>
    requires n <= |annots|
  {
    if n == 0 then Some([])
    else
      match LinksUpTo(annots, height, n - 1)
      case None => None
      case Some(ls) =>
        var a := annots[n - 1];
        if !IsUriLink(a) then Some(ls)
        else if |a.rect| < 4 then None
        else Some(ls + [Flip(a, height)])
  }

  function LinksOf(annots: seq<Annotation>, height: real): Option<seq<Link>> {
    LinksUpTo(annots, height, |annots|)
  }

  /** Once an annotation has failed, every longer prefix fails too. */
  lemma {:induction false} LinksUpToFails(annots: seq<Annotation>, height: real, i: nat, n: nat)
    requires i <= n <= |annots| && LinksUpTo(annots, height, i).None?
    ensures LinksUpTo(annots, height, n).None?
    decreases n
  {
    if n > i {
      LinksUpToFails(annots, height, i, n - 1);
    }
  }

  /** extract_links_from_page, from the annotations on: one pass that keeps
      the URI links in order, with flipped coordinates. */
  method ExtractLinks(annots: seq<Annotation>, height: real) returns (r: Option<seq<Link>>)
    ensures r == LinksOf(annots, height)
  {
    var links: seq<Link> := [];
    var i := 0;
    while i < |annots|
      invariant 0 <= i <= |annots|
      invariant LinksUpTo(annots, height, i) == Some(links)
    {
      var a := annots[i];
      if a.subtype == Some("/Link") {
        if a.action.Some? {
          var action := a.action.value;
          if action.uri.Some? {
            var rect := a.rect;
            if |rect| > 0 {
              if |rect| < 4 {
                LinksUpToFails(annots, height, i + 1, |annots|);
                return None;
              }
              var yTop := height - rect[3];
              var yBottom := height - rect[1];
              links := links + [Link(action.uri.value, rect[0], rect[2], yTop, yBottom)];
            }
          }
        }
      }
      i := i + 1;
    }
    r := Some(links);
  }

  // ---------------------------------------------------------------------
  // The same result as a filter followed by a map

  /** The URI-link annotations among the first n, in order. */
  function UriLinks(annots: seq<Annotation>, n: nat): (r: seq<Annotation>)
    requires n <= |annots|
    ensures forall k :: 0 <= k < |r| ==> IsUriLink(r[k])
  {
    if n == 0 then []
    else UriLinks(annots, n - 1) + (if IsUriLink(annots[n - 1]) then [annots[n - 1]] else [])
  }

  /** Every URI-link annotation has a full rectangle. */
  predicate AllFull(us: seq<Annotation>) {
    forall k :: 0 <= k < |us| ==> |us[k].rect| >= 4
  }

  /** Link extraction succeeds exactly when every URI-link annotation has a
      full rectangle, and then yields the flip of each of them, in order. */
  lemma {:induction false} LinksAreFlippedUriLinks(annots: seq<Annotation>, height: real, n: nat)
    requires n <= |annots|
    ensures var us := UriLinks(annots, n);
      && (LinksUpTo(annots, height, n).Some? <==> AllFull(us))
      && (LinksUpTo(annots, height, n).Some? ==>
            var ls := LinksUpTo(annots, height, n).value;
            |ls| == |us| && forall k :: 0 <= k < |us| ==> ls[k] == Flip(us[k], height))
  {
    if n > 0 {
      LinksAreFlippedUriLinks(annots, height, n - 1);
      var us' := UriLinks(annots, n - 1);
      var us := UriLinks(annots, n);
      var a := annots[n - 1];
      if IsUriLink(a) {
        assert us == us' + [a];
        if AllFull(us) {
          assert AllFull(us') by {
            forall k | 0 <= k < |us'| ensures |us'[k].rect| >= 4 {
              assert us[k] == us'[k];
            }
          }
          assert |a.rect| >= 4 by { assert us[|us| - 1] == a; }
        }
        if LinksUpTo(annots, height, n).Some? {
          var ls' := LinksUpTo(annots, height, n - 1).value;
          var ls := LinksUpTo(annots, height, n).value;
          assert ls == ls' + [Flip(a, height)];
          forall k | 0 <= k < |us| ensures ls[k] == Flip(us[k], height) {
            if k < |us'| {
              assert ls[k] == ls'[k] && us[k] == us'[k];
            }
          }
        }
      } else {
        assert us == us';
      }
    }
  }

  // ---------------------------------------------------------------------
  // find_link_for_position

  /** The link's vertical extent, widened by 5 points on each side,
      contains y. */
  predicate InBand(l: Link, y: real) {
    l.yTop - 5.0 <= y <= l.yBottom + 5.0
  }

  /** The index of the first link at or after i whose band contains y, or
      |links| when there is none. */
  function FirstInBand(links: seq<Link>, y: real, i: nat): (k: nat)
    requires i <= |links|
    ensures i <= k <= |links|
    ensures k < |links| ==> InBand(links[k], y)
    ensures forall j :: i <= j < k ==> !InBand(links[j], y)
    decreases |links| - i
  {
    if i == |links| || InBand(links[i], y) then i else FirstInBand(links, y, i + 1)
  }

  /** The URI of the first link, in list order, whose band contains y. */
  function LinkFor(links: seq<Link>, y: real): Option<string> {
    var k := FirstInBand(links, y, 0);
    if k < |links| then Some(links[k].uri) else None
  }

  /** The first link whose band contains y is found, and None is returned
      exactly when no band contains y. */
  lemma {:induction false} LinkForMeaning(links: seq<Link>, y: real)
    ensures LinkFor(links, y).None? <==> forall j :: 0 <= j < |links| ==> !InBand(links[j], y)
    ensures LinkFor(links, y).Some? ==>
      exists k :: 0 <= k < |links| && InBand(links[k], y) && LinkFor(links, y).value == links[k].uri
                  && forall j :: 0 <= j < k ==> !InBand(links[j], y)
  {
    var k := FirstInBand(links, y, 0);
    if k < |links| {
      assert InBand(links[k], y);
    }
  }

  /** A first match found by a scan is the one FirstInBand names. */
  lemma {:induction false} FirstInBandAt(links: seq<Link>, y: real, i: nat, k: nat)
    requires i <= k <= |links|
    requires forall j :: i <= j < k ==> !InBand(links[j], y)
    requires k == |links| || InBand(links[k], y)
    ensures FirstInBand(links, y, i) == k
    decreases k - i
  {
    if i < k {
      FirstInBandAt(links, y, i + 1, k);
    }
  }

  /** find_link_for_position: scan the links in order and return the URI of
      the first one whose band contains y. */
  method FindLinkForPosition(links: seq<Link>, y: real) returns (uri: Option<string>)
    ensures uri == LinkFor(links, y)
  {
    var i := 0;
    while i < |links|
      invariant 0 <= i <= |links|
      invariant forall j :: 0 <= j < i ==> !InBand(links[j], y)
    {
      var link := links[i];
      if link.yTop - 5.0 <= y <= link.yBottom + 5.0 {
        FirstInBandAt(links, y, 0, i);
        return Some(link.uri);
      }
      i := i + 1;
    }
    FirstInBandAt(links, y, 0, |links|);
    return None;
  }
}
