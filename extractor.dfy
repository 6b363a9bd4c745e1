/** One entry of a page (extract_entry_from_page): the entry's block is
    found by segmentation, its fields are read from the block's text and
    its links are attributed from the page's words and links. */
module Extractor {
  import opened Wrappers
  import opened Text
  import opened Heading
  import opened Segmenter
  import opened Links
  import opened Fields
  import opened Attribution

  /** The entry dictionary; a None field is a key the dictionary does not
      hold. The extractor never sets hookupType (the command line does). */
  datatype Entry = Entry(
    location: Option<Location>,
    hookupType: Option<string>,
    campground: Option<Named>,
    cgNotes: Option<string>,
    trail: Option<Named>,
    trails: Option<seq<Named>>,
    trailNotes: Option<string>,
    directions: Option<string>,
    other: Option<string>,
    blogPost: Option<string>,
    blogPostLink: Option<string>,
    contributor: Option<string>,
    contributorBlog: Option<string>,
    contributorBlogLink: Option<string>)

  /** `{}` */
  const EmptyEntry := Entry(None, None, None, None, None, None, None, None, None, None, None, None, None, None)

  // ---------------------------------------------------------------------
  // City and state

  /** The location of the first line, from i on, that parses as a heading. */
  function LocationFrom(lines: seq<string>, i: nat): Option<Location>
    requires i <= |lines|
    decreases |lines| - i
  {
    if i == |lines| then None
    else if ParseHeading(lines[i]).Some? then ParseHeading(lines[i])
    else LocationFrom(lines, i + 1)
  }

  /** The city loop: the first line of the entry's text that matches the
      heading pattern gives the city, state and hookup code. */
  method FindLocation(text: string, parse: string -> Option<Location>) returns (loc: Option<Location>)
    requires forall line :: parse(line) == ParseHeading(line)
    ensures loc == LocationFrom(SplitLines(text), 0)
  {
    var lines := SplitLines(text);
    for i := 0 to |lines|
      invariant LocationFrom(lines, 0) == LocationFrom(lines, i)
    {
      var m := parse(lines[i]);
      if m.Some? {
        return m;
      }
    }
    return None;
  }

  /** Every line of a block of the page has no newline in it. */
  lemma {:induction false} BlockLinesSplit(pageText: string, j: nat)
    requires j < |Segment(SplitLines(pageText))|
    ensures var b := Segment(SplitLines(pageText))[j];
      |b.lines| > 0 && forall k :: 0 <= k < |b.lines| ==> '\n' !in b.lines[k]
  {
    var lines := SplitLines(pageText);
    var kinds := Kinds(lines);
    var b := Segment(lines)[j];
    BlockHeading(lines, kinds, j);
    forall k | 0 <= k < |b.lines| ensures '\n' !in b.lines[k] {
      if k > 0 {
        var i := BodyLine(lines, kinds, j, k);
      }
    }
  }

  /** The city loop finds the block's own heading: its first line. */
  lemma {:induction false} BlockLocation(pageText: string, j: nat)
    requires j < |Segment(SplitLines(pageText))|
    ensures var b := Segment(SplitLines(pageText))[j];
      && |b.lines| > 0
      && ParseHeading(b.lines[0]).Some?
      && LocationFrom(SplitLines(BlockText(b)), 0) == ParseHeading(b.lines[0])
  {
    var lines := SplitLines(pageText);
    var kinds := Kinds(lines);
    var b := Segment(lines)[j];
    BlockHeading(lines, kinds, j);
    KindsAt(lines, b.startLine);
    BlockLinesSplit(pageText, j);
    SplitJoin(b.lines);
  }

  // ---------------------------------------------------------------------
  // The entry

  /** `entry.get(key, {}).get('link')` for a named part. */
  function LinkOf(n: Option<Named>): Option<string> {
    if n.Some? then n.value.link else None
  }

  /** The campground part: the name, with the link at the index-th
      "Campground:" word. */
  function CampgroundOf(text: string, words: seq<Word>, links: seq<Link>, index: nat): Option<Named> {
    match CampgroundName(text)
    case None => None
    case Some(name) => Some(Named(name, CampgroundLink(WordTops(words, "Campground:"), links, index)))
  }

  /** The campground loop body: the name, and the band lookup at the
      index-th "Campground:" word unless it is empty or trail-like. */
  method ReadCampground(text: string, words: seq<Word>, links: seq<Link>, index: nat) returns (cg: Option<Named>)
    ensures cg == CampgroundOf(text, words, links, index)
  {
    cg := None;
    var cgName := CampgroundName(text);
    if cgName.Some? {
      var cgLink: Option<string> := None;
      var cgTops := WordTops(words, "Campground:");
      if index < |cgTops| {
        var potential := FindLinkForPosition(links, cgTops[index]);
        if potential.Some? && potential.value != "" {
          if !LooksLikeTrail(potential.value) {
            cgLink := potential;
          }
        }
      }
      cg := Some(Named(cgName.value, cgLink));
    }
  }

  /** The trails of entry `index`, with their links. */
  function TrailsOf(blocks: seq<Block>, words: seq<Word>, links: seq<Link>, index: nat): seq<Named> {
    AttributedTrails(Trails(EntryText(blocks, index)), TrailsBefore(blocks, index), WordTops(words, "Trail:"), links)
  }

  /** The `trail` and `trails` keys for a list of attributed trails: the
      first trail under `trail`, and the whole list under `trails` only
      when it holds two or more. */
  function TrailKeys(ts: seq<Named>): (Option<Named>, Option<seq<Named>>) {
    (if |ts| > 0 then Some(ts[0]) else None, if |ts| >= 2 then Some(ts) else None)
  }

  /** The trail part of the entry. */
  method ReadTrails(blocks: seq<Block>, words: seq<Word>, links: seq<Link>, index: nat)
    returns (trail: Option<Named>, trails: Option<seq<Named>>)
    requires index < |blocks|
    ensures (trail, trails) == TrailKeys(TrailsOf(blocks, words, links, index))
  {
    trail, trails := None, None;
    var text := BlockText(blocks[index]);
    var names := Trails(text);
    if |names| > 0 {
      var trailTops := WordTops(words, "Trail:");
      var ts := AttributeTrails(names, blocks, index, trailTops, links);
      if |ts| == 1 {
        trail := Some(ts[0]);
      } else {
        trails := Some(ts);
        trail := Some(ts[0]);
      }
    }
  }

  /** The blog-post link part: looked for only when the entry has a related
      blog post. */
  method ReadBlogPostLink(blocks: seq<Block>, words: seq<Word>, links: seq<Link>, index: nat)
    returns (link: Option<string>)
    ensures link == BlogPostLink(blocks, words, links, index)
  {
    link := None;
    var relatedTops := WordTops(words, "Related");
    var offset := RelatedOffset(blocks, index);
    if offset < |relatedTops| {
      var y := relatedTops[offset];
      var cands := BlogLinks(links);
      if |cands| > 0 {
        var best := Nearest(cands, y);
        link := Some(cands[best].uri);
      }
    }
  }

  /** The entry built from block `index` of the page. */
  function EntryAt(blocks: seq<Block>, words: seq<Word>, links: seq<Link>, index: nat): Entry
    requires index < |blocks|
  {
    var text := EntryText(blocks, index);
    var cg := CampgroundOf(text, words, links, index);
    var (trail, trails) := TrailKeys(TrailsOf(blocks, words, links, index));
    var blog := BlogPost(text);
    var blogLink := if blog.Some? then BlogPostLink(blocks, words, links, index) else None;
    var contributorBlog := ContributorBlog(text);
    Entry(
      LocationFrom(SplitLines(text), 0),
      None,
      cg,
      CgNotes(text),
      trail,
      trails,
      TrailNotes(text),
      Directions(text),
      Other(text),
      blog,
      blogLink,
      Contributor(text),
      contributorBlog,
      if contributorBlog.Some? then ContributorBlogLink(links, [LinkOf(cg), LinkOf(trail), blogLink]) else None)
  }

  /** The body of extract_entry_from_page once the entry's block is known:
      the entry dictionary filled in field by field (a key left unset is a
      None field). */
  method ExtractEntryAt(blocks: seq<Block>, words: seq<Word>, links: seq<Link>, index: nat) returns (entry: Entry)
    requires index < |blocks|
    ensures entry == EntryAt(blocks, words, links, index)
  {
    var text := BlockText(blocks[index]);
    entry := EmptyEntry;
    var loc := FindLocation(text, ParseHeading);
    entry := entry.(location := loc);
    var cg := ReadCampground(text, words, links, index);
    entry := entry.(campground := cg);
    entry := entry.(cgNotes := CgNotes(text));
    var trail, trails := ReadTrails(blocks, words, links, index);
    entry := entry.(trail := trail, trails := trails);
    entry := entry.(trailNotes := TrailNotes(text));
    entry := entry.(directions := Directions(text));
    entry := entry.(other := Other(text));
    var blog := BlogPost(text);
    if blog.Some? {
      entry := entry.(blogPost := blog);
      var blogLink := ReadBlogPostLink(blocks, words, links, index);
      entry := entry.(blogPostLink := blogLink);
    }
    entry := entry.(contributor := Contributor(text));
    var contributorBlog := ContributorBlog(text);
    if contributorBlog.Some? {
      entry := entry.(contributorBlog := contributorBlog);
      var used := [LinkOf(entry.campground), LinkOf(entry.trail), entry.blogPostLink];
      var found := FindContributorBlogLink(links, used);
      entry := entry.(contributorBlogLink := found);
    }
  }

  /** The trail keys of an entry: one trail match gives `trail` alone;
      two or more give `trails`, in source order, with `trail` its first
      element; none gives neither. The i-th trail carries the link of the
      "Trail:" word numbered (trails in earlier entries) + i. */
  lemma {:induction false} EntryTrails(blocks: seq<Block>, words: seq<Word>, links: seq<Link>, index: nat)
    requires index < |blocks|
    ensures var e := EntryAt(blocks, words, links, index);
      var names := Trails(EntryText(blocks, index));
      var tops := WordTops(words, "Trail:");
      var base := TrailsBefore(blocks, index);
      && (e.trail.Some? <==> names != [])
      && (e.trails.Some? <==> |names| >= 2)
      && (e.trail.Some? ==> e.trail.value == Named(names[0], TrailLink(tops, links, base)))
      && (e.trails.Some? ==>
            && e.trail == Some(e.trails.value[0])
            && |e.trails.value| == |names|
            && forall i :: 0 <= i < |names| ==> e.trails.value[i] == Named(names[i], TrailLink(tops, links, base + i)))
  {
    TrailKeysOf(Trails(EntryText(blocks, index)), TrailsBefore(blocks, index), WordTops(words, "Trail:"), links);
  }

  /** An entry whose text is a preamble without a trail tag, then one line
      per trail, then nothing or its trail notes, gets exactly those trail
      names: the first under `trail`, and all of them, in order, under
      `trails` when there are two or more. */
  lemma {:induction false} EntryTrailNames(blocks: seq<Block>, words: seq<Word>, links: seq<Link>, index: nat,
                                           pre: string, names: seq<string>, rest: string)
    requires index < |blocks| && EntryText(blocks, index) == pre + TrailLines(names) + rest
    requires forall k :: 0 <= k < |names| ==> CleanName(names[k])
    requires forall j :: 0 <= j < |pre| ==> !OccursAt(pre + TrailLines(names), "Trail:", j)
    requires forall j :: 0 <= j < |pre + TrailLines(names)| ==> !OccursAt(pre + TrailLines(names) + rest, "Trail Notes:", j)
    requires rest == [] || OccursAt(rest, "Trail Notes:", 0)
    ensures var e := EntryAt(blocks, words, links, index);
      && (e.trail.Some? <==> names != [])
      && (e.trails.Some? <==> |names| >= 2)
      && (e.trail.Some? ==> e.trail.value.name == names[0])
      && (e.trails.Some? ==>
            && |e.trails.value| == |names|
            && forall i :: 0 <= i < |names| ==> e.trails.value[i].name == names[i])
  {
    TrailsRoundTrip(pre, names, rest);
    EntryTrails(blocks, words, links, index);
  }

  lemma {:induction false} TrailKeysOf(names: seq<string>, base: nat, tops: seq<real>, links: seq<Link>)
    ensures var (trail, trails) := TrailKeys(AttributedTrails(names, base, tops, links));
      && (trail.Some? <==> names != [])
      && (trails.Some? <==> |names| >= 2)
      && (trail.Some? ==> trail.value == Named(names[0], TrailLink(tops, links, base)))
      && (trails.Some? ==>
            && trail == Some(trails.value[0])
            && |trails.value| == |names|
            && forall i :: 0 <= i < |names| ==> trails.value[i] == Named(names[i], TrailLink(tops, links, base + i)))
  {
    var ts := AttributedTrails(names, base, tops, links);
    if |ts| > 0 {
      assert ts[0] == Named(names[0], TrailLink(tops, links, base + 0));
    }
  }

  /** The links an entry carries: the campground link never looks like a
      trail link; a blog-post link comes with a blog post and points to the
      blog; a contributor-blog link comes with a contributor blog, does not
      point to the blog, and differs from the campground link, the first
      trail's link and the blog-post link. */
  lemma {:induction false} EntryLinks(blocks: seq<Block>, words: seq<Word>, links: seq<Link>, index: nat)
    requires index < |blocks|
    ensures var e := EntryAt(blocks, words, links, index);
      && (e.campground.Some? && e.campground.value.link.Some? ==> !LooksLikeTrail(e.campground.value.link.value))
      && (e.blogPostLink.Some? ==> e.blogPost.Some? && Contains(e.blogPostLink.value, BlogMarker))
      && (e.contributorBlogLink.Some? ==>
            && e.contributorBlog.Some?
            && !Contains(e.contributorBlogLink.value, BlogMarker)
            && e.contributorBlogLink != LinkOf(e.campground)
            && e.contributorBlogLink != LinkOf(e.trail)
            && e.contributorBlogLink != e.blogPostLink)
  {
    var e := EntryAt(blocks, words, links, index);
    CampgroundLinkMeaning(WordTops(words, "Campground:"), links, index);
    BlogPostLinkMeaning(blocks, words, links, index);
    ContributorBlogLinkMeaning(links, [LinkOf(e.campground), LinkOf(e.trail), e.blogPostLink]);
  }

  /** extract_entry_from_page on a page's text, words and links: the entry
      and the text it was read from; an empty entry and the whole page text
      when the page has no entry at that index. */
  function EntryOf(pageText: string, words: seq<Word>, links: seq<Link>, index: nat): (r: (Entry, string))
    ensures index >= |Segment(SplitLines(pageText))| ==> r == (EmptyEntry, pageText)
    ensures index < |Segment(SplitLines(pageText))| ==>
      r.1 == BlockText(Segment(SplitLines(pageText))[index])
      && |Segment(SplitLines(pageText))[index].lines| > 0
      && r.0.location == ParseHeading(Segment(SplitLines(pageText))[index].lines[0])
      && r.0.location.Some?
  {
    var blocks := Segment(SplitLines(pageText));
    if |blocks| == 0 || index >= |blocks| then (EmptyEntry, pageText)
    else
      BlockLocation(pageText, index);
      (EntryAt(blocks, words, links, index), BlockText(blocks[index]))
  }

  /** extract_entry_from_page: segment the page, pick the entry, and read
      it. */
  method ExtractEntry(pageText: string, words: seq<Word>, links: seq<Link>, index: nat)
    returns (entry: Entry, text: string)
    ensures (entry, text) == EntryOf(pageText, words, links, index)
  {
    var blocks := FindEntries(pageText);
    if |blocks| == 0 {
      return EmptyEntry, pageText;
    }
    if index >= |blocks| {
      return EmptyEntry, pageText;
    }
    text := BlockText(blocks[index]);
    entry := ExtractEntryAt(blocks, words, links, index);
  }
}
