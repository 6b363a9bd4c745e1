# Campground entry extraction, modelled in Dafny

`scripts/extract-campground.py` pulls campground entries out of one page
of the "RVing with Bikes" eBook and saves them into a JSON database. This
project models the part of that script that does not touch the PDF file,
the network or the disk, and proves properties of it:

- **Link extraction** (`Links`). Only `/Link` annotations that carry a
  `/URI` and a non-empty `/Rect` are kept. Their rectangles are flipped
  from the PDF's bottom-up y axis into top-down page coordinates. A URI
  link whose rectangle has fewer than four numbers makes the source fail
  with an index error, and the model reports that as `None`.
- **Link lookup** (`Links`). A text position is given the URI of the
  first link whose vertical extent, widened by 5 points on each side,
  holds it.
- **Entry segmentation** (`Segmenter`). The page text is split into
  lines. Each heading line (`City, ST` or `City, ST (X)`) opens a new
  block. Footer lines are dropped, and lines before the first heading are
  ignored. The heading grammar itself is in `Heading`.
- **Field extraction** (`Fields`, `Extractor`). These read the city,
  state and hookup code, the campground name, the campground notes, the
  trail names (only before "Trail Notes:"), the trail notes, the
  directions, "Other", the related blog post, the contributor and the
  contributor's blog. Each field follows its regular expression:
  - the greedy whitespace after a tag;
  - a lazy value that stops at the first listed lookahead or at the end;
  - the backtracking that gives an empty value when only whitespace
    follows a tag.
- **Link attribution** (`Attribution`). Each of these links is looked up
  at a word position:
  - the campground link, at the `entry_index`-th "Campground:" word;
  - trail links, at "Trail:" words counted across earlier entries;
  - the blog-post link, the nearest "chambersontheroad" link to the
    claimed "Related" word;
  - the contributor-blog link, the first link not already used and not a
    blog link.
- **Saving** (`Store`). The final record carries defaults and leaves out
  every absent value. The upsert into the database's entry list is keyed
  on city, state and campground name. This covers the errors a
  `KeyError` or `AttributeError` would raise. `Store.Database` holds the
  entry list and updates it in place.

Loops of the source are methods with loop invariants, each proved equal
to a specification function. Properties are proved about those functions
as lemmas.

Where the program's own documentation and its code differ, the model
follows the code:
- only values that are `None` at the top level are dropped from a saved
  record;
- `rstrip('.')` removes every trailing period, not just one;
- the campground link is looked up at the `entry_index`-th "Campground:"
  word of the page, whatever the earlier entries hold.

Files:
- `wrappers.dfy`: Option and Outcome;
- `text.dfy`: the string built-ins used;
- `heading.dfy`: the heading grammar;
- `segmenter.dfy`: page segmentation;
- `links.dfy`: link extraction and lookup;
- `fields.dfy`: field patterns;
- `attribution.dfy`: link attribution;
- `extractor.dfy`: one entry;
- `store.dfy`: saving.

## Model

| member | source | states |
|---|---|---|
| Links.Flip | scripts/extract-campground.py:43-54 | the link keeps the annotation's URI and x extent; its top is height minus the rectangle's upper y, its bottom height minus the lower y, the height of the box is kept, and an upright box stays upright |
| Links.ExtractLinks | scripts/extract-campground.py:36-56 | the annotation loop returns exactly the specification's list, or fails exactly when it does |
| Links.LinksAreFlippedUriLinks | scripts/extract-campground.py:36-56 | extraction succeeds if and only if every URI-link annotation has a full rectangle, and then yields the flip of each URI-link annotation, in order, and nothing else |
| Links.LinksUpToFails | scripts/extract-campground.py:46-47 | once one annotation has made extraction fail, no later annotation can recover it |
| Links.LinkForMeaning | scripts/extract-campground.py:59-64 | None exactly when no link's widened band holds y; otherwise the URI of a link whose band holds y and before which no link's band does |
| Links.FindLinkForPosition | scripts/extract-campground.py:59-64 | the loop returns the first in-band link's URI, as the specification function says |
| Heading.ParseCodeSound | scripts/extract-campground.py:80 | the optional hookup-code tail is either empty or whitespace followed by one capital in parentheses, and spells the text it came from |
| Heading.ParsePartsSound | scripts/extract-campground.py:80 | whatever is recognised as a heading is well formed (capital-led city, comma, whitespace, two capitals, optional code) and spells exactly the stripped line |
| Heading.ParsePartsComplete | scripts/extract-campground.py:80 | every well-formed heading is recognised, with exactly its own pieces |
| Heading.HeadingRoundTrip | scripts/extract-campground.py:145-149 | a heading surrounded by any whitespace parses to its stripped city, its state and its code |
| Heading.ParseHeadingShape | scripts/extract-campground.py:145-149 | a parsed city is stripped, non-empty and capital-led; the state is two capitals; a hookup code is a capital |
| Segmenter.FindEntries | scripts/extract-campground.py:67-108 | the page text split into lines and scanned gives exactly the blocks of the segmentation function |
| Segmenter.SegmentLines | scripts/extract-campground.py:78-106 | the line loop, classifying each line, returns the segmentation of the lines |
| Segmenter.SegmentWith | scripts/extract-campground.py:78-106 | the loop over pre-classified lines closes each block at the next heading and the last one at the end, giving exactly the blocks of one per heading |
| Segmenter.ScanSegments | scripts/extract-campground.py:78-106 | the line-by-line state machine, with the final flush, produces the one-block-per-heading segmentation |
| Segmenter.SegmentCount | scripts/extract-campground.py:81-92 | there are exactly as many blocks as heading lines, and none when there is no heading |
| Segmenter.BlockHeading | scripts/extract-campground.py:90-92 | the j-th block starts at the j-th heading line, and its first line is that heading |
| Segmenter.SegmentOrdered | scripts/extract-campground.py:78-106 | blocks come in page order of their headings |
| Segmenter.SegmentCoversHeadings | scripts/extract-campground.py:81-92 | every heading line starts some block |
| Segmenter.BodyLine | scripts/extract-campground.py:93-97 | every non-first line of a block is a text line of the page between its heading and the next heading |
| Segmenter.BodyComplete | scripts/extract-campground.py:93-97 | every text line between a heading and the next heading is in that heading's block |
| Segmenter.NoHeadingBetween | scripts/extract-campground.py:81-92 | no heading line lies between a block's heading and the next block's |
| Segmenter.SegmentPreamble | scripts/extract-campground.py:93 | lines before the first heading start no block: the first block starts at or before every heading |
| Segmenter.TextLineMeaning | scripts/extract-campground.py:95-97 | a line kept as body text is neither a heading nor a footer line |
| Text.StripTrailingDots | scripts/extract-campground.py:156 | the result is a prefix without a final period, and everything removed is a period |
| Text.BeforeFirst | scripts/extract-campground.py:181 | the result is the text up to where the first occurrence of the separator starts, or the whole text when there is none |
| Text.JoinSplit | scripts/extract-campground.py:73 | joining the split lines with newlines gives back the text |
| Text.SplitJoin | scripts/extract-campground.py:86 | splitting lines joined with newlines gives back the lines when none holds a newline |
| Fields.StopAtFirst | scripts/extract-campground.py:174 | a lazy value stops at the first position where a listed lookahead or the end of the text matches, and at no earlier one |
| Fields.LookaheadRoundTrip | scripts/extract-campground.py:216-228 | a tagged stripped value, on one line or several, inside which no terminator line starts, followed by a listed terminator line or the end, reads back exactly, whatever text precedes the first tag |
| Fields.CgNotes | scripts/extract-campground.py:174-177 | notes are found exactly when the lookahead field is, and never end in a period |
| Fields.CgNotesRoundTrip | scripts/extract-campground.py:174-177 | notes after the first "CG Notes:", on one line or several, with no line inside them that starts with a following label, written with any number of trailing periods and followed by such a label or the end, read back without the periods |
| Fields.LineField | scripts/extract-campground.py:253-260 | a line field's value is stripped and never spans a newline |
| Fields.LineRoundTrip | scripts/extract-campground.py:253-260 | a tagged value on its own line reads back exactly |
| Fields.NameOf | scripts/extract-campground.py:156 | a cleaned name never ends in a period |
| Fields.NameRoundTrip | scripts/extract-campground.py:154-156 | a name followed by an optional period and trailing whitespace reads back as the name |
| Fields.CampgroundName | scripts/extract-campground.py:154-156 | a campground name never ends in a period |
| Fields.CampgroundRoundTrip | scripts/extract-campground.py:154-156 | a campground line ending in a newline reads back its name, with or without a final period |
| Fields.TrailSection | scripts/extract-campground.py:181 | the searched section is a prefix of the entry that holds no "Trail Notes:" and, when shorter than the entry, ends exactly where the first "Trail Notes:" starts; so it is the whole entry when there is none |
| Fields.TrailHead | scripts/extract-campground.py:182 | a trail line contributes its name, and the search resumes after its newline |
| Fields.TrailSkip | scripts/extract-campground.py:182 | text in which no "Trail:" starts adds no match: the matches are those of what follows it |
| Fields.TrailRoundTrip | scripts/extract-campground.py:182 | consecutive trail lines, after any text in which no "Trail:" starts, read back as exactly their names, in order, followed by the matches of what comes after them |
| Fields.TrailsRoundTrip | scripts/extract-campground.py:181-182 | an entry made of text without "Trail:", then trail lines, then nothing or the first "Trail Notes:", has exactly those names as its trail matches |
| Attribution.WordTopsSound | scripts/extract-campground.py:160 | every collected top belongs to a word with that text, and every such word contributes its top |
| Attribution.CampgroundLinkMeaning | scripts/extract-campground.py:159-171 | a link is kept exactly when the page has an `entry_index`-th "Campground:" word, some band holds it and the first such URI is non-empty and has no trail keyword; a kept link is that first in-band URI |
| Attribution.AnchorsDisjoint | scripts/extract-campground.py:195-202 | the words claimed by one entry lie before every later entry's offset |
| Attribution.SumBefore | scripts/extract-campground.py:195-200 | the counting loop over earlier entries returns the count of the specification |
| Attribution.TrailAnchorsDisjoint | scripts/extract-campground.py:195-204 | the "Trail:" words used by one entry's trails come before every later entry's first trail word, so no word is used twice |
| Attribution.TrailOffset | scripts/extract-campground.py:195-200 | the offset is the number of trail matches in all earlier entries |
| Attribution.AttributeTrails | scripts/extract-campground.py:184-206 | one trail per match, in order; the i-th gets its name and the link at the "Trail:" word numbered (earlier trails) + i, or none past the last word |
| Attribution.RelatedAnchorsDistinct | scripts/extract-campground.py:237-241 | an entry with a related blog post has an offset strictly below every later entry's |
| Attribution.RelatedOffset | scripts/extract-campground.py:237-241 | the offset is the number of earlier entries holding "Related Blog Post:" |
| Attribution.BlogLinks | scripts/extract-campground.py:246 | every blog link is a page link whose URI holds the blog marker |
| Attribution.BlogLinksComplete | scripts/extract-campground.py:246 | every page link holding the marker is a blog link |
| Attribution.BlogLinksInOrder | scripts/extract-campground.py:246 | the filter keeps page order: the k-th blog link is the link at the k-th blog position, and those positions increase |
| Attribution.BlogPositionsComplete | scripts/extract-campground.py:246 | every blog link's page position is among the listed blog positions |
| Attribution.NearestMeaning | scripts/extract-campground.py:249 | the chosen candidate is no farther than any other, and strictly closer than every earlier one (the first minimum) |
| Attribution.BlogPostLinkMeaning | scripts/extract-campground.py:243-250 | no link exactly when the page has too few "Related" words or no blog link; otherwise the URI of the blog link at some page position that is at least as close to the claimed word as every blog link, and strictly closer than every blog link earlier on the page, so ties go to the earliest |
| Attribution.ContributorBlogLinkMeaning | scripts/extract-campground.py:261-270 | none exactly when every link is used or a blog link; otherwise an unused, non-blog URI, the first such in page order |
| Attribution.FindContributorBlogLink | scripts/extract-campground.py:267-270 | the loop returns the first unused non-blog link, as the specification says |
| Extractor.FindLocation | scripts/extract-campground.py:143-150 | the loop returns the location of the first line of the block that parses as a heading |
| Extractor.BlockLocation | scripts/extract-campground.py:143-150 | in every block of the page, that first heading is the block's own first line |
| Extractor.ReadCampground | scripts/extract-campground.py:154-171 | the campground part is the name with the filtered link, or absent when there is no name |
| Extractor.ReadTrails | scripts/extract-campground.py:184-213 | the `trail` and `trails` keys are set from the attributed trails |
| Extractor.TrailKeysOf | scripts/extract-campground.py:209-213 | `trail` exists exactly when there is a trail match and is the first one; `trails` exists exactly when there are two or more and holds all of them, in order |
| Extractor.ReadBlogPostLink | scripts/extract-campground.py:234-250 | the blog-post link is the nearest blog link to the claimed "Related" word |
| Extractor.ExtractEntryAt | scripts/extract-campground.py:138-270 | the entry built field by field is the entry of the specification |
| Extractor.EntryTrails | scripts/extract-campground.py:184-213 | an entry's trail keys are set exactly from its own trail matches, each with the link at its claimed word |
| Extractor.EntryTrailNames | scripts/extract-campground.py:181-213 | for an entry with trail lines as above, `trail` exists exactly when there is one line or more and names the first; `trails` exists exactly when there are two or more and names all of them, in order |
| Extractor.EntryLinks | scripts/extract-campground.py:159-270 | a campground link is never trail-like; a blog-post link only comes with a blog post and holds the marker; a contributor-blog link only comes with a contributor blog, has no marker and differs from the campground, trail and blog-post links |
| Extractor.EntryOf | scripts/extract-campground.py:130-138 | an index past the last entry gives the empty entry and the whole page text; otherwise the entry's own block text and the location parsed from its heading, which is always present |
| Extractor.ExtractEntry | scripts/extract-campground.py:111-272 | the whole extraction returns the entry and text of the specification |
| Store.Draft | scripts/extract-campground.py:405-424 | the draft has the eighteen keys of a saved record, in order |
| Store.PruneLookup | scripts/extract-campground.py:427 | after dropping absent values, every key reads as it did in the draft |
| Store.FinalRecordKeys | scripts/extract-campground.py:405-427 | the record's city and state are the entry's location's, and absent without one; its hookup type is the entry's, "full" by default; campground, cg_notes, trail, trails, trail_notes, directions, other, blog_post, blog_post_link, contributor, contributor_blog and contributor_blog_link are each the entry's own value, and absent when the entry has none; its latitude, longitude and place id are the place's, and absent without one |
| Store.FirstMatchMeaning | scripts/extract-campground.py:430-433 | a match is the first record comparing equal on city, state and campground name, after only differing ones; no match exactly when all differ; a failure is the first comparison that raises, after only differing ones |
| Store.MissingKeysFail | scripts/extract-campground.py:430-431 | a record without a city fails against a non-empty database and finds no match in an empty one |
| Store.MissingStateFails | scripts/extract-campground.py:430-432 | a record with a city but no state never matches: the search fails exactly when some stored record has the same city, and finds nothing otherwise |
| Store.IndexOfMatch | scripts/extract-campground.py:437 | looking the matched record up by equality finds the match's own position |
| Store.UpsertEffect | scripts/extract-campground.py:435-440 | a match is replaced in place and every other record is kept; without a match the record is appended and the rest is kept |
| Store.FindDuplicate | scripts/extract-campground.py:430-433 | the search loop reports the first comparison error, or the first stored record that compares equal, or nothing, exactly as the specification of the search says |
| Store.SaveRecord | scripts/extract-campground.py:430-440 | a failed search reports its error and keeps the entries; otherwise the entries become the upsert of the record |
| Store.Database.constructor | scripts/extract-campground.py:395 | a new database holds no entries |
| Store.Database.Save | scripts/extract-campground.py:398-440 | a failed comparison leaves the entries unchanged and reports the error; otherwise the entries become the upsert of the final record |

## Left out

- Opening the PDF, `extract_text`, `extract_words` and reading the page's annotations are left out. The page text, its words, its height and its annotations are inputs instead.
- The Google Places lookup, including its HTTP request, API key and JSON parsing, is left out. Its result is an input (`Store.Coordinates`).
- `load_database`, writing the JSON file and the database metadata are left out. The database is the entry list of `Store.Database`.
- `display_entry`, `main`, argument parsing and the `--list` mode are left out. So is the command line setting `hookup_type`: it is an input field of the entry.
- The warning and progress messages printed by the script are left out.
- `entry_index` is a natural number. A negative index, which Python would read from the end of the list, is not modelled.
- `lower()` is modelled on ASCII letters only. Unicode case mapping is left out; for example, Python lowers the Kelvin sign to `k`.
- Page coordinates are real numbers. Floating-point rounding is left out.
- The regular expressions are modelled for the texts they are applied to: one function per pattern, stating its greedy, lazy and backtracking behaviour. A general regular-expression engine is not part of this model.
- Extractor.ExtractEntry: returns the entry and its text. The page's link list, which the source returns as a third element, is an input of the model and is not returned again.
- Store.Database.Save: stored records are compared by key and value. Python compares dictionaries by content, so two records with the same pairs in another order would be equal in Python. The model does not capture that, because every record saved here has its keys in one fixed order.
- Attribution.WordTopsSound: states which tops are collected, but not that they keep page order. The order is visible in the definition.
