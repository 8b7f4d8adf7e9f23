# GuitarTabsExplorer site adapter, modelled in Dafny

The GuitarTabsExplorer plugin connects a tablature manager to the
guitartabsexplorer.com website. It has two parts:

- **The search engine.** A query with an artist and no title walks
  `/{artist-slug}-Tabs/{page}[/tabs|/chords|/bass]/` page by page. Every other
  query runs one free-text search. The rows of the listing tables, or the
  "Matching songs" entries, become search results.
- **The parser.** It decides whether a URL belongs to the site. It turns one
  tablature page into an attributed tablature: type, artist, title and
  contents.

Both parts classify free text into a tablature type with the same
"bass", then "chords", then "tabs" substring search.

The model is split into modules:

- `Wrappers`: `Option`.
- `Text`: the .NET string operations the adapter relies on:
  - ordinal ignore-case comparison and `IndexOf`, with case folding on ASCII;
  - `Replace`, `LastIndexOf` and `Trim`, where `Trim` cuts the whole
    `Char.IsWhiteSpace` set (the no-break space, U+2000 to U+200A, the line
    and paragraph separators and the rest);
  - `int.TryParse` on 32-bit values, which skips only U+0009 to U+000D and
    space;
  - decimal formatting of the page number.
- `Seqs`: filtering with a partial selector, and concatenating lists.
- `LazyRegex`:
  - the three regular expressions of the adapter, each literal text around
    lazy `(.*?)` groups;
  - the leftmost, shortest-group semantics of `Regex.Match`, and the
    empty value of an unmatched group.
- `Tablature`: the host's records (type, rating, attributed tablature, query,
  search result).
- `Classifier`: `GetTypeFromString`. The engine and the parser each contain an
  identical private copy; the model defines it once.
- `Parser` and `SearchEngine`: the two source classes.

The network, the HTML document model and `HttpUtility.UrlEncode` are
parameters. A `Site` value supplies:

- the encoder;
- for each URL, the listing page or search page it serves, as the few pieces
  of markup the engine reads.

A detail page arrives in `Parse` as its markup, its star count and its `pre`
text.

The search engine is imperative in the plugin, and its methods stay
imperative here:

- **`ProcessArtistSearch`** and **`ProcessTitleSearch`** are methods with
  loops.
  - Each loop's invariant ties the results gathered so far to a filter
    function over the rows or entries already seen.
  - The artist URL is built step by step, as the `StringBuilder` builds it in
    the plugin.
- **`Search`** keeps the do-while page loop.
  - In the plugin, the loop may never end, because each page reports the
    count that bounds it. So `Search` requires that some page `n` is the last
    one (`IsLastPage`).
  - It proves that exactly pages 1 to n are requested, in order. The results
    are those pages' results, concatenated in page order.

The parser is a chain of pure extractions, and is modelled as functions and
lemmas.

## Model

| member | source | states |
|---|---|---|
| Classifier.GetTypeFromString | GuitarTabsExplorerSearchEngine.cs:231-241 | Bass exactly when "bass" occurs ignoring case; otherwise Chords exactly when "chords" occurs; otherwise Guitar exactly when "tabs" occurs; null exactly when none of the three occurs |
| Classifier.ClassifiedTypeIsSiteType | GuitarTabsExplorerSearchEngine.cs:231-241 | a classified type is always one of Guitar, Chords, Bass |
| Classifier.BassWins | GuitarTabsExplorerSearchEngine.cs:233-234 | any text containing "bass" is Bass, whatever surrounds it, including "chords" or "tabs" |
| Classifier.ChordsBeforeTabs | GuitarTabsExplorerSearchEngine.cs:235-236 | without "bass", text containing "chords" is Chords even if it also has "tabs" |
| Classifier.CaseInsensitive | GuitarTabsExplorerSearchEngine.cs:233-238 | the classification of a text equals that of its lower-cased form |
| Classifier.EmptyLabelUnclassified | GuitarTabsExplorerParser.cs:71-81 | the empty label, which is what an unmatched regex group yields, has no type |
| Classifier.BassTabsLabel | GuitarTabsExplorerSearchEngine.cs:231-241 | "Bass Tabs" is Bass |
| Classifier.ChordsLabel | GuitarTabsExplorerSearchEngine.cs:231-241 | "Chords" is Chords |
| Classifier.GuitarTabsLabel | GuitarTabsExplorerSearchEngine.cs:231-241 | "Guitar Tabs" is Guitar |
| Classifier.UnknownLabel | GuitarTabsExplorerSearchEngine.cs:231-241 | "Ukulele" has no type |
| Parser.IsUrlParsable | GuitarTabsExplorerParser.cs:64-67 | the host, lower-cased as `Uri.DnsSafeHost` gives it, is `guitartabsexplorer.com` or `www.guitartabsexplorer.com` |
| Parser.HostCaseIgnored | GuitarTabsExplorerParser.cs:64-67 | a host is parsable exactly when it equals one of the two site host names ignoring case |
| Parser.MixedCaseHostAccepted | GuitarTabsExplorerParser.cs:64-67 | `www.GuitarTabsExplorer.com` is parsable |
| Parser.SubdomainRejected | GuitarTabsExplorerParser.cs:64-67 | a host `sub.guitartabsexplorer.com` whose subdomain is not `www` in any case is not parsable |
| Parser.ExtendedHostRejected | GuitarTabsExplorerParser.cs:64-67 | a host that only starts with the domain is not parsable |
| Parser.TypeLabel | GuitarTabsExplorerParser.cs:29-30 | the first group of the leftmost match of `<h2>(.*?) :</h2>`, or "" |
| Parser.HeadingTitle | GuitarTabsExplorerParser.cs:32-34 | the first group of the leftmost match of `<h1>"(.*?)" by (.*?)</h1>`, or "" |
| Parser.HeadingArtist | GuitarTabsExplorerParser.cs:32-34 | the second group of that same match, or "" |
| Parser.Parse | GuitarTabsExplorerParser.cs:18-47 | null exactly when the type label does not classify or the contents are null; a result has the classified type of the label, the page's contents, and the artist and title groups of the leftmost heading match |
| Parser.EmptyContentsAccepted | GuitarTabsExplorerParser.cs:39-46 | empty but non-null contents are returned, not rejected |
| Parser.RatingNotAttached | GuitarTabsExplorerParser.cs:36-41 | the star count of the rating panel does not affect the result |
| Parser.TypeLabelIsFirstHeading | GuitarTabsExplorerParser.cs:29-30 | the type label is the group of the leftmost `<h2>label :</h2>`: no earlier position matches, the label has no line break, and no shorter label closes the heading |
| Parser.NoTypeHeadingNoResult | GuitarTabsExplorerParser.cs:29-44 | with no `<h2>` on the page the label is "" and Parse gives null |
| Parser.NoTitleHeadingGivesEmptyFields | GuitarTabsExplorerParser.cs:32-34 | with no `<h1>"` heading, artist and title are "" in a result instead of a failure |
| Parser.HeadingFieldsFromPage | GuitarTabsExplorerParser.cs:32-46 | when a heading matches, a result's title and artist come from one heading `<h1>"title" by artist</h1>` found in the page |
| Parser.TypeHeadingReadsBack | GuitarTabsExplorerParser.cs:29 | `<h2>label :</h2>` at a position matches with group label, for any label without a line break in which ` :</h2>` does not start before its end |
| Parser.TitleHeadingReadsBack | GuitarTabsExplorerParser.cs:32 | `<h1>"title" by artist</h1>` at a position matches with groups title and artist, for line-free fields in which the next literal (`" by ` or `</h1>`) does not start before the field's end |
| Parser.RenderedTypeLabel | GuitarTabsExplorerParser.cs:29-30 | on a page that begins with `<h2>label :</h2>`, for a line-free label in which ` :</h2>` does not start before the label's end, the type label read is that label |
| Parser.RenderedHeadingFields | GuitarTabsExplorerParser.cs:32-34 | on a page that begins with the two headings, title and artist read back as written, for a label with no `<` and line-free title and artist in which the next literal (`" by ` or `</h1>`) does not start before the field's end |
| Parser.ParseRenderedPage | GuitarTabsExplorerParser.cs:18-47 | a page laid out as `<h2>label :</h2><h1>"title" by artist</h1>…` parses to exactly that artist, title, label type and contents, or to null when the label does not classify, for a line-free label with no `<` and line-free title and artist, in each of which the next literal (` :</h2>`, `" by `, `</h1>`) does not start before the field's end |
| Parser.ParseExamplePage | GuitarTabsExplorerParser.cs:18-47 | the page `<h2>Bass :</h2><h1>"Song" by Artist</h1>…` with contents "x-x-x" parses to Artist, Song, Bass, "x-x-x" |
| Parser.GuitarTabsLabelCloses | GuitarTabsExplorerParser.cs:29 | ` :</h2>` starts nowhere inside the label "Guitar Tabs", a label with a space |
| Parser.ParseGuitarTabsPage | GuitarTabsExplorerParser.cs:18-47 | the page with headings "Guitar Tabs", "Smells Like Teen Spirit", "Nirvana" parses to Nirvana, Smells Like Teen Spirit, Guitar and its contents |
| SearchEngine.SupportsTabType | GuitarTabsExplorerSearchEngine.cs:87-90 | Guitar, Chords and Bass |
| SearchEngine.SupportedTypes | GuitarTabsExplorerSearchEngine.cs:87-90 | SupportsTabType holds exactly for Guitar, Chords and Bass, and for every type the classifier yields |
| SearchEngine.ArtistSlugHasNoSpace | GuitarTabsExplorerSearchEngine.cs:149 | the artist name given to the URL encoder has no space left |
| SearchEngine.OtherTypeBrowsesAll | GuitarTabsExplorerSearchEngine.cs:154-162 | a query type other than the three adds no path segment, as a null type does |
| SearchEngine.TypeSuffix | GuitarTabsExplorerSearchEngine.cs:154-162 | `/tabs`, `/chords` or `/bass` for Guitar, Chords or Bass; nothing for a null type or any other type |
| SearchEngine.ArtistBrowseUrl | GuitarTabsExplorerSearchEngine.cs:148-164 | SiteRoot, then `/`, the encoded artist with spaces as `-`, `-Tabs/`, the page number, the type segment and `/` |
| SearchEngine.TitleSearchUrl | GuitarTabsExplorerSearchEngine.cs:96-98 | the search endpoint followed by the encoded title with `%20` replaced by `+` |
| SearchEngine.ArtistBrowseUrlPageInjective | GuitarTabsExplorerSearchEngine.cs:148-164 | listing URLs for different page numbers differ |
| SearchEngine.TitleQueryHasNoPercent20 | GuitarTabsExplorerSearchEngine.cs:96-98 | the search URL starts with the search endpoint and its query part contains no "%20" |
| SearchEngine.TitleSentAsEncoded | GuitarTabsExplorerSearchEngine.cs:96-98 | an encoded title without "%20" is appended unchanged |
| SearchEngine.TypeAccepted | GuitarTabsExplorerSearchEngine.cs:198-199 | the query's type filter keeps a type when the query has no type or the types are equal; the title search applies the same test at line 132 |
| SearchEngine.ListingArtist | GuitarTabsExplorerSearchEngine.cs:174-175 | the group of the leftmost `Browse our (.*?) collection`, or "" |
| SearchEngine.ListingResults | GuitarTabsExplorerSearchEngine.cs:186-207 | the rows' results in row order, skipping rows without a result |
| SearchEngine.RatingOf | GuitarTabsExplorerSearchEngine.cs:201-202 | no rating exactly when the row has no star icons, otherwise FromInt of the icon count |
| SearchEngine.ListingRowResult | GuitarTabsExplorerSearchEngine.cs:186-206 | a row gives a result exactly when it has a link and its type passes the query's type filter |
| SearchEngine.ListingRowStep | GuitarTabsExplorerSearchEngine.cs:186-207 | appending a row appends its result, or nothing for an ad row or a filtered type |
| SearchEngine.ListingResultsSound | GuitarTabsExplorerSearchEngine.cs:186-206 | every listing result carries the page's artist, the title and URL of a row's link, that row's type (accepted by the query) and that row's rating |
| SearchEngine.AdRowIgnored | GuitarTabsExplorerSearchEngine.cs:188-192 | inserting a row without a link anywhere leaves the results unchanged |
| SearchEngine.EveryLinkedRowKept | GuitarTabsExplorerSearchEngine.cs:198-199 | with no query type, every linked row gives one result |
| SearchEngine.IsNextLabel | GuitarTabsExplorerSearchEngine.cs:216 | the trimmed text, lower-cased, is "next" |
| SearchEngine.NextLabelIgnoresCase | GuitarTabsExplorerSearchEngine.cs:216 | the "Next" test is the trimmed text compared with "Next" ignoring case |
| SearchEngine.NoBreakSpaceNextLabel | GuitarTabsExplorerSearchEngine.cs:216 | "Next" followed by a no-break space is the Next button, since Trim cuts Unicode white space |
| SearchEngine.LastPageLabel | GuitarTabsExplorerSearchEngine.cs:214-217 | the last child, or the third from the end when the last child is the Next button |
| SearchEngine.SelectLastItem | GuitarTabsExplorerSearchEngine.cs:214-217 | the positional read of the plugin gives LastPageLabel |
| SearchEngine.PageTotal | GuitarTabsExplorerSearchEngine.cs:209-224 | the current page when there is no pagination; otherwise the value TryParse reads from the last page label, or 0 when it does not parse |
| SearchEngine.ReadPageTotal | GuitarTabsExplorerSearchEngine.cs:209-224 | the positional read of the last page label (skipping a "Next" button and a text node) and its TryParse give PageTotal |
| SearchEngine.BuildArtistUrl | GuitarTabsExplorerSearchEngine.cs:148-164 | the built URL is SiteRoot/{encoded slug}-Tabs/{page}{type suffix}/ |
| SearchEngine.ProcessArtistSearch | GuitarTabsExplorerSearchEngine.cs:146-227 | requests the page's URL; the results are the page's rows filtered and converted in row order; totalPages is PageTotal of that page |
| SearchEngine.EntryTypeLabel | GuitarTabsExplorerSearchEngine.cs:130 | the markup from the last `(` on, with `(` and `)` removed: a label holding neither parenthesis |
| SearchEngine.EntryTypeLabelOfTrailingLabel | GuitarTabsExplorerSearchEngine.cs:130 | an entry whose markup ends in `(label)`, for a label with no parenthesis, has type label `label` |
| SearchEngine.ArtistMatches | GuitarTabsExplorerSearchEngine.cs:121-122 | the query has an artist and the entry's artist text equals it ignoring case; a null artist matches nothing |
| SearchEngine.SongEntryResult | GuitarTabsExplorerSearchEngine.cs:119-139 | an entry gives a result exactly when its artist equals the query's ignoring case and its type passes the filter |
| SearchEngine.SongEntryStep | GuitarTabsExplorerSearchEngine.cs:117-140 | appending an entry appends its result, if any |
| SearchEngine.TitleResults | GuitarTabsExplorerSearchEngine.cs:115-141 | the entries of all lists in document order, each converted, skipping entries without a result |
| SearchEngine.TitleResultsSound | GuitarTabsExplorerSearchEngine.cs:119-139 | every title result names the query artist ignoring case, has an accepted type and no rating, and takes artist, title, URL and the type of its trailing label from one entry |
| SearchEngine.NullArtistFindsNothing | GuitarTabsExplorerSearchEngine.cs:121-122 | a title search without an artist gives no results |
| SearchEngine.ProcessSongList | GuitarTabsExplorerSearchEngine.cs:117-140 | the results of one list are its entries filtered and converted in order |
| SearchEngine.ProcessTitleSearch | GuitarTabsExplorerSearchEngine.cs:92-144 | requests the search URL; the results are all lists' entries, in document order, filtered and converted |
| SearchEngine.IsNullOrEmpty | GuitarTabsExplorerSearchEngine.cs:67 | `string.IsNullOrEmpty`: null or the empty string |
| SearchEngine.BrowseMode | GuitarTabsExplorerSearchEngine.cs:67 | artist-browse mode: a non-empty artist and a null or empty title |
| SearchEngine.ListingAt | GuitarTabsExplorerSearchEngine.cs:74 | the listing page the site serves at the artist URL of page n |
| SearchEngine.PageResults | GuitarTabsExplorerSearchEngine.cs:74 | the results ProcessArtistSearch gives for page n of the artist |
| SearchEngine.BrowsedResults | GuitarTabsExplorerSearchEngine.cs:72-76 | the results of pages 1 to n concatenated in page order, as each AddRange appends |
| SearchEngine.BrowsedUrls | GuitarTabsExplorerSearchEngine.cs:72-75 | the URLs of pages 1 to n, in request order |
| SearchEngine.ContinuesAt | GuitarTabsExplorerSearchEngine.cs:74-76 | page n is readable and the page count it reports exceeds n, so the loop requests page n + 1 |
| SearchEngine.StopsAt | GuitarTabsExplorerSearchEngine.cs:74-76 | page n is readable and the page count it reports is at most n, so the loop ends after page n |
| SearchEngine.IsLastPage | GuitarTabsExplorerSearchEngine.cs:72-76 | the loop ends after page n and goes on after every page before it |
| SearchEngine.BrowsedUrlsPages | GuitarTabsExplorerSearchEngine.cs:69-76 | the i-th request of the page loop is page i+1, and no URL is requested twice |
| SearchEngine.LastPageUnique | GuitarTabsExplorerSearchEngine.cs:72-76 | the page the loop ends at is unique |
| SearchEngine.NoPaginationStops | GuitarTabsExplorerSearchEngine.cs:223-224 | any page without pagination reports itself as the total, so the loop ends after it |
| SearchEngine.NoPaginationSinglePage | GuitarTabsExplorerSearchEngine.cs:223-224 | a first page without pagination is the last page |
| SearchEngine.UnparsableCountStops | GuitarTabsExplorerSearchEngine.cs:220 | a page count that does not parse ends the loop |
| SearchEngine.ConstantCountWalksAll | GuitarTabsExplorerSearchEngine.cs:69-76 | when pages 1 to N all report N, page N is the last page |
| SearchEngine.BrowsedResultsPrefix | GuitarTabsExplorerSearchEngine.cs:74 | the results of the first m pages are a prefix of those of n ≥ m pages |
| SearchEngine.BrowsedResultsSound | GuitarTabsExplorerSearchEngine.cs:69-76 | every browsed result has an accepted type, a rating, the query, and the artist of one of the pages walked |
| SearchEngine.BrowseArtist | GuitarTabsExplorerSearchEngine.cs:69-76 | the loop ends at the last page n, having requested exactly pages 1..n in order, with their results concatenated in page order |
| SearchEngine.Search | GuitarTabsExplorerSearchEngine.cs:56-85 | an artist without a title browses pages 1..n as above; any other query sends exactly the title search URL and returns its results |
| Text.EqualsIgnoreCase | GuitarTabsExplorerSearchEngine.cs:121 | `Equals(..., OrdinalIgnoreCase)`: the same length and equal characters after ASCII case folding; also used at line 216 |
| Text.IndexOfIgnoreCase | GuitarTabsExplorerSearchEngine.cs:233 | a non-negative index exactly when the pattern occurs ignoring case, and then the first such index |
| Text.OccursLowerAll | GuitarTabsExplorerSearchEngine.cs:233 | ignore-case occurrence does not change when the text is lower-cased |
| Text.LowerAllEqualsIgnoreCase | GuitarTabsExplorerParser.cs:66 | lower-casing a text gives a lower-case target exactly when the two are equal ignoring case |
| Text.ReplaceChar | GuitarTabsExplorerSearchEngine.cs:149 | every occurrence of one character replaced by another |
| Text.ReplaceCharRemoves | GuitarTabsExplorerSearchEngine.cs:149 | replacing a character by another removes every occurrence and keeps the length |
| Text.ReplaceAll | GuitarTabsExplorerSearchEngine.cs:97 | every non-overlapping occurrence, scanned from the left, replaced |
| Text.ReplaceAllWithoutPattern | GuitarTabsExplorerSearchEngine.cs:97 | Replace with an absent pattern changes nothing |
| Text.ReplacePercentLeavesNone | GuitarTabsExplorerSearchEngine.cs:97 | after replacing "%20" by "+", no "%20" is left |
| Text.LastIndexOf | GuitarTabsExplorerSearchEngine.cs:130 | -1 exactly when the character is absent, otherwise its last position |
| Text.RemoveCharRemoves | GuitarTabsExplorerSearchEngine.cs:130 | removing a character removes all of it and keeps every other character |
| Text.TrimStart | GuitarTabsExplorerSearchEngine.cs:216 | a suffix of the text, with only white space (the whole `Char.IsWhiteSpace` set) cut, not starting with white space |
| Text.TrimEnd | GuitarTabsExplorerSearchEngine.cs:216 | a prefix of the text, with only white space cut, not ending with white space |
| Text.Trim | GuitarTabsExplorerSearchEngine.cs:216 | TrimEnd of TrimStart |
| Text.TrimUnpadded | GuitarTabsExplorerSearchEngine.cs:216 | Trim leaves a text without outer white space unchanged |
| Text.NatToString | GuitarTabsExplorerSearchEngine.cs:152 | the page number is written as a non-empty digit string with that value and no leading zero |
| Text.NatToStringInjective | GuitarTabsExplorerSearchEngine.cs:152 | different page numbers are written differently |
| Text.TryParseInt32 | GuitarTabsExplorerSearchEngine.cs:220 | a parsed value is in the 32-bit range, the text contains a digit, and every character of the text is a digit, a sign, U+0009 to U+000D or a space |
| Text.NoBreakSpaceNotParsed | GuitarTabsExplorerSearchEngine.cs:220 | a number preceded by a no-break space does not parse, although Trim would cut that space |
| Text.ParseFormatRoundTrip | GuitarTabsExplorerSearchEngine.cs:220 | parsing the decimal form of a number in range gives the number back |
| LazyRegex.MatchAt | GuitarTabsExplorerParser.cs:29-34 | the groups of the match that starts exactly at a position: each literal in turn, with a lazy group between consecutive literals |
| LazyRegex.Extend | GuitarTabsExplorerParser.cs:29-34 | a lazy group grows one character at a time, never across a line break, until the rest of the pattern matches after it |
| LazyRegex.FirstMatch | GuitarTabsExplorerParser.cs:30 | `Regex.Match`: the match from the leftmost start position, searching from the beginning |
| LazyRegex.GroupValue | GuitarTabsExplorerParser.cs:33-34 | `Groups[k].Value`: the k-th group of the leftmost match, or "" when nothing matches; also used at GuitarTabsExplorerSearchEngine.cs:175 |
| LazyRegex.FirstMatchFrom | GuitarTabsExplorerParser.cs:30 | the match found is at the first position from which the pattern matches; no match means no such position |
| LazyRegex.MatchAtSound | GuitarTabsExplorerParser.cs:29-34 | a match spells out literals and groups at that position, and the groups have no line break |
| LazyRegex.MatchAtComplete | GuitarTabsExplorerParser.cs:29-34 | literals and line-free groups spelled out at a position always give a match there |
| LazyRegex.GroupExactBefore | GuitarTabsExplorerParser.cs:29-34 | a lazy group takes exactly a line-free text x when the closing literal follows x and starts nowhere before x ends |
| LazyRegex.FirstMatchAt | GuitarTabsExplorerParser.cs:30 | a match at i with no match before i is the leftmost match |
| LazyRegex.ShortestSingleGroup | GuitarTabsExplorerParser.cs:29 | the lazy group stops at the first closing literal |
| LazyRegex.GroupValueOfFirstMatch | GuitarTabsExplorerSearchEngine.cs:174-175 | a group's value comes from the leftmost match, or is "" when nothing matches |
| LazyRegex.NoMatchGivesEmpty | GuitarTabsExplorerParser.cs:30-34 | when the opening literal occurs nowhere, every group is "" |
| Seqs.FilterMapConcat | GuitarTabsExplorerSearchEngine.cs:186-207 | filtering a concatenation concatenates the filtered parts |
| Seqs.FilterMapMember | GuitarTabsExplorerSearchEngine.cs:186-207 | an item is among the filtered results exactly when some input maps to it |
| Seqs.FlattenConcat | GuitarTabsExplorerSearchEngine.cs:115-141 | flattening a concatenation of lists concatenates the flattened parts |
| Seqs.FlattenMember | GuitarTabsExplorerSearchEngine.cs:115-141 | an entry is in the flattened lists exactly when it is in one of them |

## Left out

- Network access is left out. `WebClient.DownloadString`, the proxy and
  `Homepage` are not modelled. A `Site` maps each URL to what its page holds,
  so a URL always serves the same page. Transport errors are not modelled.
- HTML parsing is left out. HtmlAgilityPack and its XPath queries are
  replaced by records:
  - listing rows: an optional link, the second cell's text and the star count;
  - the pagination element: the inner texts of its child nodes, or None;
  - "Matching songs" entries: the artist text, the bold link and the inner
    markup.
- `HttpUtility.UrlEncode` is a parameter of the model.
- Parser.IsUrlParsable: `Uri` parsing is left out. The predicate receives the
  host as written in the URL and lower-cases it, as `DnsSafeHost` does, on
  ASCII letters only. International domain names, punycode, IPv6 literals
  and a trailing dot are not modelled.
- Result URLs: the plugin wraps each result URL in `new Uri(...)`
  (GuitarTabsExplorerSearchEngine.cs:139 and :206). That normalises the
  text, for example by escaping characters, and throws `UriFormatException`
  on a malformed `href`. The model keeps the raw text, `SiteRoot` followed by
  the `href`.
- `TablatureRatingUtilities.FromInt` is kept symbolic as `FromInt(stars)`.
- Star counting in the detail page is left out. The plugin computes it and
  throws it away; the model proves that it does not matter.
- Crash paths of the plugin are excluded by preconditions:
  - `ProcessArtistSearch`: a pagination element with no child, or whose last
    child is "Next" when it has fewer than three children, is an index error.
    It is excluded by `PaginationWellFormed`.
  - `ProcessTitleSearch`: a matching entry without "(" makes
    `Substring(-1)` throw. It is excluded by `SearchPageWellFormed`.
  - A null title in title mode makes `UrlEncode(null).Replace` throw.
    `Search` requires a title in that mode.
  - Missing nodes in either part, such as no `thead`, no "Matching songs"
    heading, no rating panel or no `pre` element, are null dereferences. The
    model receives their content and does not model the crash. A `contents`
    of None stands for a null `pre` text.
- Search: does not model the page that never reports a final count. On such
  a sequence of pages the plugin's loop runs on forever. `Search` requires
  that a last page exists.
- Search: the 32-bit `currentPage` counter is a `nat`; wrap-around after
  2^31 - 1 pages is not modelled.
- Text.TryParseInt32: the ensures bound the value, require a digit and limit
  the characters of an accepted text; they do not give the value. The exact value is proved only for strings that `NatToString` writes, by
  `ParseFormatRoundTrip`. Culture-specific digits, signs and thousands
  separators are not modelled, and neither is the trailing run of NUL
  characters that `Int32.TryParse` accepts.
- Text: ignore-case comparison folds only ASCII letters. Other Unicode case
  mappings are not modelled.
- Plugin metadata is left out: GuitarTabsExplorerPlugin.cs, `Name`,
  `SiteName`, `Version`, the `Requires*` flags, and the engine reference
  that each result carries.

The model follows the code where it departs from the adapter's intended
design:

- **Empty contents.** They are returned, not treated as absent
  (`Parser.EmptyContentsAccepted`).
- **Title search without an artist.** It keeps no entry, because the
  comparison with a null artist always fails (`NullArtistFindsNothing`).
  The artist filter is not skipped.
- **Page count.** It is read at a fixed position from the end of the
  pagination element, not as the largest page number.
