/**
 * The search engine: a query becomes either a walk over the pages of an
 * artist's listing or one free-text search, and the rows or entries of the
 * pages fetched become search results, in the order they appear.
 *
 * The engine's services are parameters (a Site): HttpUtility.UrlEncode, and
 * the download of a URL together with the extraction of the bits of markup
 * the engine reads, as a listing page or as a search page.
 */
module SearchEngine {
  import opened Wrappers
  import opened Text
  import opened Seqs
  import opened LazyRegex
  import opened Tablature
  import opened Classifier

  const SiteRoot: string := "http://www.guitartabsexplorer.com"
  const SearchPrefix: string := "http://www.guitartabsexplorer.com/search.php?search="

  /** A link: its href attribute and its inner text. */
  datatype Link = Link(href: string, text: string)

  /** A row of the listing table: the row's first link (None for the embedded
      advertisements), the text of its second cell and the number of star
      icons in its third (0 when the star lookup finds no node). */
  datatype ListingRow = ListingRow(link: Option<Link>, typeText: string, stars: nat)

  /** An artist listing page: its markup, the rows of its table, and the inner
      texts of the child nodes of the pagination element after the table
      (None when there is no such element). */
  datatype ListingPage = ListingPage(html: string, rows: seq<ListingRow>, pagination: Option<seq<string>>)

  /** An entry under "Matching songs": the text of its first link (the
      artist), its bold link (title and href) and its inner markup. */
  datatype SongEntry = SongEntry(artistText: string, link: Link, innerHtml: string)

  /** A search page: the entries of each list under "Matching songs". */
  datatype SearchPage = SearchPage(lists: seq<seq<SongEntry>>)

  datatype Site = Site(
    urlEncode: string -> string,
    fetchListing: string -> ListingPage,
    fetchSearch: string -> SearchPage)

  /** SupportsTabType: the three types the site offers. */
  predicate SupportsTabType(t: TablatureType)
  {
    t == Guitar || t == Chords || t == Bass
  }

  /** Every type the classifier yields is one the engine supports, and no
      type of the host beyond the three is supported. */
  lemma SupportedTypes(t: TablatureType, s: string)
    ensures SupportsTabType(t) <==> !t.OtherType?
    ensures GetTypeFromString(s).Some? ==> SupportsTabType(GetTypeFromString(s).value)
  {
    if GetTypeFromString(s).Some? {
      ClassifiedTypeIsSiteType(s);
    }
  }

  // ---------------------------------------------------------------------
  // Request URLs

  /** The path segment that narrows a listing to one type; none for a null
      type or a type the site does not offer. */
  function TypeSuffix(t: Option<TablatureType>): string
  {
    match t
    case Some(Guitar) => "/tabs"
    case Some(Chords) => "/chords"
    case Some(Bass) => "/bass"
    case _ => ""
  }

  /** `http://www.guitartabsexplorer.com/{artist, spaces as -, encoded}-Tabs/{page}[/tabs|/chords|/bass]/` */
  function ArtistBrowseUrl(encode: string -> string, artist: string, page: nat, t: Option<TablatureType>): string
  {
    SiteRoot + "/" + encode(ReplaceChar(artist, ' ', '-')) + "-Tabs/" + NatToString(page) + TypeSuffix(t) + "/"
  }

  /** `http://www.guitartabsexplorer.com/search.php?search={encoded title, %20 as +}` */
  function TitleSearchUrl(encode: string -> string, title: string): string
  {
    SearchPrefix + ReplaceAll(encode(title), "%20", "+")
  }

  /** The encoder never sees a space of the artist's name. */
  lemma ArtistSlugHasNoSpace(artist: string)
    ensures ' ' !in ReplaceChar(artist, ' ', '-')
  {
    ReplaceCharRemoves(artist, ' ', '-');
  }

  /** A type the site does not offer adds no segment, as a null type does. */
  lemma OtherTypeBrowsesAll(encode: string -> string, artist: string, page: nat, name: string)
    ensures ArtistBrowseUrl(encode, artist, page, Some(OtherType(name))) == ArtistBrowseUrl(encode, artist, page, None)
  {
  }

  /** Different pages are different URLs, so no page is requested twice. */
  lemma ArtistBrowseUrlPageInjective(encode: string -> string, artist: string, p1: nat, p2: nat, t: Option<TablatureType>)
    requires ArtistBrowseUrl(encode, artist, p1, t) == ArtistBrowseUrl(encode, artist, p2, t)
    ensures p1 == p2
  {
    var head := SiteRoot + "/" + encode(ReplaceChar(artist, ' ', '-')) + "-Tabs/";
    var tail := TypeSuffix(t) + "/";
    var u1, u2 := NatToString(p1), NatToString(p2);
    assert ArtistBrowseUrl(encode, artist, p1, t) == head + u1 + tail;
    assert ArtistBrowseUrl(encode, artist, p2, t) == head + u2 + tail;
    assert |u1| == |u2|;
    assert (head + u1 + tail)[|head|..|head| + |u1|] == u1;
    assert (head + u2 + tail)[|head|..|head| + |u2|] == u2;
    NatToStringInjective(p1, p2);
  }

  /** The query part of the search URL holds no "%20": every encoded space
      has become "+". */
  lemma TitleQueryHasNoPercent20(encode: string -> string, title: string)
    ensures var u := TitleSearchUrl(encode, title);
      |u| >= |SearchPrefix| && u[..|SearchPrefix|] == SearchPrefix &&
      forall i :: !StartsAt(u[|SearchPrefix|..], i, "%20")
  {
    var u := TitleSearchUrl(encode, title);
    assert u[|SearchPrefix|..] == ReplaceAll(encode(title), "%20", "+");
    ReplacePercentLeavesNone(encode(title));
  }

  /** An encoded title without "%20" is sent as it is. */
  lemma TitleSentAsEncoded(encode: string -> string, title: string)
    requires forall i :: !StartsAt(encode(title), i, "%20")
    ensures TitleSearchUrl(encode, title) == SearchPrefix + encode(title)
  {
    ReplaceAllWithoutPattern(encode(title), "%20", "+");
  }

  // ---------------------------------------------------------------------
  // Artist listing: rows to results

  /** The rating of a row: none without star icons, FromInt(count) otherwise. */
  function RatingOf(stars: nat): (r: TablatureRating)
    ensures r == Unrated <==> stars == 0
    ensures r.FromInt? ==> r.stars == stars
  {
    if stars == 0 then Unrated else FromInt(stars)
  }

  /** The type filter of both modes: a null query type accepts everything,
      otherwise the type must be equal, so an unclassified entry is dropped. */
  predicate TypeAccepted(wanted: Option<TablatureType>, actual: Option<TablatureType>)
  {
    wanted.None? || wanted == actual
  }

  /** The artist a listing page names, `Browse our {artist} collection`. */
  const ListingArtistPattern: seq<string> := ["Browse our ", " collection"]

  function ListingArtist(html: string): string
  {
    GroupValue(html, ListingArtistPattern, 0)
  }

  /** The result of one row, None when the row is skipped. */
  function ListingRowResult(q: SearchQuery, artist: string, row: ListingRow): (r: Option<SearchResult>)
    ensures r.Some? <==> row.link.Some? && TypeAccepted(q.tabType, GetTypeFromString(row.typeText))
  {
    match row.link
    case None => None
    case Some(link) =>
      var t := GetTypeFromString(row.typeText);
      if !TypeAccepted(q.tabType, t) then None
      else Some(SearchResult(q, AttributedTablature(artist, link.text, t, None), SiteRoot + link.href, Some(RatingOf(row.stars))))
  }

  function ListingRowSelect(q: SearchQuery, artist: string): ListingRow -> Option<SearchResult>
  {
    row => ListingRowResult(q, artist, row)
  }

  /** One row contributes its result, if any. */
  lemma ListingRowStep(q: SearchQuery, artist: string, rows: seq<ListingRow>, row: ListingRow)
    ensures ListingResults(q, artist, rows + [row]) ==
      ListingResults(q, artist, rows) + (if row.link.None? || !TypeAccepted(q.tabType, GetTypeFromString(row.typeText)) then []
        else [ListingRowResult(q, artist, row).value])
  {
    FilterMapConcat(ListingRowSelect(q, artist), rows, [row]);
    assert FilterMap(ListingRowSelect(q, artist), [row]) ==
      (if row.link.None? || !TypeAccepted(q.tabType, GetTypeFromString(row.typeText)) then []
        else [ListingRowResult(q, artist, row).value]);
  }

  /** The results of one listing page, in row order. */
  function ListingResults(q: SearchQuery, artist: string, rows: seq<ListingRow>): seq<SearchResult>
  {
    FilterMap(ListingRowSelect(q, artist), rows)
  }

  /** Every result of a listing page carries the page's artist, a title and
      URL from a row's link, a type the query accepts and a rating. */
  lemma ListingResultsSound(q: SearchQuery, artist: string, rows: seq<ListingRow>, r: SearchResult)
    requires r in ListingResults(q, artist, rows)
    ensures r.query == q && r.tab.artist == artist && r.tab.contents.None?
    ensures TypeAccepted(q.tabType, r.tab.tabType) && r.rating.Some?
    ensures exists i :: (0 <= i < |rows| && rows[i].link.Some? &&
      r.tab.title == rows[i].link.value.text && r.url == SiteRoot + rows[i].link.value.href &&
      r.tab.tabType == GetTypeFromString(rows[i].typeText) && r.rating == Some(RatingOf(rows[i].stars)))
  {
    FilterMapMember(ListingRowSelect(q, artist), rows, r);
    var i :| 0 <= i < |rows| && ListingRowSelect(q, artist)(rows[i]) == Some(r);
    assert ListingRowResult(q, artist, rows[i]) == Some(r);
  }

  /** An advertisement row, wherever it stands, changes nothing. */
  lemma AdRowIgnored(q: SearchQuery, artist: string, before: seq<ListingRow>, ad: ListingRow, after: seq<ListingRow>)
    requires ad.link.None?
    ensures ListingResults(q, artist, before + [ad] + after) == ListingResults(q, artist, before + after)
  {
    var f := ListingRowSelect(q, artist);
    FilterMapConcat(f, before + [ad], after);
    FilterMapConcat(f, before, [ad]);
    FilterMapConcat(f, before, after);
    assert FilterMap(f, [ad]) == [];
  }

  /** Without a type in the query, every row with a link gives one result. */
  lemma EveryLinkedRowKept(q: SearchQuery, artist: string, rows: seq<ListingRow>)
    requires q.tabType.None?
    requires forall row :: row in rows ==> row.link.Some?
    ensures |ListingResults(q, artist, rows)| == |rows|
  {
    FilterMapKeepsAll(ListingRowSelect(q, artist), rows);
  }

  /** The button that leads to the next page: its trimmed text, folded to
      lower case, is "next". */
  predicate IsNextLabel(text: string)
  {
    LowerAll(Trim(text)) == "next"
  }

  /** That is the plugin's comparison of the trimmed text with "Next",
      ignoring case. */
  lemma NextLabelIgnoresCase(text: string)
    ensures IsNextLabel(text) <==> EqualsIgnoreCase(Trim(text), "Next")
  {
    var t := Trim(text);
    if EqualsIgnoreCase(t, "Next") {
      forall i | 0 <= i < 4 ensures LowerAll(t)[i] == "next"[i] {
        assert ToLower(t[i]) == ToLower("Next"[i]);
      }
    }
    if IsNextLabel(text) {
      forall i | 0 <= i < |t| ensures ToLower(t[i]) == ToLower("Next"[i]) {
        assert LowerAll(t)[i] == "next"[i];
      }
    }
  }

  /** Trim cuts every Unicode white space, so a button reading "Next"
      followed by a no-break space is still the Next button. */
  lemma NoBreakSpaceNextLabel()
    ensures IsNextLabel("Next" + ['\U{A0}'])
  {
    var t := "Next" + ['\U{A0}'];
    assert SkipWhite(t, 0) == 0;
    assert SkipWhiteBack(t, 5) == 4 by {
      assert SkipWhiteBack(t, 4) == 4;
    }
    assert Trim(t) == "Next";
    assert LowerAll("Next") == "next" by {
      assert forall i :: 0 <= i < 4 ==> LowerAll("Next")[i] == "next"[i];
    }
  }

  /** A pagination element the plugin can read without an index error: it has
      a child, and at least three when the last one is "Next". */
  predicate PaginationWellFormed(pagination: Option<seq<string>>)
  {
    match pagination
    case None => true
    case Some(children) => |children| >= 1 && (IsNextLabel(children[|children| - 1]) ==> |children| >= 3)
  }

  /** The text of the last page link: the last child, or the third child from
      the end when the last one is "Next" (skipping the button and a text node). */
  function LastPageLabel(children: seq<string>): string
    requires PaginationWellFormed(Some(children))
  {
    if IsNextLabel(children[|children| - 1]) then children[|children| - 3] else children[|children| - 1]
  }

  /** The totalPages a listing page reports: the current page when there is no
      pagination, else the parsed last page label, 0 when it does not parse. */
  function PageTotal(page: ListingPage, currentPage: nat): (total: int)
    requires PaginationWellFormed(page.pagination)
    ensures page.pagination.None? ==> total == currentPage
    ensures page.pagination.Some? && TryParseInt32(LastPageLabel(page.pagination.value)).None? ==> total == 0
    ensures page.pagination.Some? && TryParseInt32(LastPageLabel(page.pagination.value)).Some? ==>
      total == TryParseInt32(LastPageLabel(page.pagination.value)).value
  {
    match page.pagination
    case None => currentPage
    case Some(children) =>
      match TryParseInt32(LastPageLabel(children))
      case Some(v) => v
      case None => 0
  }

  /** The pagination steps of ProcessArtistSearch that read the page count,
      kept in the plugin's imperative form (index, reassignment, TryParse
      into an out value) and proved equal to its specification PageTotal. */
  method ReadPageTotal(page: ListingPage, currentPage: nat) returns (totalPages: int)
    requires PaginationWellFormed(page.pagination)
    ensures totalPages == PageTotal(page, currentPage)
  {
    match page.pagination
    case None =>
      totalPages := currentPage;
    case Some(children) =>
      var lastItem := SelectLastItem(children);
      var parsed := TryParseInt32(lastItem);
      totalPages := if parsed.Some? then parsed.value else 0;
  }

  /** The positional read of the last page link: the last child, moved back
      three children when it is the "Next" button. */
  method SelectLastItem(children: seq<string>) returns (lastItem: string)
    requires PaginationWellFormed(Some(children))
    ensures lastItem == LastPageLabel(children)
  {
    lastItem := children[|children| - 1];
    if IsNextLabel(lastItem) {
      lastItem := children[|children| - 3];
    }
  }

  /** The StringBuilder steps of ProcessArtistSearch that form the request
      URL, kept in the plugin's imperative form (appends and the if-chain on
      the type) and proved equal to its specification ArtistBrowseUrl. */
  method BuildArtistUrl(encode: string -> string, artistName: string, page: nat, tabType: Option<TablatureType>)
    returns (url: string)
    ensures url == ArtistBrowseUrl(encode, artistName, page, tabType)
  {
    var sb := SiteRoot + "/";
    var artist := ReplaceChar(artistName, ' ', '-');
    artist := encode(artist);
    sb := sb + artist + "-Tabs/";
    sb := sb + NatToString(page);
    ghost var base := sb;
    assert base == SiteRoot + "/" + artist + "-Tabs/" + NatToString(page);
    if tabType.Some? {
      if tabType.value == Guitar {
        sb := sb + "/tabs";
      }
      if tabType.value == Chords {
        sb := sb + "/chords";
      }
      if tabType.value == Bass {
        sb := sb + "/bass";
      }
    }
    assert sb == base + TypeSuffix(tabType);
    sb := sb + "/";
    url := sb;
  }

  /** ProcessArtistSearch: request one listing page, turn its rows into
      results and report the page count it shows. */
  method ProcessArtistSearch(site: Site, q: SearchQuery, currentPage: nat)
    returns (results: seq<SearchResult>, totalPages: int, url: string)
    requires q.artist.Some?
    requires PaginationWellFormed(site.fetchListing(ArtistBrowseUrl(site.urlEncode, q.artist.value, currentPage, q.tabType)).pagination)
    ensures url == ArtistBrowseUrl(site.urlEncode, q.artist.value, currentPage, q.tabType)
    ensures results == ListingResults(q, ListingArtist(site.fetchListing(url).html), site.fetchListing(url).rows)
    ensures totalPages == PageTotal(site.fetchListing(url), currentPage)
  {
    url := BuildArtistUrl(site.urlEncode, q.artist.value, currentPage, q.tabType);

    var page := site.fetchListing(url);
    var extractedArtist := ListingArtist(page.html);
    var rows := page.rows;
    results := [];
    var i := 0;
    while i < |rows|
      invariant 0 <= i <= |rows|
      invariant results == ListingResults(q, extractedArtist, rows[..i])
    {
      var row := rows[i];
      assert rows[..i + 1] == rows[..i] + [row];
      ListingRowStep(q, extractedArtist, rows[..i], row);
      i := i + 1;
      if row.link.None? {
        continue;
      }
      var link := row.link.value;
      var rowUrl := SiteRoot + link.href;
      var title := link.text;
      var rowType := GetTypeFromString(row.typeText);
      if q.tabType.Some? && q.tabType != rowType {
        continue;
      }
      var rating := if row.stars == 0 then Unrated else FromInt(row.stars);
      results := results + [SearchResult(q, AttributedTablature(extractedArtist, title, rowType, None), rowUrl, Some(rating))];
    }
    assert rows[..i] == rows;

    totalPages := ReadPageTotal(page, currentPage);
  }

  // ---------------------------------------------------------------------
  // Title search: entries to results

  /** The entry's artist equals the query's, ignoring case; never for a null
      query artist. */
  predicate ArtistMatches(q: SearchQuery, artistText: string)
  {
    q.artist.Some? && EqualsIgnoreCase(artistText, q.artist.value)
  }

  /** An entry the plugin reads without an error: one whose artist matches
      has a "(" in its markup. */
  predicate EntryWellFormed(q: SearchQuery, e: SongEntry)
  {
    ArtistMatches(q, e.artistText) ==> '(' in e.innerHtml
  }

  predicate SearchPageWellFormed(q: SearchQuery, page: SearchPage)
  {
    forall e :: e in Flatten(page.lists) ==> EntryWellFormed(q, e)
  }

  /** The type label of an entry: its markup from the last "(" on, without
      any "(" or ")". */
  function EntryTypeLabel(innerHtml: string): (lbl: string)
    requires '(' in innerHtml
    ensures '(' !in lbl && ')' !in lbl
  {
    var k := LastIndexOf(innerHtml, '(');
    var open := ReplaceAll(innerHtml[k..], "(", "");
    RemoveCharRemoves(innerHtml[k..], '(');
    RemoveCharRemoves(open, ')');
    ReplaceAll(open, ")", "")
  }

  /** A trailing `(label)` is read as label. */
  lemma EntryTypeLabelOfTrailingLabel(before: string, lbl: string)
    requires '(' !in lbl && ')' !in lbl
    ensures '(' in before + "(" + lbl + ")"
    ensures EntryTypeLabel(before + "(" + lbl + ")") == lbl
  {
    var s := before + "(" + lbl + ")";
    assert s[|before|] == '(';
    var k := LastIndexOf(s, '(');
    assert k == |before| by {
      forall j | |before| < j < |s| ensures s[j] != '(' {
        if j < |s| - 1 {
          assert s[j] == lbl[j - |before| - 1];
        }
      }
    }
    assert s[k..] == "(" + (lbl + ")");
    assert '(' !in lbl + ")";
    RemoveCharConcat("(", lbl + ")", '(');
    assert ReplaceAll("(", "(", "") == "" + ReplaceAll("", "(", "");
    RemoveCharAbsent(lbl + ")", '(');
    RemoveCharConcat(lbl, ")", ')');
    RemoveCharAbsent(lbl, ')');
    assert ReplaceAll(")", ")", "") == "" + ReplaceAll("", ")", "");
    assert ReplaceAll(s[k..], "(", "") == lbl + ")";
    assert ReplaceAll(lbl + ")", ")", "") == lbl;
  }

  /** The result of one entry, None when it is skipped. */
  function SongEntryResult(q: SearchQuery, e: SongEntry): (r: Option<SearchResult>)
    requires EntryWellFormed(q, e)
    ensures r.Some? <==> ArtistMatches(q, e.artistText) && TypeAccepted(q.tabType, GetTypeFromString(EntryTypeLabel(e.innerHtml)))
  {
    if !ArtistMatches(q, e.artistText) then None
    else
      var t := GetTypeFromString(EntryTypeLabel(e.innerHtml));
      if !TypeAccepted(q.tabType, t) then None
      else Some(SearchResult(q, AttributedTablature(e.artistText, e.link.text, t, None), SiteRoot + e.link.href, None))
  }

  function SongEntrySelect(q: SearchQuery): SongEntry --> Option<SearchResult>
  {
    e requires EntryWellFormed(q, e) => SongEntryResult(q, e)
  }

  /** One entry contributes its result, if any. */
  lemma SongEntryStep(q: SearchQuery, es: seq<SongEntry>, e: SongEntry)
    requires forall x :: x in es ==> EntryWellFormed(q, x)
    requires EntryWellFormed(q, e)
    ensures FilterMap(SongEntrySelect(q), es + [e]) == FilterMap(SongEntrySelect(q), es) +
      (if SongEntryResult(q, e).None? then [] else [SongEntryResult(q, e).value])
  {
    FilterMapConcat(SongEntrySelect(q), es, [e]);
    assert FilterMap(SongEntrySelect(q), [e]) == (if SongEntryResult(q, e).None? then [] else [SongEntryResult(q, e).value]);
  }

  /** The results of a search page: its entries in document order, filtered. */
  function TitleResults(q: SearchQuery, page: SearchPage): seq<SearchResult>
    requires SearchPageWellFormed(q, page)
  {
    FilterMap(SongEntrySelect(q), Flatten(page.lists))
  }

  /** Every result of a search names the query's artist, ignoring case, has a
      type the query accepts and no rating. */
  lemma TitleResultsSound(q: SearchQuery, page: SearchPage, r: SearchResult)
    requires SearchPageWellFormed(q, page)
    requires r in TitleResults(q, page)
    ensures q.artist.Some? && EqualsIgnoreCase(r.tab.artist, q.artist.value)
    ensures TypeAccepted(q.tabType, r.tab.tabType) && r.rating.None? && r.query == q
    ensures exists e :: (e in Flatten(page.lists) && EntryWellFormed(q, e) && '(' in e.innerHtml &&
      r.tab.artist == e.artistText && r.tab.title == e.link.text && r.url == SiteRoot + e.link.href &&
      r.tab.tabType == GetTypeFromString(EntryTypeLabel(e.innerHtml)))
  {
    var es := Flatten(page.lists);
    FilterMapMember(SongEntrySelect(q), es, r);
    var i :| 0 <= i < |es| && SongEntrySelect(q)(es[i]) == Some(r);
    assert SongEntryResult(q, es[i]) == Some(r);
  }

  /** A query without an artist finds nothing in title search. */
  lemma NullArtistFindsNothing(q: SearchQuery, page: SearchPage)
    requires q.artist.None?
    ensures SearchPageWellFormed(q, page)
    ensures TitleResults(q, page) == []
  {
    FilterMapKeepsNone(SongEntrySelect(q), Flatten(page.lists));
  }

  /** ProcessTitleSearch: request the search page and turn the entries of its
      lists, list by list, into results. */
  method ProcessTitleSearch(site: Site, q: SearchQuery) returns (results: seq<SearchResult>, url: string)
    requires q.title.Some?
    requires SearchPageWellFormed(q, site.fetchSearch(TitleSearchUrl(site.urlEncode, q.title.value)))
    ensures url == TitleSearchUrl(site.urlEncode, q.title.value)
    ensures results == TitleResults(q, site.fetchSearch(url))
  {
    var sb := SearchPrefix;
    var urlTitle := ReplaceAll(site.urlEncode(q.title.value), "%20", "+");
    sb := sb + urlTitle;
    url := sb;

    var page := site.fetchSearch(url);
    var lists := page.lists;
    ghost var select := SongEntrySelect(q);
    results := [];
    var i := 0;
    while i < |lists|
      invariant 0 <= i <= |lists|
      invariant Flatten(lists[..i]) + Flatten(lists[i..]) == Flatten(lists)
      invariant results == FilterMap(select, Flatten(lists[..i]))
    {
      FlattenSnoc(lists, i);
      FlattenConcat(lists[..i + 1], lists[i + 1..]);
      assert lists[..i + 1] + lists[i + 1..] == lists;
      FlattenConcat([lists[i]], lists[i + 1..]);
      assert [lists[i]] + lists[i + 1..] == lists[i..];
      assert Flatten([lists[i]]) == lists[i] + Flatten([]);
      var found := ProcessSongList(q, lists[i]);
      FilterMapConcat(select, Flatten(lists[..i]), lists[i]);
      results := results + found;
      i := i + 1;
    }
    assert lists[..i] == lists;
  }

  /** The inner loop of ProcessTitleSearch over the entries of one list. */
  method ProcessSongList(q: SearchQuery, list: seq<SongEntry>) returns (results: seq<SearchResult>)
    requires forall e :: e in list ==> EntryWellFormed(q, e)
    ensures results == FilterMap(SongEntrySelect(q), list)
  {
    results := [];
    var j := 0;
    while j < |list|
      invariant 0 <= j <= |list|
      invariant results == FilterMap(SongEntrySelect(q), list[..j])
    {
      var item := list[j];
      assert list[..j + 1] == list[..j] + [item];
      SongEntryStep(q, list[..j], item);
      j := j + 1;
      var artist := item.artistText;
      if !(q.artist.Some? && EqualsIgnoreCase(artist, q.artist.value)) {
        continue;
      }
      var link := item.link;
      var itemUrl := SiteRoot + link.href;
      var title := link.text;
      var itemType := GetTypeFromString(EntryTypeLabel(item.innerHtml));
      if q.tabType.Some? && q.tabType != itemType {
        continue;
      }
      results := results + [SearchResult(q, AttributedTablature(artist, title, itemType, None), itemUrl, None)];
    }
    assert list[..j] == list;
  }

  // ---------------------------------------------------------------------
  // Search: mode dispatch and the page loop

  predicate IsNullOrEmpty(s: Option<string>)
  {
    s.None? || s.value == []
  }

  /** Artist-browse mode: an artist and no title; any other query is a title
      search. */
  predicate BrowseMode(q: SearchQuery)
  {
    !IsNullOrEmpty(q.artist) && IsNullOrEmpty(q.title)
  }

  /** The listing page the site serves for page n of the query's artist. */
  function ListingAt(site: Site, q: SearchQuery, n: nat): ListingPage
    requires q.artist.Some?
  {
    site.fetchListing(ArtistBrowseUrl(site.urlEncode, q.artist.value, n, q.tabType))
  }

  /** Page n can be processed: its pagination element, if any, can be read. */
  predicate PageReadable(site: Site, q: SearchQuery, n: nat)
  {
    q.artist.Some? && PaginationWellFormed(ListingAt(site, q, n).pagination)
  }

  /** After page n the loop requests page n + 1: the page count page n
      reports exceeds n. */
  predicate ContinuesAt(site: Site, q: SearchQuery, n: nat)
  {
    PageReadable(site, q, n) && PageTotal(ListingAt(site, q, n), n) > n
  }

  /** After page n the loop ends. */
  predicate StopsAt(site: Site, q: SearchQuery, n: nat)
  {
    PageReadable(site, q, n) && PageTotal(ListingAt(site, q, n), n) <= n
  }

  /** n is the page the loop ends at: it stops there and goes on after each
      page before it. */
  predicate IsLastPage(site: Site, q: SearchQuery, n: nat)
  {
    1 <= n && StopsAt(site, q, n) && forall k :: 1 <= k < n ==> ContinuesAt(site, q, k)
  }

  /** The results of page n. */
  function PageResults(site: Site, q: SearchQuery, n: nat): seq<SearchResult>
    requires q.artist.Some?
  {
    ListingResults(q, ListingArtist(ListingAt(site, q, n).html), ListingAt(site, q, n).rows)
  }

  /** The results of pages 1 to n, in page order. */
  function BrowsedResults(site: Site, q: SearchQuery, n: nat): seq<SearchResult>
    requires q.artist.Some?
  {
    if n == 0 then [] else BrowsedResults(site, q, n - 1) + PageResults(site, q, n)
  }

  /** The URLs of pages 1 to n, in request order. */
  function BrowsedUrls(site: Site, q: SearchQuery, n: nat): seq<string>
    requires q.artist.Some?
  {
    if n == 0 then [] else BrowsedUrls(site, q, n - 1) + [ArtistBrowseUrl(site.urlEncode, q.artist.value, n, q.tabType)]
  }

  /** Request i asks for page i + 1, and no URL is requested twice. */
  lemma {:induction false} BrowsedUrlsPages(site: Site, q: SearchQuery, n: nat)
    requires q.artist.Some?
    ensures |BrowsedUrls(site, q, n)| == n
    ensures forall i :: 0 <= i < n ==> BrowsedUrls(site, q, n)[i] == ArtistBrowseUrl(site.urlEncode, q.artist.value, i + 1, q.tabType)
    ensures forall i, j :: 0 <= i < j < n ==> BrowsedUrls(site, q, n)[i] != BrowsedUrls(site, q, n)[j]
  {
    if n > 0 {
      BrowsedUrlsPages(site, q, n - 1);
      var us := BrowsedUrls(site, q, n);
      forall i | 0 <= i < n ensures us[i] == ArtistBrowseUrl(site.urlEncode, q.artist.value, i + 1, q.tabType) {
        if i < n - 1 {
          assert us[i] == BrowsedUrls(site, q, n - 1)[i];
        }
      }
      forall i, j | 0 <= i < j < n ensures us[i] != us[j] {
        if us[i] == us[j] {
          ArtistBrowseUrlPageInjective(site.urlEncode, q.artist.value, i + 1, j + 1, q.tabType);
        }
      }
    }
  }

  /** The loop can end at one page only. */
  lemma LastPageUnique(site: Site, q: SearchQuery, m: nat, n: nat)
    requires IsLastPage(site, q, m) && IsLastPage(site, q, n)
    ensures m == n
  {
    forall k | 1 <= k < n ensures !StopsAt(site, q, k) {
      assert ContinuesAt(site, q, k);
    }
    forall k | 1 <= k < m ensures !StopsAt(site, q, k) {
      assert ContinuesAt(site, q, k);
    }
  }

  /** A listing page without pagination reports itself as the last page, so
      the loop ends there, whichever page it is. */
  lemma NoPaginationStops(site: Site, q: SearchQuery, n: nat)
    requires q.artist.Some?
    requires ListingAt(site, q, n).pagination.None?
    ensures StopsAt(site, q, n)
  {
  }

  /** A first listing without pagination is the only page requested. */
  lemma NoPaginationSinglePage(site: Site, q: SearchQuery)
    requires q.artist.Some?
    requires ListingAt(site, q, 1).pagination.None?
    ensures IsLastPage(site, q, 1)
  {
    NoPaginationStops(site, q, 1);
  }

  /** A page count that does not parse ends the loop at any page. */
  lemma UnparsableCountStops(site: Site, q: SearchQuery, n: nat)
    requires PageReadable(site, q, n)
    requires ListingAt(site, q, n).pagination.Some?
    requires TryParseInt32(LastPageLabel(ListingAt(site, q, n).pagination.value)).None?
    ensures StopsAt(site, q, n)
  {
  }

  /** When each of pages 1 to N reports N pages, the loop requests exactly
      pages 1 to N. */
  lemma {:induction false} ConstantCountWalksAll(site: Site, q: SearchQuery, total: nat)
    requires q.artist.Some? && total >= 1
    requires forall k :: 1 <= k <= total ==> PageReadable(site, q, k) && PageTotal(ListingAt(site, q, k), k) == total
    ensures IsLastPage(site, q, total)
  {
    forall k | 1 <= k < total ensures ContinuesAt(site, q, k) {
      assert PageReadable(site, q, k) && PageTotal(ListingAt(site, q, k), k) == total;
    }
    assert PageTotal(ListingAt(site, q, total), total) == total;
  }

  /** The results of the first m pages come first among those of n pages. */
  lemma {:induction false} BrowsedResultsPrefix(site: Site, q: SearchQuery, m: nat, n: nat)
    requires q.artist.Some? && m <= n
    ensures BrowsedResults(site, q, m) <= BrowsedResults(site, q, n)
    decreases n
  {
    if m < n {
      BrowsedResultsPrefix(site, q, m, n - 1);
      PrefixExtends(BrowsedResults(site, q, m), BrowsedResults(site, q, n - 1), PageResults(site, q, n));
    }
  }

  /** Every browsed result names the artist of the listing page it came
      from, and has a type the query accepts. */
  lemma {:induction false} BrowsedResultsSound(site: Site, q: SearchQuery, n: nat, r: SearchResult)
    requires q.artist.Some?
    requires r in BrowsedResults(site, q, n)
    ensures TypeAccepted(q.tabType, r.tab.tabType) && r.rating.Some? && r.query == q
    ensures exists k :: 1 <= k <= n && r.tab.artist == ListingArtist(ListingAt(site, q, k).html)
    decreases n
  {
    if r in BrowsedResults(site, q, n - 1) {
      BrowsedResultsSound(site, q, n - 1, r);
      var k :| 1 <= k <= n - 1 && r.tab.artist == ListingArtist(ListingAt(site, q, k).html);
      assert 1 <= k <= n;
    } else {
      assert r in PageResults(site, q, n);
      ListingResultsSound(q, ListingArtist(ListingAt(site, q, n).html), ListingAt(site, q, n).rows, r);
    }
  }

  /** The page loop of Search: pages 1, 2, ... of the artist's listing, until
      a page reports a page count it has reached. */
  method BrowseArtist(site: Site, q: SearchQuery) returns (results: seq<SearchResult>, requested: seq<string>)
    requires q.artist.Some?
    requires exists n :: IsLastPage(site, q, n)
    ensures IsLastPage(site, q, |requested|)
    ensures requested == BrowsedUrls(site, q, |requested|)
    ensures results == BrowsedResults(site, q, |requested|)
  {
    results := [];
    requested := [];
    ghost var last: nat :| IsLastPage(site, q, last);
    var currentPage: nat := 1;
    var totalPages: int;
    while true
      invariant 1 <= currentPage <= last
      invariant |requested| == currentPage - 1
      invariant requested == BrowsedUrls(site, q, currentPage - 1)
      invariant results == BrowsedResults(site, q, currentPage - 1)
      decreases last - currentPage
    {
      assert currentPage < last ==> ContinuesAt(site, q, currentPage);
      assert currentPage == last ==> StopsAt(site, q, currentPage);
      var pageResults, url;
      pageResults, totalPages, url := ProcessArtistSearch(site, q, currentPage);
      results := results + pageResults;
      requested := requested + [url];
      currentPage := currentPage + 1;
      assert results == BrowsedResults(site, q, currentPage - 1);
      assert requested == BrowsedUrls(site, q, currentPage - 1);
      assert |requested| == currentPage - 1;
      if !(currentPage <= totalPages) {
        assert |requested| == last;
        break;
      }
    }
  }

  /** Search: an artist without a title browses the artist's listing page by
      page; any other query is one title search. */
  method Search(site: Site, q: SearchQuery) returns (results: seq<SearchResult>, requested: seq<string>)
    requires BrowseMode(q) ==> exists n :: IsLastPage(site, q, n)
    requires !BrowseMode(q) ==> q.title.Some? && SearchPageWellFormed(q, site.fetchSearch(TitleSearchUrl(site.urlEncode, q.title.value)))
    ensures BrowseMode(q) ==> IsLastPage(site, q, |requested|)
    ensures BrowseMode(q) ==> requested == BrowsedUrls(site, q, |requested|)
    ensures BrowseMode(q) ==> results == BrowsedResults(site, q, |requested|)
    ensures !BrowseMode(q) ==> requested == [TitleSearchUrl(site.urlEncode, q.title.value)]
    ensures !BrowseMode(q) ==> results == TitleResults(q, site.fetchSearch(requested[0]))
  {
    if !IsNullOrEmpty(q.artist) && IsNullOrEmpty(q.title) {
      results, requested := BrowseArtist(site, q);
    } else {
      var url;
      results, url := ProcessTitleSearch(site, q);
      requested := [url];
    }
  }
}
