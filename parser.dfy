/**
 * The single-page importer: whether a URL belongs to the site, and how a
 * fetched tablature page becomes an attributed tablature.
 *
 * The download is not modelled: Parse receives what the page yields, namely
 * its raw markup, the number of star images in the rating panel and the text
 * of the `pre` block (None when that text is null).
 */
module Parser {
  import opened Wrappers
  import opened Text
  import opened LazyRegex
  import opened Tablature
  import opened Classifier

  const Domain: string := "guitartabsexplorer.com"

  /** IsUrlParsable: the URL's DnsSafeHost, which Uri gives in lower case,
      equals one of the two host names of the site. host is the host as
      written in the URL. */
  predicate IsUrlParsable(host: string)
  {
    var h := LowerAll(host);
    h == Domain || h == "www." + Domain
  }

  /** The test ignores case: a host is accepted exactly when it equals one of
      the site's two host names up to case. */
  lemma HostCaseIgnored(host: string)
    ensures IsUrlParsable(host) <==> EqualsIgnoreCase(host, Domain) || EqualsIgnoreCase(host, "www." + Domain)
  {
    var w := "www." + Domain;
    assert forall i :: 0 <= i < |Domain| ==> ToLower(Domain[i]) == Domain[i];
    assert forall i :: 0 <= i < |w| ==> ToLower(w[i]) == w[i];
    LowerAllEqualsIgnoreCase(host, Domain);
    LowerAllEqualsIgnoreCase(host, w);
  }

  /** So a host written in mixed case is accepted. */
  lemma MixedCaseHostAccepted()
    ensures IsUrlParsable("www.GuitarTabsExplorer.com")
  {
    var h := "www.GuitarTabsExplorer.com";
    assert LowerAll(h) == "www." + Domain by {
      forall i | 0 <= i < |h| ensures LowerAll(h)[i] == ("www." + Domain)[i] {
        assert ToLower(h[i]) == ("www." + Domain)[i];
      }
    }
  }

  /** A subdomain other than "www", in any case, is rejected. */
  lemma SubdomainRejected(sub: string)
    requires LowerAll(sub) != "www"
    ensures !IsUrlParsable(sub + "." + Domain)
  {
    var h := sub + "." + Domain;
    if |sub| == 3 {
      var w := "www." + Domain;
      if LowerAll(h) == w {
        forall i | 0 <= i < 3 ensures LowerAll(sub)[i] == "www"[i] {
          assert LowerAll(h)[i] == ToLower(sub[i]) && w[i] == 'w';
        }
      }
    }
  }

  /** A longer host that merely starts with the domain is rejected. */
  lemma ExtendedHostRejected(rest: string)
    requires rest != ""
    ensures !IsUrlParsable(Domain + rest)
  {
    var h := Domain + rest;
    if |h| == |"www." + Domain| {
      assert LowerAll(h)[0] == ToLower(h[0]) == 'g';
    }
  }

  /** The heading `<h2>label :</h2>` that names the type. */
  const TypePattern: seq<string> := ["<h2>", " :</h2>"]

  /** The heading `<h1>"title" by artist</h1>`. */
  const HeadingPattern: seq<string> := ["<h1>\"", "\" by ", "</h1>"]

  datatype DetailPage = DetailPage(html: string, ratingStars: nat, contents: Option<string>)

  function TypeLabel(html: string): string
  {
    GroupValue(html, TypePattern, 0)
  }

  function HeadingTitle(html: string): string
  {
    GroupValue(html, HeadingPattern, 0)
  }

  function HeadingArtist(html: string): string
  {
    GroupValue(html, HeadingPattern, 1)
  }

  /** Parse: None when the type label does not classify or the contents are
      null; otherwise the heading's artist and title, the type and the
      contents. The star count is read by the plugin but never attached. */
  function Parse(page: DetailPage): (r: Option<AttributedTablature>)
    ensures r.None? <==> GetTypeFromString(TypeLabel(page.html)).None? || page.contents.None?
    ensures r.Some? ==> r.value.tabType.Some? && r.value.contents.Some?
    ensures r.Some? ==> r.value.tabType == GetTypeFromString(TypeLabel(page.html)) && r.value.contents == page.contents
    ensures r.Some? ==> r.value.artist == HeadingArtist(page.html) && r.value.title == HeadingTitle(page.html)
  {
    var extractedType := GetTypeFromString(TypeLabel(page.html));
    var extractedArtist := HeadingArtist(page.html);
    var extractedTitle := HeadingTitle(page.html);
    if extractedType.None? || page.contents.None? then None
    else Some(AttributedTablature(extractedArtist, extractedTitle, extractedType, page.contents))
  }

  /** Empty contents are not a failure. */
  lemma EmptyContentsAccepted(html: string, stars: nat)
    requires GetTypeFromString(TypeLabel(html)).Some?
    ensures Parse(DetailPage(html, stars, Some(""))).Some?
    ensures Parse(DetailPage(html, stars, Some(""))).value.contents == Some("")
  {
  }

  /** The rating panel has no effect on the result. */
  lemma RatingNotAttached(page: DetailPage, stars: nat)
    ensures Parse(page.(ratingStars := stars)) == Parse(page)
  {
  }

  /** The type label is the group of the leftmost `<h2>label :</h2>`: the page
      holds that heading at that position, no earlier position starts one, and
      the label is the shortest such text, without a line break. */
  lemma TypeLabelIsFirstHeading(html: string)
    requires FirstMatch(html, TypePattern).Some?
    ensures var (i, g) := FirstMatch(html, TypePattern).value;
      |g| == 1 && TypeLabel(html) == g[0] &&
      StartsAt(html, i, "<h2>" + g[0] + " :</h2>") && NoNewline(g[0]) &&
      (forall j :: 0 <= j < i ==> MatchAt(html, j, TypePattern).None?) &&
      (forall p :: i + 4 <= p < i + 4 + |g[0]| ==> !StartsAt(html, p, " :</h2>"))
  {
    var (i, g) := FirstMatch(html, TypePattern).value;
    MatchAtSound(html, i, TypePattern);
    assert Interleave(TypePattern, g) == "<h2>" + g[0] + " :</h2>";
    ShortestSingleGroup(html, i, "<h2>", " :</h2>");
  }

  /** Without an `<h2>` heading the label is "" and the page gives no result. */
  lemma NoTypeHeadingNoResult(page: DetailPage)
    requires forall i :: !StartsAt(page.html, i, "<h2>")
    ensures TypeLabel(page.html) == "" && Parse(page).None?
  {
    NoMatchGivesEmpty(page.html, TypePattern, 0);
    EmptyLabelUnclassified();
  }

  /** Without an `<h1>"` heading artist and title are "" instead of a failure. */
  lemma NoTitleHeadingGivesEmptyFields(page: DetailPage)
    requires forall i :: !StartsAt(page.html, i, "<h1>\"")
    ensures Parse(page).Some? ==> Parse(page).value.artist == "" && Parse(page).value.title == ""
  {
    NoMatchGivesEmpty(page.html, HeadingPattern, 0);
    NoMatchGivesEmpty(page.html, HeadingPattern, 1);
  }

  /** Artist and title of a result come from one `<h1>"title" by artist</h1>`
      heading on the page. */
  lemma HeadingFieldsFromPage(page: DetailPage)
    requires Parse(page).Some? && FirstMatch(page.html, HeadingPattern).Some?
    ensures exists i :: StartsAt(page.html, i,
      "<h1>\"" + Parse(page).value.title + "\" by " + Parse(page).value.artist + "</h1>")
  {
    var (i, g) := FirstMatch(page.html, HeadingPattern).value;
    MatchAtSound(page.html, i, HeadingPattern);
    assert HeadingPattern[1..] == ["\" by ", "</h1>"] && HeadingPattern[1..][1..] == ["</h1>"];
    assert Interleave(HeadingPattern[1..], g[1..]) == "\" by " + g[1] + "</h1>";
    assert Interleave(HeadingPattern, g) == "<h1>\"" + g[0] + ("\" by " + g[1] + "</h1>");
    assert "<h1>\"" + g[0] + ("\" by " + g[1] + "</h1>") == "<h1>\"" + g[0] + "\" by " + g[1] + "</h1>";
  }

  /** A type heading `<h2>label :</h2>` at i reads back as its label when the
      label has no line break and " :</h2>" first starts after it. */
  lemma TypeHeadingReadsBack(h: string, i: nat, lbl: string)
    requires NoNewline(lbl) && ClosesOnlyAtEnd(lbl, " :</h2>")
    requires StartsAt(h, i, "<h2>") && StartsAt(h, i + 4, lbl + " :</h2>")
    ensures MatchAt(h, i, TypePattern) == Some([lbl])
  {
    var c := " :</h2>";
    StartsAtSplit(h, i + 4, lbl, c);
    assert MatchAt(h, i + 4 + |lbl|, [c]) == Some([]);
    GroupExactBefore(h, i + 4, lbl, [c], []);
    assert [lbl] + [] == [lbl];
    assert TypePattern[0] == "<h2>" && TypePattern[1..] == [c];
    MatchAtOpens(h, i, TypePattern);
  }

  /** A heading `<h1>"title" by artist</h1>` at i reads back as title and
      artist when neither has a line break, `" by ` first starts after the
      title and `</h1>` first starts after the artist. */
  lemma TitleHeadingReadsBack(h: string, i: nat, title: string, artist: string)
    requires NoNewline(title) && ClosesOnlyAtEnd(title, "\" by ")
    requires NoNewline(artist) && ClosesOnlyAtEnd(artist, "</h1>")
    requires StartsAt(h, i, "<h1>\"") && StartsAt(h, i + 5, title + "\" by ")
    requires StartsAt(h, i + 10 + |title|, artist + "</h1>")
    ensures MatchAt(h, i, HeadingPattern) == Some([title, artist])
  {
    var m, c := "\" by ", "</h1>";
    StartsAtSplit(h, i + 10 + |title|, artist, c);
    assert MatchAt(h, i + 10 + |title| + |artist|, [c]) == Some([]);
    GroupExactBefore(h, i + 10 + |title|, artist, [c], []);
    assert [artist] + [] == [artist];
    assert [m, c][1..] == [c];
    StartsAtSplit(h, i + 5, title, m);
    assert MatchAt(h, i + 5 + |title|, [m, c]) == Some([artist]);
    GroupExactBefore(h, i + 5, title, [m, c], [artist]);
    assert HeadingPattern[0] == "<h1>\"" && HeadingPattern[1..] == [m, c];
    MatchAtOpens(h, i, HeadingPattern);
    assert [title] + [artist] == [title, artist];
  }

  /** The two headings of a detail page as the site lays them out. */
  function RenderedHeadings(lbl: string, title: string, artist: string): string
  {
    "<h2>" + lbl + " :</h2>" + "<h1>\"" + title + "\" by " + artist + "</h1>"
  }

  /** Where each piece of a rendered page sits. */
  lemma RenderedLayout(lbl: string, title: string, artist: string, rest: string)
    ensures var h := RenderedHeadings(lbl, title, artist) + rest;
      var n, t, a := |lbl|, |title|, |artist|;
      StartsAt(h, 0, "<h2>") && StartsAt(h, 4, lbl + " :</h2>") &&
      StartsAt(h, 11 + n, "<h1>\"") && StartsAt(h, 16 + n, title + "\" by ") &&
      StartsAt(h, 21 + n + t, artist + "</h1>") && h[..11 + n] == "<h2>" + lbl + " :</h2>"
  {
    var h := RenderedHeadings(lbl, title, artist) + rest;
    var n, t, a := |lbl|, |title|, |artist|;
    assert h[0..4] == "<h2>" && h[4..11 + n] == lbl + " :</h2>";
    assert h[11 + n..16 + n] == "<h1>\"" && h[16 + n..21 + n + t] == title + "\" by ";
    assert h[21 + n + t..26 + n + t + a] == artist + "</h1>";
  }

  /** No title heading starts inside a type heading whose label has no `<`. */
  lemma NoTitleHeadingInTypeHeading(h: string, lbl: string)
    requires '<' !in lbl && |h| >= 11 + |lbl| && h[..11 + |lbl|] == "<h2>" + lbl + " :</h2>"
    ensures forall j :: 0 <= j < 11 + |lbl| ==> !StartsAt(h, j, "<h1>\"")
  {
    var x := "<h2>" + lbl + " :</h2>";
    var n := |lbl|;
    forall j | 0 <= j < 11 + n ensures !StartsAt(h, j, "<h1>\"") {
      assert h[j] == x[j];
      if j == 0 {
        assert h[2] == x[2] == '2';
        MismatchNotStartsAt(h, j, "<h1>\"", 2);
      } else if j == 6 + n {
        assert h[j + 1] == x[j + 1] == '/';
        MismatchNotStartsAt(h, j, "<h1>\"", 1);
      } else {
        if 4 <= j < 4 + n {
          assert x[j] == lbl[j - 4];
        }
        assert x[j] != '<';
        MismatchNotStartsAt(h, j, "<h1>\"", 0);
      }
    }
  }

  /** The type label of a rendered page is its label. */
  lemma RenderedTypeLabel(lbl: string, title: string, artist: string, rest: string)
    requires NoNewline(lbl) && ClosesOnlyAtEnd(lbl, " :</h2>")
    ensures TypeLabel(RenderedHeadings(lbl, title, artist) + rest) == lbl
  {
    var h := RenderedHeadings(lbl, title, artist) + rest;
    RenderedLayout(lbl, title, artist, rest);
    TypeHeadingReadsBack(h, 0, lbl);
    FirstMatchAt(h, TypePattern, 0, [lbl]);
  }

  /** The title and artist of a rendered page are its title and artist. */
  lemma RenderedHeadingFields(lbl: string, title: string, artist: string, rest: string)
    requires '<' !in lbl
    requires NoNewline(title) && ClosesOnlyAtEnd(title, "\" by ")
    requires NoNewline(artist) && ClosesOnlyAtEnd(artist, "</h1>")
    ensures var h := RenderedHeadings(lbl, title, artist) + rest;
      HeadingTitle(h) == title && HeadingArtist(h) == artist
  {
    var h := RenderedHeadings(lbl, title, artist) + rest;
    var n := |lbl|;
    RenderedLayout(lbl, title, artist, rest);
    NoTitleHeadingInTypeHeading(h, lbl);
    assert HeadingPattern[0] == "<h1>\"";
    assert forall j :: 0 <= j < 11 + n ==> MatchAt(h, j, HeadingPattern).None?;
    TitleHeadingReadsBack(h, 11 + n, title, artist);
    FirstMatchAt(h, HeadingPattern, 11 + n, [title, artist]);
  }

  /** Parsing a page laid out as the site does gives back its label's type,
      its title, its artist and its contents: the round trip of the detail
      page's layout. */
  lemma ParseRenderedPage(lbl: string, title: string, artist: string, rest: string, stars: nat, contents: string)
    requires '<' !in lbl && NoNewline(lbl) && ClosesOnlyAtEnd(lbl, " :</h2>")
    requires NoNewline(title) && ClosesOnlyAtEnd(title, "\" by ")
    requires NoNewline(artist) && ClosesOnlyAtEnd(artist, "</h1>")
    ensures var page := DetailPage(RenderedHeadings(lbl, title, artist) + rest, stars, Some(contents));
      Parse(page) ==
        if GetTypeFromString(lbl).None? then None
        else Some(AttributedTablature(artist, title, GetTypeFromString(lbl), Some(contents)))
  {
    RenderedTypeLabel(lbl, title, artist, rest);
    RenderedHeadingFields(lbl, title, artist, rest);
  }

  /** A worked page: a Bass tab "Song" by "Artist". */
  lemma ParseExamplePage(rest: string, stars: nat)
    ensures Parse(DetailPage(RenderedHeadings("Bass", "Song", "Artist") + rest, stars, Some("x-x-x"))) ==
      Some(AttributedTablature("Artist", "Song", Some(Bass), Some("x-x-x")))
  {
    assert forall k :: 0 <= k < 4 ==> "Bass"[k] != ' ' && "Bass"[k] != '<' && "Bass"[k] != '\n';
    assert NoNewline("Song") && NoNewline("Artist") && NoNewline("Bass");
    assert forall k :: 0 <= k < 4 ==> "Song"[k] != '"';
    assert forall k :: 0 <= k < 6 ==> "Artist"[k] != '<';
    FirstCharAbsentCloses("Bass", " :</h2>");
    FirstCharAbsentCloses("Song", "\" by ");
    FirstCharAbsentCloses("Artist", "</h1>");
    assert OccursAt("Bass", "bass", 0);
    ParseRenderedPage("Bass", "Song", "Artist", rest, stars, "x-x-x");
  }

  /** A label of two words, as the site writes "Guitar Tabs", closes only at
      its end: its space is not followed by ":". */
  lemma GuitarTabsLabelCloses()
    ensures ClosesOnlyAtEnd("Guitar Tabs", " :</h2>")
  {
    var w := "Guitar Tabs" + " :</h2>";
    var c := " :</h2>";
    forall p | 0 <= p < 11 ensures !StartsAt(w, p, c) {
      if p == 6 {
        assert w[7] == 'T';
        MismatchNotStartsAt(w, p, c, 1);
      } else {
        assert w[p] != ' ';
        MismatchNotStartsAt(w, p, c, 0);
      }
    }
  }

  /** A Guitar Tabs page "Smells Like Teen Spirit" by "Nirvana" parses with
      its two-word label and its title with spaces. */
  lemma ParseGuitarTabsPage(rest: string, stars: nat, contents: string)
    ensures Parse(DetailPage(RenderedHeadings("Guitar Tabs", "Smells Like Teen Spirit", "Nirvana") + rest, stars, Some(contents))) ==
      Some(AttributedTablature("Nirvana", "Smells Like Teen Spirit", Some(Guitar), Some(contents)))
  {
    var lbl, title, artist := "Guitar Tabs", "Smells Like Teen Spirit", "Nirvana";
    assert forall k :: 0 <= k < |lbl| ==> lbl[k] != '<' && lbl[k] != '\n';
    assert forall k :: 0 <= k < |title| ==> title[k] != '"' && title[k] != '\n';
    assert forall k :: 0 <= k < |artist| ==> artist[k] != '<' && artist[k] != '\n';
    GuitarTabsLabelCloses();
    FirstCharAbsentCloses(title, "\" by ");
    FirstCharAbsentCloses(artist, "</h1>");
    GuitarTabsLabel();
    ParseRenderedPage(lbl, title, artist, rest, stars, contents);
  }
}
