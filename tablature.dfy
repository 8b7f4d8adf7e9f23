/**
 * The host application's data the adapter produces. Nullable references of
 * the C# code are Option values.
 */
module Tablature {
  import opened Wrappers

  /** The tablature types of the host. The host knows more types than the
      three this site offers; OtherType stands for any of those. */
  datatype TablatureType = Guitar | Chords | Bass | OtherType(name: string)

  /** A rating. FromInt(n) is what the host's TablatureRatingUtilities.FromInt
      returns for n stars; that conversion belongs to the host and is kept
      symbolic here. */
  datatype TablatureRating = Unrated | FromInt(stars: nat)

  /** An attributed tablature: contents is None on a search-result stub,
      which carries no body text. */
  datatype AttributedTablature = AttributedTablature(
    artist: string, title: string, tabType: Option<TablatureType>, contents: Option<string>)

  /** A search query; artist and title may be null or empty, tabType may be null. */
  datatype SearchQuery = SearchQuery(artist: Option<string>, title: Option<string>, tabType: Option<TablatureType>)

  /** An entry of a search: the query it answers, the stub found, the
      detail-page URL and the rating, None when none was supplied. */
  datatype SearchResult = SearchResult(
    query: SearchQuery, tab: AttributedTablature, url: string, rating: Option<TablatureRating>)
}
