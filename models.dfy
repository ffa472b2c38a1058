/** The news item record shared by every component. */
module Models {
  import opened Wrappers

  /**
   * A news item. `body` is optional and defaults to the empty string;
   * `relevanceScore` is absent until the scorer stamps it; `publishedAt`
   * is the publication instant in seconds since the Unix epoch (UTC).
   */
  datatype NewsItem = NewsItem(
    id: string,
    source: string,
    title: string,
    body: Option<string> := Some(""),
    publishedAt: int,
    relevanceScore: Option<real> := None)

  /** `item.body or ''`: an absent body reads as the empty string. */
  function BodyText(item: NewsItem): string {
    item.body.GetOr("")
  }

  /** No two positions of `s` hold items with the same id. */
  predicate DistinctIds(s: seq<NewsItem>) {
    forall i, j :: 0 <= i < j < |s| ==> s[i].id != s[j].id
  }
}
