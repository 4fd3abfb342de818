/**
 * The browse feed of src/App.jsx: the list query `fetchConfessions` sends to the store for the
 * current search mode and search text, and what the store can answer. The store runs the query;
 * the model keeps the query as a value.
 */
module Feed {
  import opened Optional
  import opened Text

  /** The two "Search by Name" / "Search by Movie" buttons. */
  datatype SearchMode = ByRecipient | ByMovie

  /** `order(column, { ascending })`. */
  datatype Order = Order(column: string, ascending: bool)

  /** `ilike(column, pattern)`: a case-insensitive SQL LIKE on one column, evaluated by the store. */
  datatype Filter = Ilike(column: string, pattern: string)

  /** `from(table).select(columns).order(...).limit(...)`, with at most one `ilike` added. */
  datatype FeedQuery = FeedQuery(table: string, columns: string, order: Order, limit: nat, filter: Option<Filter>)

  /** The feed shows at most this many confessions. */
  const FeedLimit: nat := 50

  /** A stored confession as the store returns it; the model only passes rows along. */
  datatype ConfessionRow = ConfessionRow(
    id: int,
    message: string,
    recipient: string,
    recipient_lower: string,
    movie_id: int,
    movie_title: string,
    movie_poster_path: Option<string>,
    created_at: string)

  /** What awaiting the query yields: `{ data, error }` with no error, with an error, or a thrown exception. */
  datatype ListOutcome = Listed(data: Option<seq<ConfessionRow>>) | StoreError | Thrown

  /**
   * The LIKE pattern `%${s}%`: `s` between two `%` wildcards. `%` and `_` inside `s` are not
   * escaped, so they act as wildcards too.
   */
  function Surrounded(s: string): (p: string)
    ensures |p| == |s| + 2 && p[0] == '%' && p[|p| - 1] == '%'
    ensures p[1..|p| - 1] == s
  {
    "%" + s + "%"
  }

  /**
   * The query for a mode and a search text: always every column of `confessions`, newest first,
   * at most 50 rows; no filter for an empty text; otherwise a substring match of the lower-cased
   * text on `recipient_lower`, or of the text as typed on `movie_title`.
   */
  predicate IsFeedQuery(query: FeedQuery, mode: SearchMode, q: string) {
    && query.table == "confessions" && query.columns == "*"
    && query.order == Order("created_at", false) && query.limit == FeedLimit
    && (q == "" ==> query.filter == None)
    && (q != "" && mode == ByRecipient ==> query.filter == Some(Ilike("recipient_lower", Surrounded(Lower(q)))))
    && (q != "" && mode == ByMovie ==> query.filter == Some(Ilike("movie_title", Surrounded(q))))
  }

  /** The body of `fetchConfessions` up to the await: the base query, then the filter for a non-empty text. */
  method BuildFeedQuery(mode: SearchMode, q: string) returns (query: FeedQuery)
    ensures IsFeedQuery(query, mode, q)
  {
    query := FeedQuery("confessions", "*", Order("created_at", false), FeedLimit, None);
    if q != "" {
      match mode
      case ByRecipient =>
        query := query.(filter := Some(Ilike("recipient_lower", Surrounded(Lower(q)))));
      case ByMovie =>
        query := query.(filter := Some(Ilike("movie_title", Surrounded(q))));
    }
  }

  /** Mode and text determine the query completely. */
  lemma FeedQueryDetermined(a: FeedQuery, b: FeedQuery, mode: SearchMode, q: string)
    requires IsFeedQuery(a, mode, q) && IsFeedQuery(b, mode, q)
    ensures a == b
  {
  }

  /** Searching by name does not depend on the case of the text: "Sam" and "sAM" send the same query. */
  lemma RecipientSearchIgnoresCase(query: FeedQuery, q1: string, q2: string)
    requires q1 != "" && q2 != "" && Lower(q1) == Lower(q2)
    requires IsFeedQuery(query, ByRecipient, q1)
    ensures IsFeedQuery(query, ByRecipient, q2)
  {
  }

  /** Searching by movie keeps the text as typed and matches on the stored title, not on a movie id. */
  lemma MovieSearchMatchesTitle(query: FeedQuery, q: string)
    requires q != "" && IsFeedQuery(query, ByMovie, q)
    ensures query.filter.Some? && query.filter.value.column == "movie_title"
    ensures query.filter.value.pattern[1..|q| + 1] == q
  {
  }

  /** The name search of the example: "Sam" becomes the pattern "%sam%" on `recipient_lower`. */
  lemma SamExample(query: FeedQuery, q: string)
    requires q == "Sam" && IsFeedQuery(query, ByRecipient, q)
    ensures query.filter == Some(Ilike("recipient_lower", "%sam%"))
  {
    assert Lower(q) == "sam" by {
      assert Lower(q)[0] == 's';
    }
    assert Surrounded("sam") == "%sam%";
  }
}
