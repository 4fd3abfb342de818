/**
 * Movie search normalisation of src/lib/tmdb.js. The HTTP request, the API key and the JSON
 * parser are replaced by the `Response` the catalogue would give for the query.
 */
module Tmdb {
  import opened Optional
  import opened Text

  /** At most this many candidates are passed on (`slice(0, 10)`). */
  const MaxResults: nat := 10

  /** One entry of the catalogue's `results` array, with the catalogue's own field names. */
  datatype RawMovie = RawMovie(id: int, title: string, poster_path: Option<string>, release_date: Option<string>)

  /** A candidate as the rest of the application sees it. */
  datatype Movie = Movie(id: int, title: string, posterPath: Option<string>, releaseDate: Option<string>)

  /**
   * What the request yields: a transport error, a response that is not ok, a body that cannot be
   * read as JSON or has no `results` array, or the parsed results.
   */
  datatype Response = TransportError | NotOk | Unreadable | Received(results: seq<RawMovie>)

  /** The field renaming applied to each raw result. */
  function ToMovie(raw: RawMovie): (m: Movie)
    ensures m.id == raw.id && m.title == raw.title
    ensures m.posterPath == raw.poster_path && m.releaseDate == raw.release_date
  {
    Movie(raw.id, raw.title, raw.poster_path, raw.release_date)
  }

  /** `raws.map(...)`: the renamed results, position by position. */
  function ToMovies(raws: seq<RawMovie>): (r: seq<Movie>)
    ensures |r| == |raws|
    ensures forall i :: 0 <= i < |raws| ==> r[i] == ToMovie(raws[i])
  {
    if raws == [] then [] else [ToMovie(raws[0])] + ToMovies(raws[1..])
  }

  /**
   * `searchMovies(query)`, given what the catalogue would answer. The guard `!query.trim()` is
   * written as `Blank(query)`, which holds exactly when the trimmed query is empty (`TrimmedGuard`).
   */
  function Search(query: string, response: Response): (r: seq<Movie>)
    ensures Blank(query) ==> r == []
    ensures !response.Received? ==> r == []
    ensures |r| <= MaxResults
    ensures !Blank(query) && response.Received? ==>
              |r| == (if |response.results| < MaxResults then |response.results| else MaxResults)
    ensures response.Received? ==> forall i :: 0 <= i < |r| ==> r[i] == ToMovie(response.results[i])
  {
    if Blank(query) then []
    else match response
      case Received(raws) =>
        ToMovies(if |raws| < MaxResults then raws else raws[..MaxResults])
      case _ => []
  }

  /** The function takes the branches of the code: `[]` for an empty trimmed query, else the first ten results renamed. */
  lemma TrimmedGuard(query: string, response: Response)
    ensures Trim(query) == [] ==> Search(query, response) == []
    ensures Trim(query) != [] && response.Received? ==>
              Search(query, response) ==
              ToMovies(if |response.results| < MaxResults then response.results else response.results[..MaxResults])
    ensures Trim(query) != [] && !response.Received? ==> Search(query, response) == []
  {
  }

  /** A blank query never reaches the catalogue: the answer it would have given makes no difference. */
  lemma BlankQueryIgnoresResponse(query: string, a: Response, b: Response)
    requires Blank(query)
    ensures Search(query, a) == Search(query, b) == []
  {
  }

  /** With at most ten raw results, every one of them is passed on, in order. */
  lemma FewResultsAllKept(query: string, raws: seq<RawMovie>)
    requires !Blank(query) && |raws| <= MaxResults
    ensures Search(query, Received(raws)) == ToMovies(raws)
    ensures forall raw :: raw in raws ==> ToMovie(raw) in Search(query, Received(raws))
  {
    assert raws[..|raws|] == raws;
    ToMoviesKeepsAll(raws);
  }

  lemma ToMoviesKeepsAll(raws: seq<RawMovie>)
    ensures forall raw :: raw in raws ==> ToMovie(raw) in ToMovies(raws)
  {
    var r := ToMovies(raws);
    forall raw | raw in raws ensures ToMovie(raw) in r {
      var k :| 0 <= k < |raws| && raws[k] == raw;
      assert r[k] == ToMovie(raw);
    }
  }

  /** Results after the tenth have no influence on what is passed on. */
  lemma TailIsIrrelevant(query: string, raws: seq<RawMovie>, more: seq<RawMovie>)
    requires |raws| >= MaxResults
    ensures Search(query, Received(raws + more)) == Search(query, Received(raws))
  {
    var a := Search(query, Received(raws + more));
    var b := Search(query, Received(raws));
    if !Blank(query) {
      assert |a| == |b|;
      assert forall i :: 0 <= i < |a| ==> (raws + more)[i] == raws[i] && a[i] == ToMovie(raws[i]) == b[i];
    }
  }
}
