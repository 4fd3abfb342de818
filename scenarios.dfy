/**
 * Short runs of the `App` handlers, stated as what a user of the page observes. Each one starts
 * from a freshly mounted component and relies only on the handlers' contracts.
 */
module Scenarios {
  import opened Optional
  import opened Text
  import opened Tmdb
  import opened Compose
  import opened Feed
  import opened Workflow

  /** A burst of edits leaves one timer pending, and only the last text reaches the movie search. */
  method DebounceCollapsesBurst(first: string, second: string, last: string, response: Response)
    returns (sent: seq<string>, shown: seq<Movie>)
    requires last != ""
    ensures sent == [last]
    ensures shown == Search(last, response)
  {
    var app := new App(Listed(None));
    app.EditMovieSearch(first);
    app.EditMovieSearch(second);
    app.EditMovieSearch(last);
    assert app.pendingLookup == Some(Timer(last, None));
    app.FireLookup(response);
    sent, shown := app.lookupsSent, app.movieResults;
  }

  /** Once a candidate is selected, the timer that follows sends nothing and the candidate list stays empty. */
  method SelectionSuppressesLookup(query: string, raw: RawMovie, response: Response)
    returns (sent: seq<string>, shown: seq<Movie>, field: string)
    requires !Blank(query)
    ensures sent == [query] && shown == [] && field == raw.title
  {
    var app := new App(Listed(None));
    PickCandidate(app, query, raw);
    app.FireLookup(response);
    sent, shown, field := app.lookupsSent, app.movieResults, app.draft.movieSearch;
  }

  /** Type `query` in the movie field, let the timer fire with `raw` as the only result, and select it. */
  method PickCandidate(app: App, query: string, raw: RawMovie)
    requires app.Valid() && app.draft.movieSearch == "" && app.draft.selectedMovie.None? && !Blank(query)
    modifies app
    ensures app.Valid() && app.movieResults == []
    ensures app.pendingLookup == Some(Timer(raw.title, Some(ToMovie(raw))))
    ensures app.draft == old(app.draft).(movieSearch := raw.title, selectedMovie := Some(ToMovie(raw)))
    ensures app.lookupsSent == old(app.lookupsSent) + [query] && app.insertsSent == old(app.insertsSent)
  {
    app.EditMovieSearch(query);
    app.FireLookup(Received([raw]));
    assert app.movieResults[0] == ToMovie(raw);
    app.SelectMovie(ToMovie(raw));
  }

  /** Editing the movie text keeps the old candidates until the next timer fires. */
  method CandidatesOutliveEdit(text: string, edited: string, response: Response) returns (shown: seq<Movie>)
    requires text != ""
    ensures shown == Search(text, response)
  {
    var app := new App(Listed(None));
    app.EditMovieSearch(text);
    app.FireLookup(response);
    app.EditMovieSearch(edited);
    shown := app.movieResults;
  }

  /** A text of only spaces passes the timer's check and reaches the search, which answers with nothing. */
  method BlankTextReachesSearch(text: string, response: Response) returns (sent: seq<string>, shown: seq<Movie>)
    requires text != "" && Blank(text)
    ensures sent == [text] && shown == []
  {
    var app := new App(Listed(None));
    app.EditMovieSearch(text);
    app.FireLookup(response);
    sent, shown := app.lookupsSent, app.movieResults;
  }

  /** A draft with a blank message is refused before anything is sent, and the draft is kept. */
  method BlankMessageSendsNothing(msg: string, to: string, query: string, raw: RawMovie, insert: InsertOutcome, feed: ListOutcome)
    returns (result: SubmitResult, sent: seq<NewRecord>, kept: Draft)
    requires Blank(msg)
    requires !Blank(query)
    ensures result == Rejected(MissingField) && sent == []
    ensures kept == Draft(msg, to, raw.title, Some(ToMovie(raw)))
  {
    var app := FillForm(msg, to, query, raw);
    result := app.SubmitConfession(insert, feed);
    sent, kept := app.insertsSent, app.draft;
  }

  /**
   * A mounted component with this message and recipient typed, `query` looked up in the movie field
   * and `raw`, the catalogue's only answer, selected.
   */
  method FillForm(msg: string, to: string, query: string, raw: RawMovie) returns (app: App)
    requires !Blank(query)
    ensures fresh(app) && app.Valid() && app.insertsSent == [] && app.lookupsSent == [query]
    ensures app.draft == Draft(msg, to, raw.title, Some(ToMovie(raw)))
  {
    app := new App(Listed(None));
    app.SetActiveTab(Create);
    app.EditMessage(msg);
    app.EditRecipient(to);
    PickCandidate(app, query, raw);
  }

  /**
   * A valid draft is sent as one record, then the form is cleared and the feed shown; with the
   * draft of JordanExample, the record sent is the one that lemma computes.
   */
  method ValidDraftIsShared(msg: string, to: string, query: string, raw: RawMovie, feed: ListOutcome)
    returns (result: SubmitResult, sent: seq<NewRecord>, after: Draft, tab: Tab)
    requires Validate(Draft(msg, to, raw.title, Some(ToMovie(raw)))) == None
    requires !Blank(query)
    ensures result == Shared && after == EmptyDraft && tab == Browse
    ensures sent == [BuildRecord(Draft(msg, to, raw.title, Some(ToMovie(raw))))]
  {
    var app := FillForm(msg, to, query, raw);
    result := app.SubmitConfession(Inserted, feed);
    sent, after, tab := app.insertsSent, app.draft, app.activeTab;
  }

  /** When the store refuses the insert, the record was sent once and the draft survives unchanged. */
  method FailedInsertKeepsDraft(msg: string, to: string, query: string, raw: RawMovie, feed: ListOutcome)
    returns (result: SubmitResult, sent: seq<NewRecord>, kept: Draft)
    requires Validate(Draft(msg, to, raw.title, Some(ToMovie(raw)))) == None
    requires !Blank(query)
    ensures result == Failed && sent == [BuildRecord(Draft(msg, to, raw.title, Some(ToMovie(raw))))]
    ensures kept == Draft(msg, to, raw.title, Some(ToMovie(raw)))
  {
    var app := FillForm(msg, to, query, raw);
    result := app.SubmitConfession(InsertFailed, feed);
    sent, kept := app.insertsSent, app.draft;
  }

  /** A message one character over the limit is refused before anything is sent. */
  method OverlongMessageSendsNothing(msg: string, to: string, query: string, raw: RawMovie, feed: ListOutcome)
    returns (result: SubmitResult, sent: seq<NewRecord>)
    requires !Blank(msg) && !Blank(to) && |msg| == MaxMessageLength + 1
    requires !Blank(query)
    ensures result == Rejected(MessageTooLong) && sent == []
  {
    var app := FillForm(msg, to, query, raw);
    result := app.SubmitConfession(Inserted, feed);
    sent := app.insertsSent;
  }

  /** Switching from a name search to the movie mode clears the text and fetches the unfiltered feed. */
  method ModeSwitchUnfilters(q: string, feed: ListOutcome) returns (text: string, last: FeedQuery)
    requires q != ""
    ensures text == "" && last.filter == None && last.limit == FeedLimit
  {
    var app := new App(Listed(None));
    app.EditSearchQuery(q, Listed(None));
    app.SwitchMode(ByMovie, feed);
    text, last := app.searchQuery, app.feedQueries[|app.feedQueries| - 1];
  }

  /** A store error after a successful fetch empties the list and ends the loading state. */
  method FeedErrorEmptiesList(rows: seq<ConfessionRow>, q: string) returns (shown: seq<ConfessionRow>, loading: bool)
    requires q != ""
    ensures shown == [] && !loading
  {
    var app := new App(Listed(Some(rows)));
    app.EditSearchQuery(q, StoreError);
    shown, loading := app.confessions, app.isLoading;
  }
}
