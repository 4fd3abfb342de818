/**
 * The state of the `App` component of src/App.jsx and the handlers that overwrite it. Each
 * handler runs to completion: an awaited call to the store or to the movie search is answered
 * by the outcome passed in. The debounce timer is the single slot `pendingLookup`; arming it
 * replaces whatever was pending (the effect's `clearTimeout` clean-up).
 */
module Workflow {
  import opened Optional
  import opened Tmdb
  import opened Compose
  import opened Feed

  /** The "Browse Confessions" and "Share Yours" tabs. */
  datatype Tab = Browse | Create

  /** What `await supabase...insert(...).select().single()` yields: the row, or an error or exception. */
  datatype InsertOutcome = Inserted | InsertFailed

  /** Which alert `handleSubmitConfession` ends with. */
  datatype SubmitResult = Rejected(reason: Rejection) | Failed | Shared

  /** An armed debounce timer, with the effect dependencies its callback closed over. */
  datatype Timer = Timer(movieSearch: string, selectedMovie: Option<Movie>)

  /** `after` is `before` with one more query, the one for `mode` and `q`. */
  predicate SentOneQuery(before: seq<FeedQuery>, after: seq<FeedQuery>, mode: SearchMode, q: string) {
    |after| == |before| + 1 && after[..|before|] == before && IsFeedQuery(after[|before|], mode, q)
  }

  /** The list shown after the store answered: its rows, or nothing on a missing body, an error or an exception. */
  predicate ShowsOutcome(rows: seq<ConfessionRow>, outcome: ListOutcome) {
    rows == if outcome.Listed? && outcome.data.Some? then outcome.data.value else []
  }

  class App {
    var activeTab: Tab
    var searchMode: SearchMode
    var searchQuery: string
    var confessions: seq<ConfessionRow>
    var isLoading: bool
    var draft: Draft
    var movieResults: seq<Movie>
    var isSearchingMovies: bool
    var isSubmitting: bool
    /** The one debounce timer that may be pending. */
    var pendingLookup: Option<Timer>
    /** Every query handed to the movie search, oldest first. */
    var lookupsSent: seq<string>
    /** Every list query sent to the store, oldest first. */
    var feedQueries: seq<FeedQuery>
    /** Every record sent to the store for insertion, oldest first. */
    var insertsSent: seq<NewRecord>

    /**
     * A pending timer always carries the current dependencies (every change of them re-arms
     * it), a confirmed selection is shown in the movie field with no candidate list, and between
     * two events no call is outstanding.
     */
    ghost predicate Valid()
      reads this
    {
      && !isLoading && !isSearchingMovies && !isSubmitting
      && (pendingLookup.Some? ==> pendingLookup.value == Timer(draft.movieSearch, draft.selectedMovie))
      && (draft.selectedMovie.Some? ==> movieResults == [] && draft.movieSearch == draft.selectedMovie.value.title)
    }

    /** Mounting: the initial state, then the fetch effect and the debounce effect run once. */
    constructor (initialFeed: ListOutcome)
      ensures Valid()
      ensures activeTab == Browse && searchMode == ByRecipient && searchQuery == ""
      ensures draft == EmptyDraft && movieResults == []
      ensures pendingLookup == Some(Timer("", None))
      ensures lookupsSent == [] && insertsSent == [] && SentOneQuery([], feedQueries, ByRecipient, "")
      ensures ShowsOutcome(confessions, initialFeed)
    {
      activeTab := Browse;
      searchMode := ByRecipient;
      searchQuery := "";
      confessions := [];
      isLoading := true;
      draft := EmptyDraft;
      movieResults := [];
      isSearchingMovies := false;
      isSubmitting := false;
      lookupsSent := [];
      feedQueries := [];
      insertsSent := [];
      new;
      FetchConfessions(initialFeed);
      pendingLookup := Some(Timer(draft.movieSearch, draft.selectedMovie));
    }

    /** `fetchConfessions`: send the query for the current mode and text; any failure empties the list. */
    method FetchConfessions(outcome: ListOutcome)
      modifies this`isLoading, this`confessions, this`feedQueries
      ensures !isLoading
      ensures SentOneQuery(old(feedQueries), feedQueries, searchMode, searchQuery)
      ensures outcome.Listed? && outcome.data.Some? ==> confessions == outcome.data.value
      ensures outcome.Listed? && outcome.data.None? ==> confessions == []
      ensures !outcome.Listed? ==> confessions == []
    {
      isLoading := true;
      var query := BuildFeedQuery(searchMode, searchQuery);
      feedQueries := feedQueries + [query];
      if outcome.StoreError? || outcome.Thrown? {
        confessions := [];
      } else {
        confessions := if outcome.data.Some? then outcome.data.value else [];
      }
      isLoading := false;
    }

    /** The two navigation buttons. */
    method SetActiveTab(tab: Tab)
      modifies this`activeTab
      ensures activeTab == tab
    {
      activeTab := tab;
    }

    /** Typing in the browse search box; the fetch effect runs when the text changed. */
    method EditSearchQuery(q: string, outcome: ListOutcome)
      requires Valid()
      modifies this`searchQuery, this`isLoading, this`confessions, this`feedQueries
      ensures Valid()
      ensures searchQuery == q
      ensures q == old(searchQuery) ==> feedQueries == old(feedQueries) && confessions == old(confessions)
      ensures q != old(searchQuery) ==>
                SentOneQuery(old(feedQueries), feedQueries, searchMode, q) && ShowsOutcome(confessions, outcome)
    {
      var before := searchQuery;
      searchQuery := q;
      if q != before {
        FetchConfessions(outcome);
      }
    }

    /** A mode button: set the mode and clear the search text; the fetch effect runs when either changed. */
    method SwitchMode(mode: SearchMode, outcome: ListOutcome)
      requires Valid()
      modifies this`searchMode, this`searchQuery, this`isLoading, this`confessions, this`feedQueries
      ensures Valid()
      ensures searchMode == mode && searchQuery == ""
      ensures mode == old(searchMode) && old(searchQuery) == "" ==>
                feedQueries == old(feedQueries) && confessions == old(confessions)
      ensures mode != old(searchMode) || old(searchQuery) != "" ==>
                SentOneQuery(old(feedQueries), feedQueries, mode, "") && ShowsOutcome(confessions, outcome)
    {
      var beforeMode, beforeQuery := searchMode, searchQuery;
      searchMode := mode;
      searchQuery := "";
      if mode != beforeMode || beforeQuery != "" {
        FetchConfessions(outcome);
      }
    }

    /**
     * The debounce effect: when its dependencies changed, cancel the pending timer and arm a new one.
     * React compares the dependencies with `Object.is`, the model by value. The two agree because one
     * side of the movie dependency is always `null` (the requires), and the text is a primitive.
     */
    method AfterDraftChange(before: Draft)
      requires before.selectedMovie.None? || draft.selectedMovie.None?
      modifies this`pendingLookup
      ensures (before.movieSearch, before.selectedMovie) != (draft.movieSearch, draft.selectedMovie) ==>
                pendingLookup == Some(Timer(draft.movieSearch, draft.selectedMovie))
      ensures (before.movieSearch, before.selectedMovie) == (draft.movieSearch, draft.selectedMovie) ==>
                pendingLookup == old(pendingLookup)
    {
      if (before.movieSearch, before.selectedMovie) != (draft.movieSearch, draft.selectedMovie) {
        pendingLookup := Some(Timer(draft.movieSearch, draft.selectedMovie));
      }
    }

    /** Typing in the "To" field changes the recipient and nothing else. */
    method EditRecipient(text: string)
      requires Valid()
      modifies this`draft
      ensures Valid()
      ensures draft == old(draft).(recipient := text)
    {
      draft := draft.(recipient := text);
    }

    /** Typing in the message box changes the message and nothing else. */
    method EditMessage(text: string)
      requires Valid()
      modifies this`draft
      ensures Valid()
      ensures draft == old(draft).(message := text)
    {
      draft := draft.(message := text);
    }

    /**
     * Typing in the movie field: the text changes and any selection is dropped; the list of
     * candidates stays as it was until the timer fires.
     */
    method EditMovieSearch(text: string)
      requires Valid()
      modifies this`draft, this`pendingLookup
      ensures Valid()
      ensures draft == old(draft).(movieSearch := text, selectedMovie := None)
      ensures text != old(draft.movieSearch) || old(draft.selectedMovie).Some? ==>
                pendingLookup == Some(Timer(text, None))
      ensures text == old(draft.movieSearch) && old(draft.selectedMovie).None? ==>
                pendingLookup == old(pendingLookup)
    {
      var before := draft;
      draft := draft.(movieSearch := text, selectedMovie := None);
      AfterDraftChange(before);
    }

    /**
     * `selectMovie`: confirm a candidate, show its title in the field and close the candidate list.
     * Its only caller is a candidate's button, shown only while no movie is selected.
     */
    method SelectMovie(m: Movie)
      requires Valid() && draft.selectedMovie.None? && m in movieResults
      modifies this`draft, this`movieResults, this`pendingLookup
      ensures Valid()
      ensures draft == old(draft).(selectedMovie := Some(m), movieSearch := m.title)
      ensures movieResults == []
      ensures pendingLookup == Some(Timer(m.title, Some(m)))
    {
      var before := draft;
      draft := draft.(selectedMovie := Some(m), movieSearch := m.title);
      movieResults := [];
      AfterDraftChange(before);
    }

    /**
     * The pending timer fires: with a non-empty movie text and no selection, the text goes to the
     * movie search and its answer becomes the candidate list, unconditionally; otherwise the list
     * is emptied and nothing is sent.
     */
    method FireLookup(response: Response)
      requires Valid() && pendingLookup.Some?
      modifies this`pendingLookup, this`movieResults, this`isSearchingMovies, this`lookupsSent
      ensures Valid()
      ensures pendingLookup == None && !isSearchingMovies
      ensures draft.movieSearch != "" && draft.selectedMovie.None? ==>
                && lookupsSent == old(lookupsSent) + [draft.movieSearch]
                && movieResults == Search(draft.movieSearch, response)
      ensures draft.movieSearch == "" || draft.selectedMovie.Some? ==>
                lookupsSent == old(lookupsSent) && movieResults == []
    {
      var query, selected := draft.movieSearch, draft.selectedMovie;
      assert pendingLookup.value == Timer(query, selected);
      pendingLookup := None;
      if query != "" && selected.None? {
        RunLookup(query, response);
      } else {
        movieResults := [];
      }
    }

    /** The timer's callback with a query to look up: send it and show the answer as the candidates. */
    method RunLookup(query: string, response: Response)
      modifies this`movieResults, this`isSearchingMovies, this`lookupsSent
      ensures !isSearchingMovies && lookupsSent == old(lookupsSent) + [query]
      ensures movieResults == Search(query, response)
    {
      isSearchingMovies := true;
      lookupsSent := lookupsSent + [query];
      movieResults := Search(query, response);
      isSearchingMovies := false;
    }

    /**
     * `handleSubmitConfession`: a draft that fails validation changes nothing and sends nothing;
     * otherwise the record is sent once, and on success the draft is cleared, the browse tab is
     * shown and the feed is fetched again, while on failure the draft is kept.
     */
    method SubmitConfession(insert: InsertOutcome, feed: ListOutcome) returns (result: SubmitResult)
      requires Valid()
      modifies this`draft, this`pendingLookup, this`activeTab, this`isSubmitting, this`insertsSent
      modifies this`isLoading, this`confessions, this`feedQueries
      ensures Valid()
      ensures result.Rejected? <==> Validate(old(draft)).Some?
      ensures result.Rejected? ==> result.reason == Validate(old(draft)).value && unchanged(this)
      ensures !result.Rejected? ==>
                insertsSent == old(insertsSent) + [BuildRecord(old(draft))] && (result == Shared <==> insert == Inserted)
      ensures result == Failed ==>
                unchanged(this`draft, this`activeTab, this`pendingLookup, this`feedQueries, this`confessions)
      ensures result == Shared ==>
                && draft == EmptyDraft && activeTab == Browse && pendingLookup == Some(Timer("", None))
                && SentOneQuery(old(feedQueries), feedQueries, searchMode, searchQuery)
                && ShowsOutcome(confessions, feed)
    {
      var rejection := Validate(draft);
      if rejection.Some? {
        return Rejected(rejection.value);
      }
      result := Share(BuildRecord(draft), insert, feed);
    }

    /**
     * The part of `handleSubmitConfession` after validation: the record is inserted; on success
     * the form is reset, on failure everything but the list of inserts is kept.
     */
    method Share(record: NewRecord, insert: InsertOutcome, feed: ListOutcome) returns (result: SubmitResult)
      requires Valid() && draft.selectedMovie.Some?
      modifies this`draft, this`pendingLookup, this`activeTab, this`isSubmitting, this`insertsSent
      modifies this`isLoading, this`confessions, this`feedQueries
      ensures Valid()
      ensures !result.Rejected? && (result == Shared <==> insert == Inserted)
      ensures insertsSent == old(insertsSent) + [record]
      ensures result == Failed ==>
                unchanged(this`draft, this`activeTab, this`pendingLookup, this`feedQueries, this`confessions)
      ensures result == Shared ==>
                && draft == EmptyDraft && activeTab == Browse && pendingLookup == Some(Timer("", None))
                && SentOneQuery(old(feedQueries), feedQueries, searchMode, searchQuery)
                && ShowsOutcome(confessions, feed)
    {
      SendRecord(record);
      if insert == Inserted {
        ClearAfterShare(feed);
        result := Shared;
      } else {
        EndSubmission();
        result := Failed;
      }
    }

    /** The submission starts: `isSubmitting` is raised and the record goes to the store's `insert`. */
    method SendRecord(record: NewRecord)
      modifies this`isSubmitting, this`insertsSent
      ensures isSubmitting && insertsSent == old(insertsSent) + [record]
    {
      isSubmitting := true;
      insertsSent := insertsSent + [record];
    }

    /** The `finally` of `handleSubmitConfession`: the submission ends. */
    method EndSubmission()
      modifies this`isSubmitting
      ensures !isSubmitting
    {
      isSubmitting := false;
    }

    /**
     * The success branch of `handleSubmitConfession`: clear the draft, show the feed, fetch it
     * again, and (its `finally`) end the submission.
     */
    method ClearAfterShare(feed: ListOutcome)
      requires draft.selectedMovie.Some? && !isSearchingMovies
      modifies this`draft, this`pendingLookup, this`activeTab, this`isLoading, this`confessions, this`feedQueries
      modifies this`isSubmitting
      ensures Valid()
      ensures draft == EmptyDraft && activeTab == Browse && pendingLookup == Some(Timer("", None))
      ensures SentOneQuery(old(feedQueries), feedQueries, searchMode, searchQuery)
      ensures ShowsOutcome(confessions, feed)
    {
      var before := draft;
      draft := EmptyDraft;
      AfterDraftChange(before);
      activeTab := Browse;
      FetchConfessions(feed);
      EndSubmission();
    }
  }
}
