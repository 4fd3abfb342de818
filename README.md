# FilmFess: a verified model of the confession form, the browse feed and the movie search

FilmFess is a single-page board of anonymous confessions. Each confession pairs a message for
a named recipient with a movie found through the TMDB catalogue. This project models the page's
decision logic in Dafny and proves what it promises:

- the "Share Yours" draft (`message`, `recipient`, `movieSearch`, `selectedMovie`) and its
  handlers: field edits, `selectMovie`, the debounced movie lookup and `handleSubmitConfession`,
  with its validation order, the record it inserts and the reset-or-keep outcome;
- the browse feed's query builder in `fetchConfessions`: the order, the limit, an optional
  `ilike` filter, and the fallback to an empty list on every failure;
- the mode buttons, which reset the search text, and the release-year label of a candidate;
- `searchMovies` of the TMDB client: the blank-query short cut, the first ten results renamed,
  and every failure turned into an empty list.

Layout, one module per file:

- `optional.dfy` (`Optional`): the Option datatype standing for `null`.
- `text.dfy` (`Text`): JavaScript `trim`, ASCII `toLowerCase` and `split(sep)[0]`.
- `tmdb.dfy` (`Tmdb`): raw results, candidates, the response oracle and `Search`.
- `compose.dfy` (`Compose`): the draft, `Validate` and the inserted record.
- `feed.dfy` (`Feed`): the list query as a value, the LIKE pattern and the store's answers.
- `display.dfy` (`Display`): the year label.
- `workflow.dfy` (`Workflow`): the class `App` holding the component's state slots, one method per handler.
- `scenarios.dfy` (`Scenarios`): short runs of the handlers from a freshly mounted component.

External parts become inputs:

- The record store (Supabase) is an outcome passed to each handler that awaits it: `ListOutcome`
  for a list, `InsertOutcome` for an insert.
- The catalogue request is a `Response`: a transport error, a non-ok status, an unreadable body,
  or the parsed results.
- The debounce timer is one slot, `App.pendingLookup`. It holds the effect dependencies its
  callback closed over. Arming it replaces what was pending, as the effect's `clearTimeout`
  clean-up does.
- What the page sends out is recorded in `lookupsSent`, `feedQueries` and `insertsSent`. This
  lets contracts say that nothing was sent, or exactly what was sent.

Each handler runs to completion in one step, its awaited call answered by the outcome given.
Between two steps no call is outstanding, so `isLoading`, `isSearchingMovies` and `isSubmitting`
are false (part of `App.Valid`).

Behaviour of the code worth naming:

- A lookup's answer is applied unconditionally (src/App.jsx:67-68). No answer is dropped for an
  outdated query.
- Searching by movie is a substring `ilike` on `movie_title` with the fixed limit of 50
  (src/App.jsx:36, 42). It is not a match on the movie id.
- Editing the movie field does not clear the candidate list. The old candidates stay until the
  next timer fires (src/App.jsx:347-349; `Scenarios.CandidatesOutliveEdit`).
- Switching mode does not empty `confessions`. It clears the search text, and the refetch
  replaces the list (src/App.jsx:179-182, 192-195).
- The length guard counts the untrimmed message (src/App.jsx:95), while the record stores the
  trimmed one.

## Model

| member | source | states |
|---|---|---|
| `Text.TrimStart` | src/App.jsx:106-107 | the result is a suffix of the input, the removed prefix is all whitespace, and the result does not start with whitespace |
| `Text.TrimEnd` | src/App.jsx:106-107 | the result is a prefix of the input, the removed suffix is all whitespace, and the result does not end with whitespace |
| `Text.Trim` | src/App.jsx:90 | the trimmed string is no longer than the input, is empty exactly when the input is all whitespace, and has no whitespace at either end |
| `Text.TrimPadded` | src/App.jsx:107 | trimming blank padding off a string that has non-blank ends gives back that string |
| `Text.TrimIsMiddle` | src/App.jsx:90 | the trimmed string is a contiguous middle part of the input, with only whitespace before and after it |
| `Text.Lower` | src/App.jsx:108 | lowering keeps the length, lowers each character at its position, and leaves no upper-case ASCII letter |
| `Text.LowerIgnoresCase` | src/App.jsx:40 | strings that differ, position by position, only in ASCII letter case lower to the same string |
| `Text.FirstField` | src/App.jsx:383 | `split(sep)[0]` is a prefix without `sep`, and is either the whole string or stops at the first `sep` |
| `Tmdb.ToMovie` | src/lib/tmdb.js:16-21 | each candidate carries the raw result's id, title, poster path and release date under the new names |
| `Tmdb.ToMovies` | src/lib/tmdb.js:16 | the mapped list has the same length and renames each entry at its position |
| `Tmdb.TrimmedGuard` | src/lib/tmdb.js:5-21 | the function takes the code's branches: `[]` when the trimmed query is empty, otherwise the first ten results renamed, or `[]` on failure |
| `Tmdb.Search` | src/lib/tmdb.js:4-26 | a blank query or any failure gives `[]`; otherwise the result has min(10, n) entries, the renamed in-order prefix of the raw results |
| `Tmdb.BlankQueryIgnoresResponse` | src/lib/tmdb.js:5 | for a blank query the catalogue's answer makes no difference (no request is made) and the result is `[]` |
| `Tmdb.FewResultsAllKept` | src/lib/tmdb.js:16 | with at most ten raw results the output is all of them, renamed and in order, and every one appears |
| `Tmdb.TailIsIrrelevant` | src/lib/tmdb.js:16 | raw results after the tenth never influence the output |
| `Compose.Validate` | src/App.jsx:90-98 | "missing field" exactly when the message or recipient is blank or no movie is selected; otherwise "too long" exactly when the untrimmed message exceeds 1000 characters; otherwise accepted |
| `Compose.BuildRecord` | src/App.jsx:105-112 | the record has the trimmed message and recipient, `recipient_lower` equal to the lowered recipient, and the selected movie's id, title and poster path |
| `Compose.AcceptedRecordWellFormed` | src/App.jsx:90-112 | a record built from an accepted draft has a non-empty message of at most 1000 characters, a non-empty recipient, no surrounding whitespace, and a `recipient_lower` in step with the recipient, of the same length and with no upper-case ASCII letter |
| `Compose.LengthBoundary` | src/App.jsx:95-98 | once the presence checks pass, a 1000-character message is accepted and a 1001-character one is refused as too long |
| `Compose.PaddedMessageRefused` | src/App.jsx:95 | 1000 letters followed by a space are refused, although their trimmed form would fit |
| `Compose.JordanExample` | src/App.jsx:105-112 | the draft "  Jordan  " with Fight Club (id 550) is accepted and stored as recipient "Jordan", `recipient_lower` "jordan", movie id 550 |
| `Feed.Surrounded` | src/App.jsx:40-42 | the pattern is the text between two `%` wildcards, and removing them gives back the text |
| `Feed.BuildFeedQuery` | src/App.jsx:32-44 | the query selects every column of `confessions`, newest first, limit 50; it has no filter for an empty text; name mode adds `ilike` on `recipient_lower` with `%`+lower(q)+`%`; movie mode adds `ilike` on `movie_title` with `%`+q+`%` |
| `Feed.FeedQueryDetermined` | src/App.jsx:32-44 | the mode and the text determine the query completely |
| `Feed.RecipientSearchIgnoresCase` | src/App.jsx:40 | for name search, two texts that lower to the same string send the same query |
| `Feed.MovieSearchMatchesTitle` | src/App.jsx:42 | movie search filters `movie_title` with the text exactly as typed, not a movie id |
| `Feed.SamExample` | src/App.jsx:40 | a name search for "Sam" sends the pattern "%sam%" on `recipient_lower` |
| `Display.YearLabel` | src/App.jsx:383 | "N/A" when the date is missing, empty or starts with '-'; otherwise the non-empty part of the date before its first '-' |
| `Display.YearExamples` | src/App.jsx:383 | "1999-10-15" shows "1999", and an empty date shows "N/A" |
| `Workflow.App.constructor` | src/App.jsx:7-27 | the initial state (browse tab, name mode, empty text, empty draft) followed by one unfiltered feed fetch and one armed timer for the empty draft |
| `Workflow.App.FetchConfessions` | src/App.jsx:29-60 | exactly one query for the current mode and text is sent; the list becomes the returned rows, or `[]` on a missing body, a store error or an exception; loading ends |
| `Workflow.App.SetActiveTab` | src/App.jsx:150-169 | the chosen tab is shown and nothing else changes |
| `Workflow.App.EditSearchQuery` | src/App.jsx:208-214 | the text is stored; a changed text fetches the feed for it, and an unchanged text sends nothing |
| `Workflow.App.SwitchMode` | src/App.jsx:178-203 | the mode is set and the text cleared; when either changed, the unfiltered feed for the new mode is fetched, otherwise nothing is sent |
| `Workflow.App.AfterDraftChange` | src/App.jsx:63-76 | a change of the movie text or selection replaces the pending timer by one for the current values; otherwise the slot is untouched; every call has `null` on one side of the movie dependency, so comparing by value agrees with `Object.is` |
| `Workflow.App.EditRecipient` | src/App.jsx:314 | only the recipient changes |
| `Workflow.App.EditMessage` | src/App.jsx:327 | only the message changes |
| `Workflow.App.EditMovieSearch` | src/App.jsx:347-349 | the movie text changes and the selection is cleared; the timer is re-armed for the new text; the candidate list is kept |
| `Workflow.App.SelectMovie` | src/App.jsx:78-85 | called only on a shown candidate while none is selected (the buttons of src/App.jsx:360-366): the movie is selected, the field shows its title, the candidates are cleared, the message and recipient are kept, and the timer is re-armed for the new values |
| `Workflow.App.RunLookup` | src/App.jsx:66-69 | the query is sent once, the searching flag ends false, and the search's answer becomes the candidate list |
| `Workflow.App.FireLookup` | src/App.jsx:64-73 | the slot empties; with a non-empty text and no selection, that text is sent once and the search's answer becomes the candidate list; otherwise nothing is sent and the list is emptied |
| `Workflow.App.SubmitConfession` | src/App.jsx:87-129 | a refused draft changes nothing and sends nothing; otherwise the built record is sent once; on success the draft is cleared, the browse tab is shown, the timer is re-armed and the feed refetched; on failure the draft, tab, timer and feed are untouched; the submission ends either way |
| `Workflow.App.Share` | src/App.jsx:100-128 | for any record: it is sent once; success resets the form as `ClearAfterShare` states, failure leaves the draft, tab, timer and feed untouched; the submission ends either way |
| `Workflow.App.SendRecord` | src/App.jsx:100-112 | the submission starts and exactly the given record is appended to the inserts |
| `Workflow.App.EndSubmission` | src/App.jsx:126-128 | the submission flag ends false |
| `Workflow.App.ClearAfterShare` | src/App.jsx:118-127 | the empty draft, the browse tab, a timer for the empty text, one refetch, and the end of the submission |
| `Scenarios.DebounceCollapsesBurst` | src/App.jsx:63-76 | after three quick edits and one timer, only the last text reached the search, and its answer is shown |
| `Scenarios.SelectionSuppressesLookup` | src/App.jsx:65-71 | after a candidate is selected, the next timer sends nothing more than the first lookup, the list stays empty and the field shows the title |
| `Scenarios.PickCandidate` | src/App.jsx:64-85 | typing a query, the timer's lookup answering with one movie, and clicking it select that movie, send the query once and keep the rest of the draft |
| `Scenarios.CandidatesOutliveEdit` | src/App.jsx:347-349 | an edit after a lookup still shows the previous query's candidates |
| `Scenarios.BlankTextReachesSearch` | src/App.jsx:65 | a text of only spaces passes the timer's check and reaches the search, which answers `[]` |
| `Scenarios.FillForm` | src/App.jsx:314-349 | message and recipient typed and a looked-up movie selected yield exactly that draft, with one lookup and no insert sent |
| `Scenarios.BlankMessageSendsNothing` | src/App.jsx:90-93 | a blank message is refused as a missing field, no record is sent and the draft is kept |
| `Scenarios.OverlongMessageSendsNothing` | src/App.jsx:95-98 | a 1001-character message is refused as too long and no record is sent |
| `Scenarios.ValidDraftIsShared` | src/App.jsx:100-121 | a valid draft sends exactly its built record, then the form is empty and the browse tab shown |
| `Scenarios.FailedInsertKeepsDraft` | src/App.jsx:116-128 | a refused insert sends the record once and leaves the draft as typed |
| `Scenarios.ModeSwitchUnfilters` | src/App.jsx:192-195 | after a name search, switching to movie mode clears the text and fetches the unfiltered, 50-row feed |
| `Scenarios.FeedErrorEmptiesList` | src/App.jsx:48-58 | a store error after a successful fetch leaves an empty list and loading ended |

## Left out

- Rendering (JSX, Tailwind classes, icons), `alert` and `console.error`. The alert a submission ends with is the `SubmitResult` value.
- The Supabase client (`from`, `select`, `order`, `limit`, `ilike`, `insert`, `single`) is a foreign library. The store's decision is an input, and a query is a data value.
- How the store evaluates `ilike` is not modelled. In particular, `%` and `_` in the search text are not escaped (src/App.jsx:40, 42), so they act as wildcards.
- The HTTP request, the API key, the URL built with `encodeURIComponent`, and JSON parsing (src/lib/tmdb.js:8-14). These are network and browser calls. Their result is the `Response` input; a body without a `results` array is `Unreadable`.
- Time and the event loop. There is no clock: the 500 ms quiet period is the rule that only `FireLookup` consumes the slot.
- The window while a lookup, a list fetch or an insert is awaited is not modelled. Two consequences follow: a late lookup answer overwriting a newer state is out of reach (the code would apply it unconditionally), and so is an edit made during an insert that the success reset then erases.
- The intermediate `true` values of `isLoading`, `isSearchingMovies` and `isSubmitting`, the spinners, and the disabled submit button. These only matter inside that await window.
- `toLocaleDateString` formatting of `created_at` (src/App.jsx:272) is locale machinery.
- The textarea's `maxLength={1000}` (src/App.jsx:330) is enforced by the browser. It counts UTF-16 code units as `length` does and cuts typed or pasted text at that limit, so the too-long alert (src/App.jsx:95-97) follows only a value set by a script or the developer tools. The model still lets any text reach `Validate`, so that branch is covered.
- `Workflow.App.FireLookup` requires a pending timer: a cleared timer's callback never runs.
- A `null` entry among the first ten `results` makes `movie.id` throw (src/lib/tmdb.js:17); the `catch` then returns `[]` (src/lib/tmdb.js:22-24). `RawMovie` has no null value, so that path is not modelled.
- `searchMode` values other than `'recipient'` and `'movie'` are not modelled. Only the two buttons set it, so the `else if` at src/App.jsx:41 has no reachable fall-through.
- `Text.Lower`: lowers ASCII letters only, not the full Unicode mapping of `toLowerCase`.
- `Compose.Validate`: counts the message in Unicode characters, whereas `message.length` counts UTF-16 code units. The two agree for text in the Basic Multilingual Plane.
- `Text.Trim`: uses the WhiteSpace and LineTerminator characters of ECMA-262 as fixed at edition 2023. Later Unicode additions to the space separators are not included.
