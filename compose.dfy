/**
 * The pure parts of the "Share Yours" form in src/App.jsx: the draft, the validation that
 * `handleSubmitConfession` runs before anything is sent, and the record it inserts.
 */
module Compose {
  import opened Optional
  import opened Text
  import opened Tmdb

  /** Longest message accepted, counted on the message as typed (before trimming). */
  const MaxMessageLength: nat := 1000

  /** The `newConfession` state object. */
  datatype Draft = Draft(message: string, recipient: string, movieSearch: string, selectedMovie: Option<Movie>)

  /** The draft after mounting and after a successful submission. */
  const EmptyDraft := Draft("", "", "", None)

  /** Why a submission was refused: the "fill in all fields" and "too long" alerts. */
  datatype Rejection = MissingField | MessageTooLong

  /**
   * The two guards of `handleSubmitConfession`, in their order: first the three presence checks
   * (trimmed message, trimmed recipient, a selected movie), then the length of the untrimmed message.
   */
  function Validate(d: Draft): (r: Option<Rejection>)
    ensures r == Some(MissingField) <==> Blank(d.message) || Blank(d.recipient) || d.selectedMovie.None?
    ensures r == Some(MessageTooLong) <==>
              !Blank(d.message) && !Blank(d.recipient) && d.selectedMovie.Some? && |d.message| > MaxMessageLength
    ensures r == None <==>
              !Blank(d.message) && !Blank(d.recipient) && d.selectedMovie.Some? && |d.message| <= MaxMessageLength
  {
    if Trim(d.message) == [] || Trim(d.recipient) == [] || d.selectedMovie.None? then Some(MissingField)
    else if |d.message| > MaxMessageLength then Some(MessageTooLong)
    else None
  }

  /** A row of the `confessions` table as inserted, with the table's column names. */
  datatype NewRecord = NewRecord(
    message: string,
    recipient: string,
    recipient_lower: string,
    movie_id: int,
    movie_title: string,
    movie_poster_path: Option<string>)

  /** The record literal handed to the store: trimmed text, the lower-cased recipient and the movie reference. */
  function BuildRecord(d: Draft): (rec: NewRecord)
    requires d.selectedMovie.Some?
    ensures rec.message == Trim(d.message) && rec.recipient == Trim(d.recipient)
    ensures rec.recipient_lower == Lower(rec.recipient)
    ensures rec.movie_id == d.selectedMovie.value.id
    ensures rec.movie_title == d.selectedMovie.value.title
    ensures rec.movie_poster_path == d.selectedMovie.value.posterPath
  {
    var m := d.selectedMovie.value;
    NewRecord(Trim(d.message), Trim(d.recipient), Lower(Trim(d.recipient)), m.id, m.title, m.posterPath)
  }

  /**
   * Every record built from a draft that passed validation is well formed: non-empty text with no
   * surrounding whitespace, a message within the limit, and the search column in step with the recipient
   * and free of upper-case letters.
   */
  lemma AcceptedRecordWellFormed(d: Draft)
    requires Validate(d) == None
    ensures var rec := BuildRecord(d);
      && rec.message != [] && |rec.message| <= MaxMessageLength
      && !IsWhitespace(rec.message[0]) && !IsWhitespace(rec.message[|rec.message| - 1])
      && rec.recipient != []
      && !IsWhitespace(rec.recipient[0]) && !IsWhitespace(rec.recipient[|rec.recipient| - 1])
      && rec.recipient_lower == Lower(rec.recipient)
      && |rec.recipient_lower| == |rec.recipient|
      && forall i :: 0 <= i < |rec.recipient_lower| ==> !('A' <= rec.recipient_lower[i] <= 'Z')
  {
    var rec := BuildRecord(d);
    assert rec.message == Trim(d.message) && !Blank(d.message);
    assert rec.recipient == Trim(d.recipient) && !Blank(d.recipient);
  }

  /** The length guard looks at the untrimmed message: 1000 characters pass, 1001 do not, trailing spaces included. */
  lemma LengthBoundary(d: Draft)
    requires !Blank(d.message) && !Blank(d.recipient) && d.selectedMovie.Some?
    ensures |d.message| == MaxMessageLength ==> Validate(d) == None
    ensures |d.message| == MaxMessageLength + 1 ==> Validate(d) == Some(MessageTooLong)
  {
  }

  /** A message of 1000 letters and one trailing space is refused, although its trimmed form would fit. */
  lemma PaddedMessageRefused(m: Movie)
    ensures var msg := seq(MaxMessageLength, _ => 'a') + " ";
      && |Trim(msg)| <= MaxMessageLength
      && Validate(Draft(msg, "Sam", "", Some(m))) == Some(MessageTooLong)
  {
    var msg := seq(MaxMessageLength, _ => 'a') + " ";
    assert !IsWhitespace(msg[0]);
    assert !IsWhitespace("Sam"[0]);
    TrimEndPadded(msg[..MaxMessageLength], " ");
    assert msg == msg[..MaxMessageLength] + " ";
    assert TrimStart(msg) == msg;
  }

  /** The submission of the example: "  Jordan  " is stored as "Jordan", searchable as "jordan". */
  lemma JordanExample(msg: string, d: Draft)
    requires msg == "I still think about you."
    requires d == Draft(msg, "  Jordan  ", "Fight Club", Some(Movie(550, "Fight Club", None, None)))
    ensures Validate(d) == None
    ensures BuildRecord(d) == NewRecord(msg, "Jordan", "jordan", 550, "Fight Club", None)
  {
    assert !IsWhitespace(msg[0]) && !IsWhitespace(msg[|msg| - 1]);
    assert !IsWhitespace(d.recipient[2]);
    TrimmedUnchanged(msg);
    TrimmedJordan();
    LowerJordan();
  }

  lemma TrimmedUnchanged(s: string)
    requires s != [] && !IsWhitespace(s[0]) && !IsWhitespace(s[|s| - 1])
    ensures Trim(s) == s
  {
    TrimPadded([], s, []);
    assert [] + s + [] == s;
  }

  lemma TrimmedJordan()
    ensures Trim("  Jordan  ") == "Jordan"
  {
    TrimPadded("  ", "Jordan", "  ");
    assert "  " + "Jordan" + "  " == "  Jordan  ";
  }

  lemma LowerJordan()
    ensures Lower("Jordan") == "jordan"
  {
    assert Lower("Jordan")[0] == 'j';
  }
}
