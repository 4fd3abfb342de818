/** The release year shown beside each movie candidate in src/App.jsx. */
module Display {
  import opened Optional
  import opened Text

  /**
   * `releaseDate?.split('-')[0] || 'N/A'`: the part of the date before its first '-', or "N/A"
   * when there is no date or that part is empty.
   */
  function YearLabel(releaseDate: Option<string>): (r: string)
    ensures releaseDate.None? || releaseDate.value == [] || releaseDate.value[0] == '-' ==> r == "N/A"
    ensures releaseDate.Some? && releaseDate.value != [] && releaseDate.value[0] != '-' ==>
              var d := releaseDate.value;
              && r != [] && |r| <= |d| && r == d[..|r|] && '-' !in r
              && (|r| == |d| || d[|r|] == '-')
  {
    match releaseDate
    case None => "N/A"
    case Some(d) =>
      var year := FirstField(d, '-');
      if year == [] then "N/A" else year
  }

  /** A full TMDB date shows its year; an empty date shows "N/A". */
  lemma YearExamples(date: string)
    requires date == "1999-10-15"
    ensures YearLabel(Some(date)) == "1999"
    ensures YearLabel(Some("")) == "N/A"
  {
    var r := YearLabel(Some(date));
    assert date[4] == '-';
    assert forall k :: 0 <= k < 4 ==> date[k] != '-';
    assert |r| == 4;
    assert r == date[..4];
  }
}
