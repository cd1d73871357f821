/** The `Movie` record of the catalogue and its one-line rendering, `formatMovie`. */
module MovieType {
  import opened Text

  /** A catalogue entry as the rest of the program sees it; `rating` is on a 0-10 scale. */
  datatype Movie = Movie(id: int, title: string, genres: seq<string>, rating: int, available: bool)

  const GenreSeparator: string := ", "

  /** What follows the genre list in the formatted line: ") - Rating: <rating>/10". */
  function RatingPart(m: Movie): string {
    ") - Rating: " + IntToString(m.rating) + "/10"
  }

  /**
   * `formatMovie`: "<title> (<genres joined by ', '>) - Rating: <rating>/10".
   * The line begins with the title and " (", and ends with ") - Rating: ", the
   * printed rating and "/10".
   */
  function FormatMovie(m: Movie): (r: string)
    ensures |m.title| + 2 <= |r| - 3
    ensures r[..|m.title|] == m.title && r[|m.title|..|m.title| + 2] == " ("
    ensures |RatingPart(m)| <= |r| && r[|r| - |RatingPart(m)|..] == RatingPart(m)
    ensures r[|r| - 3..] == "/10"
  {
    var r := m.title + " (" + Join(m.genres, GenreSeparator) + RatingPart(m);
    assert r == (m.title + " (" + Join(m.genres, GenreSeparator)) + RatingPart(m);
    r
  }

  /** Where the joined genre list begins in the formatted line. */
  function GenresStart(m: Movie): nat {
    |m.title| + 2
  }

  /** The formatted line split into its three pieces: title and "(", the genre list, the rest. */
  lemma FormatMovieSplit(m: Movie)
    ensures FormatMovie(m) == (m.title + " (") + (Join(m.genres, GenreSeparator) + RatingPart(m))
    ensures GenresStart(m) == |m.title + " ("|
  {
  }

  /** Every genre appears, unchanged, in the formatted line at its place in the joined list. */
  lemma FormatMovieGenre(m: Movie, i: nat)
    requires i < |m.genres|
    ensures var o := GenresStart(m) + Offset(m.genres, GenreSeparator, i);
      o + |m.genres[i]| <= |FormatMovie(m)| &&
      FormatMovie(m)[o..o + |m.genres[i]|] == m.genres[i]
  {
    var j := Join(m.genres, GenreSeparator);
    var o := Offset(m.genres, GenreSeparator, i);
    FormatMovieSplit(m);
    JoinPart(m.genres, GenreSeparator, i);
    SliceLeft(j, RatingPart(m), o, o + |m.genres[i]|);
    SliceRight(m.title + " (", j + RatingPart(m), o, o + |m.genres[i]|);
  }

  /** Consecutive genres are separated in the formatted line by exactly one ", ". */
  lemma FormatMovieSeparator(m: Movie, i: nat)
    requires i + 1 < |m.genres|
    ensures var o := GenresStart(m) + Offset(m.genres, GenreSeparator, i) + |m.genres[i]|;
      o + 2 <= |FormatMovie(m)| && FormatMovie(m)[o..o + 2] == GenreSeparator
  {
    var j := Join(m.genres, GenreSeparator);
    var a := Offset(m.genres, GenreSeparator, i) + |m.genres[i]|;
    FormatMovieSplit(m);
    JoinSeparator(m.genres, GenreSeparator, i);
    SliceLeft(j, RatingPart(m), a, a + 2);
    SliceRight(m.title + " (", j + RatingPart(m), a, a + 2);
  }

  /** The line depends on the title, the genres and the rating only, not on `id` or `available`. */
  lemma FormatMovieIgnoresIdAndAvailability(m: Movie, n: Movie)
    requires m.title == n.title && m.genres == n.genres && m.rating == n.rating
    ensures FormatMovie(m) == FormatMovie(n)
  {
  }

  /** Two movies with the same title and genres that format alike have the same rating. */
  lemma FormatMovieDeterminesRating(m: Movie, n: Movie)
    requires m.title == n.title && m.genres == n.genres
    requires FormatMovie(m) == FormatMovie(n)
    ensures m.rating == n.rating
  {
    var head := m.title + " (" + Join(m.genres, GenreSeparator) + ") - Rating: ";
    var a := IntToString(m.rating);
    var b := IntToString(n.rating);
    assert FormatMovie(m) == head + a + "/10";
    assert FormatMovie(n) == head + b + "/10";
    assert |a| == |b|;
    assert a == FormatMovie(m)[|head|..|head| + |a|];
    assert b == FormatMovie(n)[|head|..|head| + |b|];
    IntToStringInjective(m.rating, n.rating);
  }
}
