/** The records of data.js and its two line parsers for the MovieLens 100K
  * files: `u.item` (one movie per line, fields separated by `|`, the last 19
  * fields genre flags) and `u.data` (one rating per line, fields separated by
  * tabs). */
module MovieData {
  import opened JsBuiltins

  datatype Movie = Movie(id: Number, title: string, genres: seq<string>)

  datatype Rating = Rating(userId: Number, movieId: Number, rating: Number, timestamp: Number)

  /** The genre of each flag column of `u.item`, column 5 first. */
  const GenreNames: seq<string> := [
    "Unknown", "Action", "Adventure", "Animation",
    "Children's", "Comedy", "Crime", "Documentary",
    "Drama", "Fantasy", "Film-Noir", "Horror",
    "Musical", "Mystery", "Romance", "Sci-Fi",
    "Thriller", "War", "Western"
  ]

  /** The first flag column, and one past the last. */
  const FirstGenreColumn: nat := 5
  const EndGenreColumn: nat := 24

  const MovieSeparator: char := '|'
  const MovieMinFields: nat := 5
  const RatingSeparator: char := '\t'
  const RatingMinFields: nat := 4

  /** No string occurs twice. */
  predicate Distinct(s: seq<string>) {
    forall i, j :: 0 <= i < j < |s| ==> s[i] != s[j]
  }

  /** A table of flag-column genres as the parser's: "Unknown" first and no
    * name twice. */
  predicate IsGenreTable(names: seq<string>) {
    names != [] && names[0] == "Unknown" && Distinct(names)
  }

  lemma GenreNamesTable()
    ensures |GenreNames| == EndGenreColumn - FirstGenreColumn
    ensures IsGenreTable(GenreNames)
  {
    GenreTagsMatch();
    GenreTagsDistinct();
    forall i, j | 0 <= i < j < |GenreNames| ensures GenreNames[i] != GenreNames[j] {
      assert NameTag(GenreNames[i]) != NameTag(GenreNames[j]);
    }
  }

  /** The first two characters of a name as one number; they already tell the
    * genre names apart. Comparing these 19 numbers is much cheaper for the
    * solver than proving 171 string disequalities directly. */
  function NameTag(s: string): int {
    if |s| < 2 then 0 else s[0] as int * 256 + s[1] as int
  }

  /** `NameTag` of each genre name, in table order. */
  const GenreTags: seq<int> := [
    21870, 16739, 16740, 16750, 17256, 17263, 17266, 17519, 17522, 18017,
    18025, 18543, 19829, 19833, 21103, 21347, 21608, 22369, 22373
  ]

  lemma GenreTagsMatch()
    ensures forall i :: 0 <= i < |GenreNames| ==> NameTag(GenreNames[i]) == GenreTags[i]
  {
  }

  lemma GenreTagsDistinct()
    ensures forall i, j :: 0 <= i < j < |GenreTags| ==> GenreTags[i] != GenreTags[j]
  {
  }

  /** The position of a genre among the flag columns (19 when it has none). */
  function GenreIndex(g: string): (k: nat)
    ensures k <= |GenreNames|
    ensures k < |GenreNames| ==> GenreNames[k] == g
  {
    IndexFrom(GenreNames, g, 0)
  }

  /** The first position at or after `from` where `names` holds `g`, or `|names|`. */
  function IndexFrom(names: seq<string>, g: string, from: nat): (k: nat)
    requires from <= |names|
    ensures from <= k <= |names|
    ensures k < |names| ==> names[k] == g
    decreases |names| - from
  {
    if from == |names| then from
    else if names[from] == g then from
    else IndexFrom(names, g, from + 1)
  }

  lemma IndexOfName(names: seq<string>, k: nat)
    requires IsGenreTable(names) && k < |names|
    ensures IndexFrom(names, names[k], 0) == k
  {
    IndexFromName(names, k, 0);
  }

  lemma {:induction false} IndexFromName(names: seq<string>, k: nat, from: nat)
    requires IsGenreTable(names) && from <= k < |names|
    ensures IndexFrom(names, names[k], from) == k
    decreases k - from
  {
    if from < k {
      assert names[from] != names[k];
      IndexFromName(names, k, from + 1);
    }
  }

  lemma GenreIndexOfName(k: nat)
    requires k < |GenreNames|
    ensures GenreIndex(GenreNames[k]) == k
  {
    GenreNamesTable();
    IndexOfName(GenreNames, k);
  }

  // ---------------------------------------------------------------------
  // Which lines become records

  /** A line the parsers keep: not empty once trimmed, and with at least
    * `minFields` fields. */
  predicate IsRecordLine(line: string, sep: char, minFields: nat) {
    Trim(line) != "" && |Split(line, sep)| >= minFields
  }

  /** The lines the parsers keep, in their order. */
  function RecordLines(lines: seq<string>, sep: char, minFields: nat): (kept: seq<string>)
    ensures |kept| <= |lines|
    ensures forall l :: l in kept <==> l in lines && IsRecordLine(l, sep, minFields)
  {
    if lines == [] then []
    else
      var last := lines[|lines| - 1];
      assert lines == lines[..|lines| - 1] + [last];
      RecordLines(lines[..|lines| - 1], sep, minFields) + (if IsRecordLine(last, sep, minFields) then [last] else [])
  }

  // ---------------------------------------------------------------------
  // u.item

  /** The field exists and holds exactly "1". */
  predicate FlagSet(parts: seq<string>, column: nat) {
    column < |parts| && parts[column] == "1"
  }

  /** The genre that flag column `column` contributes, with `names` the genres
    * of the flag columns: its name when the field exists and holds exactly
    * "1", except for "Unknown". */
  function FlaggedGenre(names: seq<string>, parts: seq<string>, column: nat): seq<string>
    requires FirstGenreColumn <= column < FirstGenreColumn + |names|
  {
    if FlagSet(parts, column) && names[column - FirstGenreColumn] != "Unknown"
    then [names[column - FirstGenreColumn]]
    else []
  }

  /** The genres read from the flag columns before `column`, in column order. */
  function FlaggedGenres(names: seq<string>, parts: seq<string>, column: nat): seq<string>
    requires FirstGenreColumn <= column <= FirstGenreColumn + |names|
    decreases column
  {
    if column == FirstGenreColumn then []
    else FlaggedGenres(names, parts, column - 1) + FlaggedGenre(names, parts, column - 1)
  }

  /** `FlaggedGenres` with the genre table of `parseMovieData`. */
  function GenresBefore(parts: seq<string>, column: nat): seq<string>
    requires FirstGenreColumn <= column <= EndGenreColumn
  {
    FlaggedGenres(GenreNames, parts, column)
  }

  /** The movie that a kept `u.item` line describes. */
  function MovieOfLine(line: string): Movie
    requires IsRecordLine(line, MovieSeparator, MovieMinFields)
  {
    MovieOfParts(Split(line, MovieSeparator))
  }

  /** The object literal of `parseMovieData`: the id read with `parseInt`, the
    * title as it stands, the genres of the flag columns. */
  function MovieOfParts(parts: seq<string>): Movie
    requires |parts| >= MovieMinFields
  {
    Movie(ParseInt(parts[0]), parts[1], GenresBefore(parts, EndGenreColumn))
  }

  /** `parseMovieData` over the lines of the input. */
  function MoviesFrom(lines: seq<string>): seq<Movie> {
    if lines == [] then []
    else
      var last := lines[|lines| - 1];
      MoviesFrom(lines[..|lines| - 1])
        + (if IsRecordLine(last, MovieSeparator, MovieMinFields) then [MovieOfLine(last)] else [])
  }

  /** The inner loop of `parseMovieData`: collects the genre of every flag
    * column that holds "1". */
  method ReadGenres(parts: seq<string>) returns (genres: seq<string>)
    ensures genres == GenresBefore(parts, EndGenreColumn)
  {
    genres := [];
    var i := FirstGenreColumn;
    while i < EndGenreColumn
      invariant FirstGenreColumn <= i <= EndGenreColumn
      invariant genres == GenresBefore(parts, i)
    {
      if i < |parts| && parts[i] == "1" {
        var genreName := GenreNames[i - FirstGenreColumn];
        if genreName != "Unknown" {
          genres := genres + [genreName];
        }
      }
      i := i + 1;
    }
  }

  /** The body of the `parseMovieData` loop: a line that is not blank and
    * has enough fields yields one movie, any other line none. */
  method ReadMovieLine(line: string) returns (kept: seq<Movie>)
    ensures kept == if IsRecordLine(line, MovieSeparator, MovieMinFields) then [MovieOfLine(line)] else []
  {
    kept := [];
    if Trim(line) != "" {
      var parts := Split(line, MovieSeparator);
      if |parts| >= MovieMinFields {
        var id := ParseInt(parts[0]);
        var title := parts[1];
        var genres := ReadGenres(parts);
        kept := [Movie(id, title, genres)];
      }
    }
  }

  /** Parses `u.item` text: one movie per kept line. */
  method ParseMovieData(data: string) returns (movies: seq<Movie>)
    ensures movies == MoviesFrom(Split(data, '\n'))
  {
    movies := [];
    var lines := Split(data, '\n');
    var k := 0;
    while k < |lines|
      invariant 0 <= k <= |lines|
      invariant movies == MoviesFrom(lines[..k])
    {
      var kept := ReadMovieLine(lines[k]);
      MoviesFromStep(lines, k);
      movies := movies + kept;
      k := k + 1;
    }
    assert lines[..k] == lines;
  }

  lemma MoviesFromStep(lines: seq<string>, k: nat)
    requires k < |lines|
    ensures MoviesFrom(lines[..k + 1]) == MoviesFrom(lines[..k])
              + (if IsRecordLine(lines[k], MovieSeparator, MovieMinFields) then [MovieOfLine(lines[k])] else [])
  {
    assert lines[..k + 1][..k] == lines[..k];
  }

  /** Each kept line yields exactly one movie, in line order, so there are
    * never more movies than lines. */
  lemma {:induction false} MoviesFromKeptLines(lines: seq<string>)
    ensures |MoviesFrom(lines)| == |RecordLines(lines, MovieSeparator, MovieMinFields)| <= |lines|
    ensures forall i :: 0 <= i < |MoviesFrom(lines)| ==>
              IsRecordLine(RecordLines(lines, MovieSeparator, MovieMinFields)[i], MovieSeparator, MovieMinFields)
              && MoviesFrom(lines)[i] == MovieOfLine(RecordLines(lines, MovieSeparator, MovieMinFields)[i])
  {
    if lines != [] {
      MoviesFromKeptLines(lines[..|lines| - 1]);
    }
  }

  /** The flag columns before `column` contribute genres other than
    * "Unknown", in strictly increasing column order. */
  lemma {:induction false} FlaggedGenresOrdered(names: seq<string>, parts: seq<string>, column: nat)
    requires IsGenreTable(names)
    requires FirstGenreColumn <= column <= FirstGenreColumn + |names|
    ensures forall i :: 0 <= i < |FlaggedGenres(names, parts, column)| ==>
              1 <= IndexFrom(names, FlaggedGenres(names, parts, column)[i], 0) < column - FirstGenreColumn
    ensures forall i, j :: 0 <= i < j < |FlaggedGenres(names, parts, column)| ==>
              IndexFrom(names, FlaggedGenres(names, parts, column)[i], 0)
              < IndexFrom(names, FlaggedGenres(names, parts, column)[j], 0)
    decreases column
  {
    if column > FirstGenreColumn {
      var c := column - 1;
      var before, here := FlaggedGenres(names, parts, c), FlaggedGenre(names, parts, c);
      var all := before + here;
      FlaggedGenresOrdered(names, parts, c);
      assert FlaggedGenres(names, parts, column) == all;
      if here != [] {
        var k := c - FirstGenreColumn;
        IndexOfName(names, k);
        assert here == [names[k]] && k != 0;
        forall i | 0 <= i < |all|
          ensures 1 <= IndexFrom(names, all[i], 0) < column - FirstGenreColumn
        {
          if i < |before| {
            assert all[i] == before[i];
          }
        }
        forall i, j | 0 <= i < j < |all|
          ensures IndexFrom(names, all[i], 0) < IndexFrom(names, all[j], 0)
        {
          assert all[i] == before[i];
          if j < |before| {
            assert all[j] == before[j];
          } else {
            assert all[j] == names[k];
          }
        }
      } else {
        assert all == before;
      }
    }
  }

  /** Genre k (other than "Unknown") is among those read before `column`
    * exactly when its column exists and holds "1". */
  lemma {:induction false} FlaggedGenresFlags(names: seq<string>, parts: seq<string>, column: nat, k: nat)
    requires IsGenreTable(names)
    requires FirstGenreColumn <= column <= FirstGenreColumn + |names|
    requires 1 <= k < column - FirstGenreColumn
    ensures names[k] in FlaggedGenres(names, parts, column) <==> FlagSet(parts, FirstGenreColumn + k)
    decreases column
  {
    var c := column - 1;
    var last := c - FirstGenreColumn;
    var g := names[k];
    var before, here := FlaggedGenres(names, parts, c), FlaggedGenre(names, parts, c);
    assert FlaggedGenres(names, parts, column) == before + here;
    if k < last {
      FlaggedGenresFlags(names, parts, c, k);
      assert g != names[last];
      assert g !in here;
    } else {
      FlaggedGenresOrdered(names, parts, c);
      IndexOfName(names, k);
      assert g !in before by {
        forall i | 0 <= i < |before| ensures before[i] != g {
        }
      }
      assert g != names[0];
      assert g in here <==> FlagSet(parts, c);
    }
  }

  /** `FlaggedGenresOrdered` for the genre table of `parseMovieData`. */
  lemma GenresBeforeOrdered(parts: seq<string>, column: nat)
    requires FirstGenreColumn <= column <= EndGenreColumn
    ensures forall i :: 0 <= i < |GenresBefore(parts, column)| ==>
              1 <= GenreIndex(GenresBefore(parts, column)[i]) < column - FirstGenreColumn
    ensures forall i, j :: 0 <= i < j < |GenresBefore(parts, column)| ==>
              GenreIndex(GenresBefore(parts, column)[i]) < GenreIndex(GenresBefore(parts, column)[j])
  {
    GenreNamesTable();
    FlaggedGenresOrdered(GenreNames, parts, column);
  }

  /** `FlaggedGenresFlags` for the genre table of `parseMovieData`. */
  lemma GenresBeforeFlags(parts: seq<string>, column: nat, k: nat)
    requires FirstGenreColumn <= column <= EndGenreColumn
    requires 1 <= k < column - FirstGenreColumn
    ensures GenreNames[k] in GenresBefore(parts, column) <==>
              FirstGenreColumn + k < |parts| && parts[FirstGenreColumn + k] == "1"
  {
    GenreNamesTable();
    FlaggedGenresFlags(GenreNames, parts, column, k);
  }

  /** The genres of a parsed movie: only named genres and never "Unknown";
    * genre k is present exactly when column 5 + k holds "1" (a column past
    * the end of the line counts as unset); column order, so no duplicates. */
  lemma MovieGenres(line: string)
    requires IsRecordLine(line, MovieSeparator, MovieMinFields)
    ensures var parts := Split(line, MovieSeparator);
            var genres := MovieOfLine(line).genres;
            && (forall g :: g in genres ==> g in GenreNames && g != "Unknown")
            && (forall k :: 1 <= k < |GenreNames| ==>
                  (GenreNames[k] in genres <==> FirstGenreColumn + k < |parts| && parts[FirstGenreColumn + k] == "1"))
            && (forall i, j :: 0 <= i < j < |genres| ==> GenreIndex(genres[i]) < GenreIndex(genres[j]))
            && (forall i, j :: 0 <= i < j < |genres| ==> genres[i] != genres[j])
  {
    var parts := Split(line, MovieSeparator);
    GenresBeforeOrdered(parts, EndGenreColumn);
    GenreNamesTable();
    var genres := MovieOfLine(line).genres;
    forall k | 1 <= k < |GenreNames|
      ensures GenreNames[k] in genres <==> FirstGenreColumn + k < |parts| && parts[FirstGenreColumn + k] == "1"
    {
      GenresBeforeFlags(parts, EndGenreColumn, k);
    }
    forall g | g in genres ensures g in GenreNames && g != "Unknown" {
      var i :| 0 <= i < |genres| && genres[i] == g;
      assert 1 <= GenreIndex(g) < |GenreNames|;
    }
  }

  // ---------------------------------------------------------------------
  // u.data

  /** The rating that a kept `u.data` line describes: fields 0 to 3 are the
    * user, the movie, the rating and the timestamp. */
  function RatingOfLine(line: string): Rating
    requires IsRecordLine(line, RatingSeparator, RatingMinFields)
  {
    RatingOfParts(Split(line, RatingSeparator))
  }

  /** The object literal of `parseRatingData`: every field read with `parseInt`. */
  function RatingOfParts(parts: seq<string>): Rating
    requires |parts| >= RatingMinFields
  {
    Rating(ParseInt(parts[0]), ParseInt(parts[1]), ParseInt(parts[2]), ParseInt(parts[3]))
  }

  /** `parseRatingData` over the lines of the input. */
  function RatingsFrom(lines: seq<string>): seq<Rating> {
    if lines == [] then []
    else
      var last := lines[|lines| - 1];
      RatingsFrom(lines[..|lines| - 1])
        + (if IsRecordLine(last, RatingSeparator, RatingMinFields) then [RatingOfLine(last)] else [])
  }

  /** The body of the `parseRatingData` loop: a line that is not blank and
    * has enough fields yields one rating, any other line none. */
  method ReadRatingLine(line: string) returns (kept: seq<Rating>)
    ensures kept == if IsRecordLine(line, RatingSeparator, RatingMinFields) then [RatingOfLine(line)] else []
  {
    kept := [];
    if Trim(line) != "" {
      var parts := Split(line, RatingSeparator);
      if |parts| >= RatingMinFields {
        var userId := ParseInt(parts[0]);
        var movieId := ParseInt(parts[1]);
        var value := ParseInt(parts[2]);
        var timestamp := ParseInt(parts[3]);
        kept := [Rating(userId, movieId, value, timestamp)];
      }
    }
  }

  /** Parses `u.data` text: one rating per kept line. */
  method ParseRatingData(data: string) returns (ratings: seq<Rating>)
    ensures ratings == RatingsFrom(Split(data, '\n'))
  {
    ratings := [];
    var lines := Split(data, '\n');
    var k := 0;
    while k < |lines|
      invariant 0 <= k <= |lines|
      invariant ratings == RatingsFrom(lines[..k])
    {
      var kept := ReadRatingLine(lines[k]);
      RatingsFromStep(lines, k);
      ratings := ratings + kept;
      k := k + 1;
    }
    assert lines[..k] == lines;
  }

  lemma RatingsFromStep(lines: seq<string>, k: nat)
    requires k < |lines|
    ensures RatingsFrom(lines[..k + 1]) == RatingsFrom(lines[..k])
              + (if IsRecordLine(lines[k], RatingSeparator, RatingMinFields) then [RatingOfLine(lines[k])] else [])
  {
    assert lines[..k + 1][..k] == lines[..k];
  }

  /** Each kept line yields exactly one rating, in line order. */
  lemma {:induction false} RatingsFromKeptLines(lines: seq<string>)
    ensures |RatingsFrom(lines)| == |RecordLines(lines, RatingSeparator, RatingMinFields)| <= |lines|
    ensures forall i :: 0 <= i < |RatingsFrom(lines)| ==>
              IsRecordLine(RecordLines(lines, RatingSeparator, RatingMinFields)[i], RatingSeparator, RatingMinFields)
              && RatingsFrom(lines)[i] == RatingOfLine(RecordLines(lines, RatingSeparator, RatingMinFields)[i])
  {
    if lines != [] {
      RatingsFromKeptLines(lines[..|lines| - 1]);
    }
  }

  // ---------------------------------------------------------------------
  // Lines written from known fields

  /** A line that starts with a digit is not blank. */
  lemma StartsWithDigitNotBlank(line: string)
    requires line != [] && DigitValue(line[0]) < 10
    ensures Trim(line) != ""
  {
    TrimEmptyIffAllWhiteSpace(line);
    assert '0' <= line[0] <= '9';
  }

  /** A line of separator-free fields, the first a decimal number, is kept
    * and splits back into its fields. */
  lemma LineOfFields(parts: seq<string>, sep: char, minFields: nat, first: nat)
    requires minFields <= |parts| && parts != [] && parts[0] == DecimalString(first)
    requires forall i :: 0 <= i < |parts| ==> sep !in parts[i]
    ensures IsRecordLine(Join(parts, sep), sep, minFields)
    ensures Split(Join(parts, sep), sep) == parts
  {
    SplitJoin(parts, sep);
    var line := Join(parts, sep);
    DecimalDigits(first);
    assert line[0] == parts[0][0];
    StartsWithDigitNotBlank(line);
  }

  /** A `u.data` line written from at least four tab-free fields, the first
    * four decimal numbers, is kept and parses to the rating made of those
    * numbers: user, movie, rating and timestamp, in field order. */
  lemma RatingOfFields(parts: seq<string>, user: nat, movie: nat, rating: nat, timestamp: nat)
    requires |parts| >= RatingMinFields
    requires parts[0] == DecimalString(user) && parts[1] == DecimalString(movie)
    requires parts[2] == DecimalString(rating) && parts[3] == DecimalString(timestamp)
    requires forall i :: 0 <= i < |parts| ==> RatingSeparator !in parts[i]
    ensures IsRecordLine(Join(parts, RatingSeparator), RatingSeparator, RatingMinFields)
    ensures RatingOfLine(Join(parts, RatingSeparator))
            == Rating(Num(user as real), Num(movie as real), Num(rating as real), Num(timestamp as real))
  {
    LineOfFields(parts, RatingSeparator, RatingMinFields, user);
    ParseIntDecimal(user);
    ParseIntDecimal(movie);
    ParseIntDecimal(rating);
    ParseIntDecimal(timestamp);
  }

  /** A `u.item` line written from at least five `|`-free fields, the first a
    * decimal id, is kept and parses to the movie with that id, the second
    * field as its title and the genres of its flag columns. */
  lemma MovieOfFields(id: nat, parts: seq<string>)
    requires |parts| >= MovieMinFields && parts[0] == DecimalString(id)
    requires forall i :: 0 <= i < |parts| ==> MovieSeparator !in parts[i]
    ensures var line := Join(parts, MovieSeparator);
            IsRecordLine(line, MovieSeparator, MovieMinFields)
            && MovieOfLine(line) == Movie(Num(id as real), parts[1], GenresBefore(parts, EndGenreColumn))
  {
    LineOfFields(parts, MovieSeparator, MovieMinFields, id);
    ParseIntDecimal(id);
  }

  /** The first `u.data` sample line: user 196 gave movie 242 three stars. */
  lemma FirstSampleRating()
    ensures var line := Join(["196", "242", "3", "881250949"], RatingSeparator);
            IsRecordLine(line, RatingSeparator, RatingMinFields)
            && RatingOfLine(line) == Rating(Num(196.0), Num(242.0), Num(3.0), Num(881250949.0))
  {
    var parts := ["196", "242", "3", "881250949"];
    assert DecimalString(196) == "196" && DecimalString(242) == "242";
    assert DecimalString(3) == "3";
    SampleTimestampDigits();
    RatingOfFields(parts, 196, 242, 3, 881250949);
  }

  lemma SampleTimestampDigits()
    ensures DecimalString(881250949) == "881250949"
  {
    assert DecimalString(881) == "881";
    assert DecimalString(881250) == "881250";
  }

  /** Flag columns that all hold something other than "1" contribute no genre. */
  lemma {:induction false} UnsetColumns(parts: seq<string>, low: nat, high: nat)
    requires FirstGenreColumn <= low <= high <= EndGenreColumn
    requires forall column :: low <= column < high ==> !FlagSet(parts, column)
    ensures GenresBefore(parts, high) == GenresBefore(parts, low)
    decreases high
  {
    if high > low {
      UnsetColumns(parts, low, high - 1);
    }
  }

  /** The genre flags of the first `u.item` sample line. */
  const ToyStoryFlags: seq<string> :=
    ["0", "0", "0", "1", "1", "1", "0", "0", "0", "0", "0", "0", "0", "0", "0", "0", "0", "0", "0"]

  lemma ToyStoryGenres(parts: seq<string>)
    requires |parts| == EndGenreColumn && parts[FirstGenreColumn..] == ToyStoryFlags
    ensures GenresBefore(parts, EndGenreColumn) == ["Animation", "Children's", "Comedy"]
  {
    assert forall column :: FirstGenreColumn <= column < EndGenreColumn ==>
             parts[column] == ToyStoryFlags[column - FirstGenreColumn];
    UnsetColumns(parts, FirstGenreColumn, 8);
    assert GenresBefore(parts, 9) == ["Animation"];
    assert GenresBefore(parts, 10) == ["Animation", "Children's"];
    assert GenresBefore(parts, 11) == ["Animation", "Children's", "Comedy"];
    UnsetColumns(parts, 11, EndGenreColumn);
  }

  /** The first `u.item` sample line: Toy Story, flagged Animation,
    * Children's and Comedy, whatever its date and URL fields hold. */
  lemma FirstSampleMovie(parts: seq<string>)
    requires |parts| == EndGenreColumn && parts[0] == "1" && parts[1] == "Toy Story (1995)"
    requires parts[FirstGenreColumn..] == ToyStoryFlags
    requires forall i :: 0 <= i < |parts| ==> MovieSeparator !in parts[i]
    ensures var line := Join(parts, MovieSeparator);
            IsRecordLine(line, MovieSeparator, MovieMinFields)
            && MovieOfLine(line) == Movie(Num(1.0), "Toy Story (1995)", ["Animation", "Children's", "Comedy"])
  {
    assert DecimalString(1) == "1";
    MovieOfFields(1, parts);
    ToyStoryGenres(parts);
  }
}
