/** `generateRatingStars` of script.js: an average rating drawn as full, half
  * and empty stars. The markup of each star is left out; the model keeps the
  * sequence of star kinds. */
module RatingStars {
  import opened JsBuiltins

  datatype Star = Full | Half | Empty

  /** `Math.floor(rating)` */
  function FullStars(rating: Number): Number {
    Floor(rating)
  }

  /** `rating % 1 >= 0.5` */
  predicate HasHalfStar(rating: Number) {
    AtLeast(RemainderOfOne(rating), 0.5)
  }

  /** `5 - fullStars - (halfStar ? 1 : 0)` */
  function EmptyStars(rating: Number): Number {
    Sub(Sub(Num(5.0), FullStars(rating)), Num(if HasHalfStar(rating) then 1.0 else 0.0))
  }

  /** The stars the two loops and the half-star branch produce: as many full
    * stars as the first loop runs, the half star when there is one, as many
    * empty stars as the second loop runs. */
  function StarsFor(rating: Number): seq<Star> {
    seq(LoopCount(FullStars(rating)), _ => Full)
    + (if HasHalfStar(rating) then [Half] else [])
    + seq(LoopCount(EmptyStars(rating)), _ => Empty)
  }

  /** `generateRatingStars`: appends the stars loop by loop, with the half star
    * in between. */
  method GenerateRatingStars(rating: Number) returns (stars: seq<Star>)
    ensures stars == StarsFor(rating)
  {
    var fullStars := FullStars(rating);
    var halfStar := HasHalfStar(rating);
    var emptyStars := EmptyStars(rating);
    stars := [];
    var i := 0;
    while CounterBelow(i, fullStars)
      invariant 0 <= i <= LoopCount(fullStars)
      invariant stars == seq(i, _ => Full)
      decreases LoopCount(fullStars) - i
    {
      stars := stars + [Full];
      i := i + 1;
    }
    if halfStar {
      stars := stars + [Half];
    }
    var prefix := stars;
    i := 0;
    while CounterBelow(i, emptyStars)
      invariant 0 <= i <= LoopCount(emptyStars)
      invariant stars == prefix + seq(i, _ => Empty)
      decreases LoopCount(emptyStars) - i
    {
      stars := stars + [Empty];
      i := i + 1;
    }
  }

  /** A loop `i < n` with a non-negative whole `n` runs `n` times. */
  lemma LoopCountOfWhole(n: nat)
    ensures LoopCount(Num(n as real)) == n
  {
    assert (-(n as real)).Floor == -(n as int);
  }

  /** For a rating between 0 and 5 the loops run ⌊rating⌋ times and
    * 5 - ⌊rating⌋ - (half star ? 1 : 0) times. */
  lemma StarsShape(v: real)
    requires 0.0 <= v <= 5.0
    ensures 0 <= v.Floor <= 5
    ensures var half := v - v.Floor as real >= 0.5;
            var empty := 5 - v.Floor - (if half then 1 else 0);
            empty >= 0
            && StarsFor(Num(v)) == seq(v.Floor, _ => Full) + (if half then [Half] else []) + seq(empty, _ => Empty)
  {
    var full := v.Floor;
    var half := v - full as real >= 0.5;
    assert 0 <= full <= 5;
    assert full == 5 ==> !half;
    var empty: nat := 5 - full - (if half then 1 else 0);
    LoopCountOfWhole(full);
    assert FullStars(Num(v)) == Num(full as real);
    assert HasHalfStar(Num(v)) == half;
    assert EmptyStars(Num(v)) == Num(empty as real);
    LoopCountOfWhole(empty);
  }

  /** For a rating between 0 and 5 there are always five stars, and star `i`
    * (counting from 0) is full when the rating reaches i + 1, half when it
    * reaches only i + 0.5, and empty otherwise. */
  lemma StarsForRatingInRange(v: real)
    requires 0.0 <= v <= 5.0
    ensures var stars := StarsFor(Num(v));
            |stars| == 5
            && (forall i :: 0 <= i < 5 ==> (stars[i] == Full <==> i as real + 1.0 <= v))
            && (forall i :: 0 <= i < 5 ==> (stars[i] == Half <==> i as real + 0.5 <= v < i as real + 1.0))
            && (forall i :: 0 <= i < 5 ==> (stars[i] == Empty <==> v < i as real + 0.5))
  {
    StarsShape(v);
    var full := v.Floor;
    var half := v - full as real >= 0.5;
    var stars := StarsFor(Num(v));
    forall i | 0 <= i < 5
      ensures stars[i] == Full <==> i as real + 1.0 <= v
      ensures stars[i] == Half <==> i as real + 0.5 <= v < i as real + 1.0
      ensures stars[i] == Empty <==> v < i as real + 0.5
    {
      if i < full {
        assert stars[i] == Full;
      } else if i == full && half {
        assert stars[i] == Half;
      } else {
        assert stars[i] == Empty;
      }
    }
  }

  /** For a rating between 0 and 5: ⌊rating⌋ full stars, a half star exactly
    * when the fractional part is at least 0.5, and five stars in all. */
  lemma StarCountsInRange(v: real)
    requires 0.0 <= v <= 5.0
    ensures var stars := multiset(StarsFor(Num(v)));
            stars[Full] == v.Floor
            && (stars[Half] == 1 <==> v - v.Floor as real >= 0.5)
            && stars[Half] <= 1
            && stars[Full] + stars[Half] + stars[Empty] == 5
  {
    StarsShape(v);
    var full: nat := v.Floor;
    var half := v - full as real >= 0.5;
    var empty: nat := 5 - full - (if half then 1 else 0);
    var row := seq(full, _ => Full) + (if half then [Half] else []) + seq(empty, _ => Empty);
    assert StarsFor(Num(v)) == row;
    CountsOfRow(full, half, empty);
  }

  /** How often each kind of star occurs in a row of full stars, an optional
    * half star and empty stars. */
  lemma CountsOfRow(full: nat, half: bool, empty: nat)
    ensures var stars := multiset(seq(full, _ => Full) + (if half then [Half] else []) + seq(empty, _ => Empty));
            stars[Full] == full && stars[Half] == (if half then 1 else 0) && stars[Empty] == empty
  {
    CountInRepeat(Full, full, Full);
    CountInRepeat(Empty, empty, Full);
    CountInRepeat(Full, full, Half);
    CountInRepeat(Empty, empty, Half);
    CountInRepeat(Full, full, Empty);
    CountInRepeat(Empty, empty, Empty);
  }

  lemma {:induction false} CountInRepeat(star: Star, n: nat, other: Star)
    ensures multiset(seq(n, _ => star))[other] == if star == other then n else 0
  {
    if n > 0 {
      CountInRepeat(star, n - 1, other);
      assert seq(n, _ => star) == seq(n - 1, _ => star) + [star];
    }
  }

  /** A NaN rating draws no star at all. */
  lemma NoStarsForNaN()
    ensures StarsFor(NaN) == []
  {
  }

  /** A movie without ratings averages 0 and shows five empty stars. */
  lemma FiveEmptyStarsForZero()
    ensures StarsFor(Num(0.0)) == [Empty, Empty, Empty, Empty, Empty]
  {
    StarsForRatingInRange(0.0);
  }
}
