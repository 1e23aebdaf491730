/**
 * The rating aggregator: the rounded average and the per-value distribution
 * of a game's review ratings, both recomputed from the whole collection.
 */
module RatingHandler {
  import opened Wrappers
  import opened Entities

  /** The sum of the ratings. */
  function Sum(rs: seq<int>): int {
    if rs == [] then 0 else Sum(rs[..|rs| - 1]) + rs[|rs| - 1]
  }

  /** Number of occurrences of `v` among the ratings. */
  function CountOf(rs: seq<int>, v: int): nat {
    if rs == [] then 0 else CountOf(rs[..|rs| - 1], v) + (if rs[|rs| - 1] == v then 1 else 0)
  }

  /** The five counters a full recount of the ratings produces. */
  function DistributionOf(rs: seq<int>): Distribution {
    Distribution(CountOf(rs, 1), CountOf(rs, 2), CountOf(rs, 3), CountOf(rs, 4), CountOf(rs, 5))
  }

  /** s / n rounded half up, on integers: floor((2s + n) / 2n). */
  function RoundedMean(s: int, n: nat): int
    requires n > 0
  {
    (2 * s + n) / (2 * n)
  }

  /**
   * The rounded mean is the integer r with r - 1/2 <= s/n < r + 1/2,
   * written without fractions: the nearest integer, an exact half going up.
   */
  lemma RoundedMeanIsNearest(s: int, n: nat)
    requires n > 0
    ensures var r := RoundedMean(s, n); n * (2 * r - 1) <= 2 * s < n * (2 * r + 1)
  {
    var q := RoundedMean(s, n);
    assert 2 * n * q <= 2 * s + n < 2 * n * q + 2 * n;
    assert n * (2 * q - 1) == 2 * n * q - n;
    assert n * (2 * q + 1) == 2 * n * q + n;
  }

  /** The average rating: absent when there is no rating, otherwise the rounded mean. */
  function Average(rs: seq<int>): (r: Option<int>)
    ensures r.None? <==> rs == []
  {
    if rs == [] then None else Some(RoundedMean(Sum(rs), |rs|))
  }

  /** A present average is the mean of the ratings rounded half up. */
  lemma AverageIsRoundedMean(rs: seq<int>)
    requires rs != []
    ensures var r := Average(rs).value; |rs| * (2 * r - 1) <= 2 * Sum(rs) < |rs| * (2 * r + 1)
  {
    RoundedMeanIsNearest(Sum(rs), |rs|);
  }

  lemma LessByFactor(n: int, a: int, b: int)
    requires n > 0 && n * a < n * b
    ensures a < b
  {
  }

  /** The rounding condition pins the average down: at most one integer meets it. */
  lemma AverageUnique(rs: seq<int>, r: int)
    requires rs != []
    requires |rs| * (2 * r - 1) <= 2 * Sum(rs) < |rs| * (2 * r + 1)
    ensures Average(rs) == Some(r)
  {
    var n, q := |rs|, Average(rs).value;
    AverageIsRoundedMean(rs);
    LessByFactor(n, 2 * r - 1, 2 * q + 1);
    LessByFactor(n, 2 * q - 1, 2 * r + 1);
  }

  lemma {:induction false} SumAppend(a: seq<int>, b: seq<int>)
    ensures Sum(a + b) == Sum(a) + Sum(b)
  {
    if b == [] {
      assert a + b == a;
    } else {
      assert (a + b)[..|a + b| - 1] == a + b[..|b| - 1];
      SumAppend(a, b[..|b| - 1]);
    }
  }

  /** Removing the element at `k` removes its value from the sum. */
  lemma SumRemove(b: seq<int>, k: nat)
    requires k < |b|
    ensures Sum(b) == Sum(b[..k] + b[k + 1..]) + b[k]
  {
    assert b == (b[..k] + [b[k]]) + b[k + 1..];
    SumAppend(b[..k] + [b[k]], b[k + 1..]);
    SumAppend(b[..k], [b[k]]);
    SumAppend(b[..k], b[k + 1..]);
  }

  /** The sum depends only on the multiset of ratings. */
  lemma {:induction false} SumPermutation(a: seq<int>, b: seq<int>)
    requires multiset(a) == multiset(b)
    ensures Sum(a) == Sum(b)
  {
    if a == [] {
      assert |b| == |multiset(b)| == 0;
    } else {
      var x, a' := a[|a| - 1], a[..|a| - 1];
      assert a == a' + [x];
      assert x in multiset(b);
      var k :| 0 <= k < |b| && b[k] == x;
      var b' := b[..k] + b[k + 1..];
      assert b == b[..k] + [x] + b[k + 1..];
      assert multiset(b') == multiset(b) - multiset{x};
      SumPermutation(a', b');
      SumRemove(b, k);
    }
  }

  /** The average does not depend on the order in which reviews were added. */
  lemma AveragePermutation(a: seq<int>, b: seq<int>)
    requires multiset(a) == multiset(b)
    ensures Average(a) == Average(b)
  {
    SumPermutation(a, b);
    assert |a| == |multiset(a)| == |multiset(b)| == |b|;
  }

  lemma {:induction false} SumBounds(rs: seq<int>, lo: int, hi: int)
    requires forall i :: 0 <= i < |rs| ==> lo <= rs[i] <= hi
    ensures |rs| * lo <= Sum(rs) <= |rs| * hi
  {
    if rs != [] {
      SumBounds(rs[..|rs| - 1], lo, hi);
      assert |rs| * lo == (|rs| - 1) * lo + lo;
      assert |rs| * hi == (|rs| - 1) * hi + hi;
    }
  }

  /** A non-empty average lies between the smallest and the largest rating. */
  lemma AverageBounds(rs: seq<int>, lo: int, hi: int)
    requires rs != []
    requires forall i :: 0 <= i < |rs| ==> lo <= rs[i] <= hi
    ensures Average(rs).Some? && lo <= Average(rs).value <= hi
  {
    var n, r := |rs|, Average(rs).value;
    AverageIsRoundedMean(rs);
    SumBounds(rs, lo, hi);
    LessByFactor(n, 2 * lo, 2 * r + 1);
    LessByFactor(n, 2 * r - 1, 2 * hi + 1);
  }

  /** So the average of valid ratings is itself a valid rating. */
  lemma AverageIsValidRating(rs: seq<int>)
    requires rs != [] && AllValid(rs)
    ensures Average(rs).Some? && ValidRating(Average(rs).value)
  {
    AverageBounds(rs, 1, 5);
  }

  /** Each counter is the multiplicity of its value among the ratings. */
  lemma {:induction false} CountOfIsMultiplicity(rs: seq<int>, v: int)
    ensures CountOf(rs, v) == multiset(rs)[v]
  {
    if rs != [] {
      CountOfIsMultiplicity(rs[..|rs| - 1], v);
      assert rs == rs[..|rs| - 1] + [rs[|rs| - 1]];
    }
  }

  /** The distribution depends only on the multiset of ratings. */
  lemma DistributionPermutation(a: seq<int>, b: seq<int>)
    requires multiset(a) == multiset(b)
    ensures DistributionOf(a) == DistributionOf(b)
  {
    forall v | 1 <= v <= 5
      ensures CountOf(a, v) == CountOf(b, v)
    {
      CountOfIsMultiplicity(a, v);
      CountOfIsMultiplicity(b, v);
    }
  }

  /** With valid ratings the five counters add up to the number of reviews. */
  lemma {:induction false} DistributionTotal(rs: seq<int>)
    requires AllValid(rs)
    ensures DistributionOf(rs).Total() == |rs|
  {
    if rs != [] {
      DistributionTotal(rs[..|rs| - 1]);
    }
  }

  /** With valid ratings the sum, hence the average, follows from the counters. */
  lemma {:induction false} SumFromDistribution(rs: seq<int>)
    requires AllValid(rs)
    ensures var d := DistributionOf(rs);
      Sum(rs) == d.one + 2 * d.two + 3 * d.three + 4 * d.four + 5 * d.five
  {
    if rs != [] {
      SumFromDistribution(rs[..|rs| - 1]);
    }
  }

  /** `k` ratings all equal to `v`. */
  function Repeat(v: int, k: nat): (rs: seq<int>)
    ensures |rs| == k && forall i :: 0 <= i < k ==> rs[i] == v
  {
    if k == 0 then [] else Repeat(v, k - 1) + [v]
  }

  lemma {:induction false} SumRepeat(v: int, k: nat)
    ensures Sum(Repeat(v, k)) == k * v
  {
    if k > 0 {
      SumRepeat(v, k - 1);
      assert Repeat(v, k)[..k - 1] == Repeat(v, k - 1);
    }
  }

  lemma {:induction false} MultiplicityRepeat(v: int, k: nat, w: int)
    ensures multiset(Repeat(v, k))[w] == if w == v then k else 0
  {
    if k > 0 {
      MultiplicityRepeat(v, k - 1, w);
      assert Repeat(v, k) == Repeat(v, k - 1) + [v];
    }
  }

  lemma RatingsOfPrefix(reviews: seq<Review>, i: nat)
    requires i < |reviews|
    ensures RatingsOf(reviews[..i + 1]) == RatingsOf(reviews[..i]) + [reviews[i].rating]
  {
    assert reviews[..i + 1][..i] == reviews[..i];
  }

  /** Appending one valid rating raises exactly its own counter. */
  lemma DistributionAppend(rs: seq<int>, x: int)
    ensures DistributionOf(rs + [x]) == var d := DistributionOf(rs);
      if x == 1 then d.(one := d.one + 1)
      else if x == 2 then d.(two := d.two + 1)
      else if x == 3 then d.(three := d.three + 1)
      else if x == 4 then d.(four := d.four + 1)
      else if x == 5 then d.(five := d.five + 1)
      else d
  {
    assert (rs + [x])[..|rs + [x]| - 1] == rs;
  }

  /**
   * `calculateAverage`: recomputes the game's average rating from its whole
   * review collection; nothing else of the game changes.
   */
  method CalculateAverage(game: VideoGame)
    modifies game`averageRating
    ensures game.averageRating == Average(game.Ratings())
  {
    var n := |game.reviews|;
    if n == 0 {
      game.averageRating := None;
      return;
    }
    var sum, i := 0, 0;
    while i < n
      invariant 0 <= i <= n
      invariant sum == Sum(RatingsOf(game.reviews[..i]))
    {
      RatingsOfPrefix(game.reviews, i);
      sum := sum + game.reviews[i].rating;
      i := i + 1;
    }
    assert game.reviews[..n] == game.reviews;
    game.averageRating := Some(RoundedMean(sum, n));
  }

  /**
   * `countRatingsPerValue`: discards the previous counts and rebuilds them
   * from the whole review collection, one `increase` call per review.
   */
  method CountRatingsPerValue(game: VideoGame)
    requires AllValid(game.Ratings())
    modifies game`numberOfRatingsPerValue
    ensures fresh(game.numberOfRatingsPerValue)
    ensures game.numberOfRatingsPerValue.Counts() == DistributionOf(game.Ratings())
  {
    var counts := new NumberOfRatingPerValue();
    var i := 0;
    while i < |game.reviews|
      invariant 0 <= i <= |game.reviews|
      invariant counts.Counts() == DistributionOf(RatingsOf(game.reviews[..i]))
    {
      RatingsOfPrefix(game.reviews, i);
      var r := game.reviews[i].rating;
      assert ValidRating(game.Ratings()[i]);
      DistributionAppend(RatingsOf(game.reviews[..i]), r);
      if r == 1 {
        counts.IncreaseOne();
      } else if r == 2 {
        counts.IncreaseTwo();
      } else if r == 3 {
        counts.IncreaseThree();
      } else if r == 4 {
        counts.IncreaseFour();
      } else {
        counts.IncreaseFive();
      }
      i := i + 1;
    }
    assert game.reviews[..i] == game.reviews;
    game.numberOfRatingsPerValue := counts;
  }
}
