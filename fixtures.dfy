/**
 * The video-game fixtures: fifty games titled "Jeu vidéo i" with a seed
 * rating, five tags each chosen by position, then reviews appended one at a
 * time with the aggregates recomputed after every append.
 */
module VideoGameFixtures {
  import opened Wrappers
  import opened Entities
  import opened RatingHandler

  const GameCount := 50
  const TagsPerGame := 5

  // ---------- Titles and seed ratings ----------

  function DigitChar(d: nat): char
    requires d < 10
  {
    (48 + d) as char
  }

  predicate IsDigit(c: char) {
    48 <= c as int <= 57
  }

  /** The decimal form of `n`, as `sprintf('%d')` writes it. */
  function NatToString(n: nat): (s: string)
    ensures |s| >= 1 && forall i :: 0 <= i < |s| ==> IsDigit(s[i])
  {
    if n < 10 then [DigitChar(n)] else NatToString(n / 10) + [DigitChar(n % 10)]
  }

  /** Reads a string of decimal digits back as a number. */
  function ParseNat(s: string): nat
    requires forall i :: 0 <= i < |s| ==> IsDigit(s[i])
  {
    if s == [] then 0
    else
      assert IsDigit(s[|s| - 1]);
      10 * ParseNat(s[..|s| - 1]) + (s[|s| - 1] as int - 48)
  }

  /** Reading the decimal form back gives the number: the form is faithful. */
  lemma {:induction false} ParseNatToString(n: nat)
    ensures ParseNat(NatToString(n)) == n
  {
    var s := NatToString(n);
    if n >= 10 {
      ParseNatToString(n / 10);
      assert s[..|s| - 1] == NatToString(n / 10);
    } else {
      assert s[..0] == [];
    }
  }

  /** Hence different games get different numbers in their titles. */
  lemma NatToStringInjective(a: nat, b: nat)
    requires NatToString(a) == NatToString(b)
    ensures a == b
  {
    ParseNatToString(a);
    ParseNatToString(b);
  }

  lemma NatToStringLength(n: nat)
    requires n < 100
    ensures |NatToString(n)| == if n < 10 then 1 else 2
  {
  }

  /** Game `i`'s title: "Jeu vidéo i". */
  function Title(i: nat): string {
    "Jeu vidéo " + NatToString(i)
  }

  lemma TitleInjective(a: nat, b: nat)
    requires Title(a) == Title(b)
    ensures a == b
  {
    assert NatToString(a) == Title(a)[10..];
    assert NatToString(b) == Title(b)[10..];
    NatToStringInjective(a, b);
  }

  lemma TitlesDiffer(a: nat, b: nat)
    requires a != b
    ensures Title(a) != Title(b)
  {
    if Title(a) == Title(b) {
      TitleInjective(a, b);
    }
  }

  /** Game `i`'s seed rating, `(i % 5) + 1`. */
  function SeedRating(i: nat): int {
    (i % 5) + 1
  }

  /** Seed ratings are valid ratings and repeat every five games. */
  lemma SeedRatingValidAndPeriodic(i: nat)
    ensures ValidRating(SeedRating(i))
    ensures SeedRating(i + 5) == SeedRating(i)
    ensures SeedRating(i) == SeedRating(i % 5) && SeedRating(i % 5) == i % 5 + 1
  {
  }

  // ---------- Tag positions ----------

  /** The tag positions game `index` receives: `(index + k) % n` for k = 0..4. */
  function TagPositions(index: nat, n: nat): (ps: seq<nat>)
    requires n > 0
  {
    seq(TagsPerGame, k requires 0 <= k < TagsPerGame => (index + k) % n)
  }

  /** The tags game `index` receives, in the order they are added. */
  function TagsFor(index: nat, tags: seq<Tag>): (r: seq<Tag>)
    requires |tags| > 0
    ensures |r| == TagsPerGame
  {
    var ps := TagPositions(index, |tags|);
    seq(TagsPerGame, k requires 0 <= k < TagsPerGame => tags[ps[k]])
  }

  lemma MulAtLeast(k: int, n: int)
    requires k >= 1 && n > 0
    ensures k * n >= n
  {
    assert k * n == (k - 1) * n + n;
  }

  lemma ModUnique(z: int, q: int, m: int, n: int)
    requires n > 0 && z == q * n + m && 0 <= m < n
    ensures z % n == m
  {
    var q', m' := z / n, z % n;
    assert (q - q') * n == m' - m;
    if q - q' >= 1 {
      MulAtLeast(q - q', n);
    } else if q' - q >= 1 {
      MulAtLeast(q' - q, n);
    }
  }

  /** Stepping forward by less than `n` never returns to the same residue. */
  lemma ModStep(x: nat, d: nat, n: nat)
    requires 0 < d < n
    ensures (x + d) % n != x % n
  {
    var q, r := x / n, x % n;
    if r + d < n {
      ModUnique(x + d, q, r + d, n);
    } else {
      ModUnique(x + d, q + 1, r + d - n, n);
    }
  }

  /** Every position is a valid index into the tag list. */
  lemma TagPositionsInRange(index: nat, n: nat)
    requires n > 0
    ensures |TagPositions(index, n)| == TagsPerGame
    ensures forall k :: 0 <= k < TagsPerGame ==> TagPositions(index, n)[k] < n
  {
  }

  /** With at least five tags a game's five positions are pairwise distinct. */
  lemma TagPositionsDistinct(index: nat, n: nat)
    requires n >= TagsPerGame
    ensures forall a, b :: 0 <= a < b < TagsPerGame ==> TagPositions(index, n)[a] != TagPositions(index, n)[b]
  {
    forall a, b | 0 <= a < b < TagsPerGame
      ensures TagPositions(index, n)[a] != TagPositions(index, n)[b]
    {
      ModStep(index + a, b - a, n);
    }
  }

  /** Games `index` and `index + n` receive the same tags. */
  lemma TagPositionsPeriodic(index: nat, n: nat)
    requires n > 0
    ensures TagPositions(index + n, n) == TagPositions(index, n)
  {
    forall k | 0 <= k < TagsPerGame
      ensures TagPositions(index + n, n)[k] == TagPositions(index, n)[k]
    {
      var x := index + k;
      ModUnique(x + n, x / n + 1, x % n, n);
    }
  }

  // ---------- withTags ----------

  predicate Distinct(games: seq<VideoGame>) {
    forall i, j :: 0 <= i < j < |games| ==> games[i] != games[j]
  }

  /**
   * `withTags`: game `index` gets the tags at positions `(index + k) % n`,
   * k = 0..4, appended to its tag collection; nothing but tag collections
   * changes. With games and no tag the source divides by zero.
   */
  method WithTags(games: seq<VideoGame>, tags: seq<Tag>)
    requires |games| > 0 ==> |tags| > 0
    requires Distinct(games)
    modifies (set g | g in games)`tags
    ensures forall i :: 0 <= i < |games| ==> games[i].tags == old(games[i].tags) + TagsFor(i, tags)
  {
    for index := 0 to |games|
      invariant forall i :: 0 <= i < index ==> games[i].tags == old(games[i].tags) + TagsFor(i, tags)
      invariant forall i :: index <= i < |games| ==> games[i].tags == old(games[i].tags)
    {
      var game := games[index];
      for tagIndex := 0 to TagsPerGame
        invariant game.tags == old(game.tags) + TagsFor(index, tags)[..tagIndex]
        invariant forall i :: 0 <= i < index ==> games[i].tags == old(games[i].tags) + TagsFor(i, tags)
        invariant forall i :: index < i < |games| ==> games[i].tags == old(games[i].tags)
      {
        var tagPosition := (index + tagIndex) % |tags|;
        game.AddTag(tags[tagPosition]);
        assert TagsFor(index, tags)[..tagIndex + 1] == TagsFor(index, tags)[..tagIndex] + [tags[tagPosition]];
      }
      assert TagsFor(index, tags)[..TagsPerGame] == TagsFor(index, tags);
    }
  }

  // ---------- withRatings ----------

  /** One review per rating, in order. */
  function ReviewsOf(rs: seq<int>): (reviews: seq<Review>)
    ensures RatingsOf(reviews) == rs
  {
    seq(|rs|, k requires 0 <= k < |rs| => Review(rs[k]))
  }

  lemma ReviewsOfSnoc(rs: seq<int>, u: nat)
    requires u < |rs|
    ensures ReviewsOf(rs[..u + 1]) == ReviewsOf(rs[..u]) + [Review(rs[u])]
  {
  }

  lemma AllValidSnoc(reviews: seq<Review>, r: Review)
    requires AllValid(RatingsOf(reviews)) && ValidRating(r.rating)
    ensures AllValid(RatingsOf(reviews + [r]))
  {
    assert RatingsOf(reviews + [r]) == RatingsOf(reviews) + [r.rating];
  }

  /** The game's cached aggregates are those of its whole review collection. */
  predicate AggregatesCurrent(game: VideoGame)
    reads game, game.numberOfRatingsPerValue
  {
    && game.averageRating == Average(game.Ratings())
    && game.numberOfRatingsPerValue.Counts() == DistributionOf(game.Ratings())
  }

  /**
   * One step of `withRatings`: append a review, then recompute the average
   * and the distribution from the whole collection.
   */
  method AddReviewAndRecompute(game: VideoGame, rating: int)
    requires AllValid(game.Ratings()) && ValidRating(rating)
    modifies game`reviews, game`averageRating, game`numberOfRatingsPerValue
    ensures game.reviews == old(game.reviews) + [Review(rating)]
    ensures game.Ratings() == old(game.Ratings()) + [rating]
    ensures AllValid(game.Ratings())
    ensures AggregatesCurrent(game) && fresh(game.numberOfRatingsPerValue)
  {
    var review := Review(rating);
    AllValidSnoc(game.reviews, review);
    assert RatingsOf(game.reviews + [review]) == RatingsOf(game.reviews) + [rating];
    game.AddReview(review);
    CalculateAverage(game);
    CountRatingsPerValue(game);
  }

  /**
   * The inner loop of `withRatings` for one game: each rating becomes a
   * review appended to the collection, after which the average and the
   * distribution are recomputed from the whole collection. With no rating
   * nothing is recomputed.
   */
  method AddRatings(game: VideoGame, ratings: seq<int>)
    requires AllValid(game.Ratings()) && AllValid(ratings)
    modifies game`reviews, game`averageRating, game`numberOfRatingsPerValue
    ensures game.reviews == old(game.reviews) + ReviewsOf(ratings)
    ensures game.Ratings() == old(game.Ratings()) + ratings
    ensures ratings != [] ==> AggregatesCurrent(game) && fresh(game.numberOfRatingsPerValue)
    ensures ratings == [] ==>
      game.averageRating == old(game.averageRating)
      && game.numberOfRatingsPerValue == old(game.numberOfRatingsPerValue)
  {
    for u := 0 to |ratings|
      invariant game.reviews == old(game.reviews) + ReviewsOf(ratings[..u])
      invariant game.Ratings() == old(game.Ratings()) + ratings[..u]
      invariant AllValid(game.Ratings())
      invariant u > 0 ==> AggregatesCurrent(game) && fresh(game.numberOfRatingsPerValue)
      invariant u == 0 ==>
        game.averageRating == old(game.averageRating)
        && game.numberOfRatingsPerValue == old(game.numberOfRatingsPerValue)
    {
      ReviewsOfSnoc(ratings, u);
      assert ratings[..u + 1] == ratings[..u] + [ratings[u]];
      AddReviewAndRecompute(game, ratings[u]);
    }
    assert ratings[..|ratings|] == ratings;
  }

  /**
   * `withRatings`: every game gets its reviews appended, and a game that got
   * at least one review ends with aggregates that match its full collection.
   * Titles, seed ratings and tags do not change.
   */
  method WithRatings(games: seq<VideoGame>, ratings: seq<seq<int>>)
    requires |ratings| == |games| && Distinct(games)
    requires forall i :: 0 <= i < |games| ==> AllValid(games[i].Ratings()) && AllValid(ratings[i])
    modifies (set g | g in games)`reviews, (set g | g in games)`averageRating,
      (set g | g in games)`numberOfRatingsPerValue
    ensures forall i :: 0 <= i < |games| ==> games[i].reviews == old(games[i].reviews) + ReviewsOf(ratings[i])
    ensures forall i :: 0 <= i < |games| ==> games[i].Ratings() == old(games[i].Ratings()) + ratings[i]
    ensures forall i :: 0 <= i < |games| && ratings[i] != [] ==> AggregatesCurrent(games[i])
    ensures forall i :: 0 <= i < |games| && ratings[i] == [] ==>
      games[i].averageRating == old(games[i].averageRating)
      && games[i].numberOfRatingsPerValue == old(games[i].numberOfRatingsPerValue)
  {
    for index := 0 to |games|
      invariant forall i :: 0 <= i < index ==> games[i].reviews == old(games[i].reviews) + ReviewsOf(ratings[i])
      invariant forall i :: 0 <= i < index ==> games[i].Ratings() == old(games[i].Ratings()) + ratings[i]
      invariant forall i :: 0 <= i < index && ratings[i] != [] ==>
        AggregatesCurrent(games[i]) && fresh(games[i].numberOfRatingsPerValue)
      invariant forall i :: 0 <= i < index && ratings[i] == [] ==>
        games[i].averageRating == old(games[i].averageRating)
        && games[i].numberOfRatingsPerValue == old(games[i].numberOfRatingsPerValue)
      invariant forall i :: index <= i < |games| ==>
        && games[i].reviews == old(games[i].reviews)
        && games[i].averageRating == old(games[i].averageRating)
        && games[i].numberOfRatingsPerValue == old(games[i].numberOfRatingsPerValue)
    {
      var game := games[index];
      AddRatings(game, ratings[index]);
      // `Distinct` keeps every other game out of this call's frame.
      forall i | 0 <= i < |games| && i != index
        ensures games[i] != game
      {
      }
    }
  }

  // ---------- load ----------

  /**
   * `load`: creates the fifty games, game `i` titled "Jeu vidéo i" with seed
   * rating `(i % 5) + 1`, attaches their tags, then their reviews. The
   * generated review ratings are a parameter (`ratings[i]` for game `i`).
   */
  method Load(tags: seq<Tag>, ratings: seq<seq<int>>) returns (games: seq<VideoGame>)
    requires |tags| > 0 && |ratings| == GameCount
    requires forall i :: 0 <= i < GameCount ==> AllValid(ratings[i])
    ensures |games| == GameCount && Distinct(games)
    ensures forall i :: 0 <= i < GameCount ==> fresh(games[i])
    ensures forall i :: 0 <= i < GameCount ==>
      && games[i].title == Title(i)
      && games[i].rating == SeedRating(i)
      && games[i].tags == TagsFor(i, tags)
      && games[i].Ratings() == ratings[i]
      && AggregatesCurrent(games[i])
  {
    games := [];
    for index := 0 to GameCount
      invariant |games| == index && Distinct(games)
      invariant forall i :: 0 <= i < index ==> fresh(games[i]) && fresh(games[i].numberOfRatingsPerValue)
      invariant forall i :: 0 <= i < index ==>
        && games[i].title == Title(i) && games[i].rating == SeedRating(i)
        && games[i].tags == [] && games[i].reviews == []
        && AggregatesCurrent(games[i])
    {
      var game := new VideoGame();
      game.title := Title(index);
      game.rating := SeedRating(index);
      games := games + [game];
    }
    WithTags(games, tags);
    WithRatings(games, ratings);
  }
}
