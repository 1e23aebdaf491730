/**
 * The catalogue's entities: reviews and tags are immutable values, a video
 * game and its per-value rating counter are objects whose fields are updated
 * in place.
 */
module Entities {
  import opened Wrappers

  /** A valid review rating lies in 1..5 (Review's invariant). */
  predicate ValidRating(x: int) {
    1 <= x <= 5
  }

  predicate AllValid(rs: seq<int>) {
    forall i :: 0 <= i < |rs| ==> ValidRating(rs[i])
  }

  /** A user's review; only its rating matters to the aggregates. */
  datatype Review = Review(rating: int)

  /** Shared, immutable reference data. */
  datatype Tag = Tag(id: nat, name: string)

  /** The ratings carried by a review collection, in collection order. */
  function RatingsOf(reviews: seq<Review>): seq<int> {
    seq(|reviews|, i requires 0 <= i < |reviews| => reviews[i].rating)
  }

  /** The abstract value of a `NumberOfRatingPerValue` object. */
  datatype Distribution = Distribution(one: nat, two: nat, three: nat, four: nat, five: nat)
  {
    function Total(): nat {
      one + two + three + four + five
    }
  }

  const NoRatings := Distribution(0, 0, 0, 0, 0)

  /** Five counters, one per rating value, each raised by one by its own method. */
  class NumberOfRatingPerValue {
    var one: nat
    var two: nat
    var three: nat
    var four: nat
    var five: nat

    function Counts(): Distribution
      reads this
    {
      Distribution(one, two, three, four, five)
    }

    constructor ()
      ensures Counts() == NoRatings
    {
      one, two, three, four, five := 0, 0, 0, 0, 0;
    }

    method IncreaseOne()
      modifies this
      ensures Counts() == old(Counts()).(one := old(one) + 1)
    {
      one := one + 1;
    }

    method IncreaseTwo()
      modifies this
      ensures Counts() == old(Counts()).(two := old(two) + 1)
    {
      two := two + 1;
    }

    method IncreaseThree()
      modifies this
      ensures Counts() == old(Counts()).(three := old(three) + 1)
    {
      three := three + 1;
    }

    method IncreaseFour()
      modifies this
      ensures Counts() == old(Counts()).(four := old(four) + 1)
    {
      four := four + 1;
    }

    method IncreaseFive()
      modifies this
      ensures Counts() == old(Counts()).(five := old(five) + 1)
    {
      five := five + 1;
    }
  }

  /** A catalogue entry with its reviews and the aggregates cached from them. */
  class VideoGame {
    var title: string
    /** The seed rating set by the fixtures; unrelated to the reviews. */
    var rating: int
    var tags: seq<Tag>
    var reviews: seq<Review>
    var averageRating: Option<int>
    var numberOfRatingsPerValue: NumberOfRatingPerValue

    /**
     * `new VideoGame()`. The entity leaves the title and the seed rating unset;
     * the empty title and the rating 0 here are placeholders, which no
     * operation of the model reads before the fixtures set them.
     */
    constructor ()
      ensures title == "" && rating == 0 && tags == [] && reviews == []
      ensures averageRating == None
      ensures fresh(numberOfRatingsPerValue) && numberOfRatingsPerValue.Counts() == NoRatings
    {
      title, rating, tags, reviews, averageRating := "", 0, [], [], None;
      numberOfRatingsPerValue := new NumberOfRatingPerValue();
    }

    function Ratings(): seq<int>
      reads this`reviews
    {
      RatingsOf(reviews)
    }

    /** Appends a review to the game's collection (Collection::add). */
    method AddReview(review: Review)
      modifies this`reviews
      ensures reviews == old(reviews) + [review]
    {
      reviews := reviews + [review];
    }

    /** Appends a tag to the game's collection (Collection::add). */
    method AddTag(tag: Tag)
      modifies this`tags
      ensures tags == old(tags) + [tag]
    {
      tags := tags + [tag];
    }
  }
}
