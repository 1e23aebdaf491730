# CritiPixel rating aggregates, catalogue listing and fixtures

This project models the core of CritiPixel, a video-game review catalogue, in Dafny. It covers four parts.

- **The rating aggregator** (`RatingHandler`). It computes a game's average rating and its per-value rating distribution from the game's reviews. A game with no reviews has no average. A non-empty average is the mean rounded to the nearest integer, with a half rounded up. The distribution counts the reviews rated 1, 2, 3, 4 and 5. `CalculateAverage` and `CountRatingsPerValue` are methods that update a `VideoGame` object in place. Each is proved against a pure specification function (`Average`, `DistributionOf`). The properties of those functions are then proved as lemmas: nearest integer, bounds, independence from review order, and the distribution summing to the review count and the rating sum. The unit-test scenarios (`RatingTest`, `NotationTest`) are proved as concrete lemmas.
- **The listing** (`Listing`). It filters the catalogue and then orders, pages and labels the result. The filter is a case-sensitive substring search on the title, AND-ed with "the game carries every requested tag". The order is catalogue order by default, or by title in character-code order, descending by default. A page is the window `[(page-1)*limit, page*limit)`, clamped to the number of matches. The summary reports the offsets "from/to/total". The pagination bar appears only when there are two pages or more. It shows page numbers within three of the current page, "Première page"/"Précédent" after the first page, and "Suivant"/"Dernière page" before the last. A page or limit below 1 is rejected (a chosen rule; see below).
- **The fixtures** (`VideoGameFixtures`). They create fifty games titled "Jeu vidéo i", each with seed rating `i % 5 + 1`. Each game gets five tags, chosen by position `(i + k) % count(tags)`. Reviews are then appended one at a time, and both aggregates are recomputed after every append.
- **The functional listing test** (`FilterTest`, `TagFilterTest`). This covers the use cases the test builds with `createUseCase`, both as written and as evidently intended. For every use case, a proof shows that the listing over the fifty fixture games produces the page the test expects: first, second and last page, limit 25, limit 50, title order both ways, and search. The one-to-five tag filters are proved with 25 tags. With the twenty tags the tag fixtures create, the one-tag case fails (see Findings). Methods that call `createUseCase` as written with each provider entry show that it yields exactly the use cases those proofs are about.

The modules are `Wrappers` (Option/Result), `Entities`, `RatingHandler`, `RatingTest`, `NotationTest`, `Listing`, `VideoGameFixtures`, `FilterTest` and `TagFilterTest`.

The listing engine's own source is not part of this model. Its behaviour is reconstructed from what the functional test checks of it. The pagination window of three pages on either side of the current one is the rule chosen here, and it reproduces every label set the test expects. The source of `RatingHandler` and of the entity classes is not part of this model either. Their behaviour, modelled in the `RatingHandler` and `Entities` modules, is taken from the unit tests that exercise them.

## Model

| member | source | states |
|---|---|---|
| Entities.NumberOfRatingPerValue.constructor | tests/Unit/NotationTest.php:79-82 | A new counter holds zero for every rating value. |
| Entities.NumberOfRatingPerValue.IncreaseOne | tests/Unit/NotationTest.php:139-141 | Raises the count of 1-ratings by one and leaves the other four counts unchanged. |
| Entities.NumberOfRatingPerValue.IncreaseTwo | tests/Unit/NotationTest.php:143-145 | Raises the count of 2-ratings by one and leaves the other counts unchanged. |
| Entities.NumberOfRatingPerValue.IncreaseThree | tests/Unit/NotationTest.php:147-149 | Raises the count of 3-ratings by one and leaves the other counts unchanged. |
| Entities.NumberOfRatingPerValue.IncreaseFour | tests/Unit/NotationTest.php:151-153 | Raises the count of 4-ratings by one and leaves the other counts unchanged. |
| Entities.NumberOfRatingPerValue.IncreaseFive | tests/Unit/NotationTest.php:155-157 | Raises the count of 5-ratings by one and leaves the other counts unchanged. |
| Entities.VideoGame.constructor | tests/Unit/RatingTest.php:81-84 | A new game has no reviews and no tags, no average rating, and a fresh all-zero rating counter. |
| Entities.VideoGame.AddReview | tests/Unit/RatingTest.php:115-118 | Appends the review to the game's review collection and changes nothing else. |
| Entities.VideoGame.AddTag | src/Doctrine/DataFixtures/VideoGameFixtures.php:90 | Appends the tag to the game's tag collection and changes nothing else. |
| RatingHandler.RoundedMeanIsNearest | tests/Unit/RatingTest.php:123-144 | The rounded mean r of sum s over n ratings satisfies n(2r-1) <= 2s < n(2r+1): r is the nearest integer to s/n, and a half rounds up. |
| RatingHandler.Sum | tests/Unit/RatingTest.php:91-100 | The sum of the ratings, which the average divides. Its properties are `SumAppend`, `SumPermutation`, `SumBounds` and `SumFromDistribution`. |
| RatingHandler.DistributionOf | tests/Unit/NotationTest.php:44-51 | The five per-value counts of the ratings. Its properties are `CountOfIsMultiplicity`, `DistributionTotal`, `DistributionPermutation` and `DistributionAppend`. |
| RatingHandler.RoundedMean | tests/Unit/RatingTest.php:123-144 | The mean of a sum over n > 0 ratings, rounded half up; `RoundedMeanIsNearest` states what it computes. |
| RatingHandler.Average | tests/Unit/RatingTest.php:48-84 | There is no average exactly when there are no ratings. |
| RatingHandler.AverageIsRoundedMean | tests/Unit/RatingTest.php:17-20 | The average of a non-empty rating list is the integer nearest to the mean, with a half rounded up. |
| RatingHandler.AverageUnique | tests/Unit/RatingTest.php:17-20 | Any integer within half a rating of the mean, half up, is the average, so the rounding rule determines the average uniquely. |
| RatingHandler.SumAppend | tests/Unit/RatingTest.php:115-118 | The sum of a concatenation is the sum of the parts. |
| RatingHandler.SumRemove | tests/Unit/RatingTest.php:115-118 | Taking one rating out of a list lowers the sum by exactly that rating. |
| RatingHandler.SumPermutation | tests/Unit/RatingTest.php:91-100 | Two rating lists with the same multiset have the same sum. |
| RatingHandler.AveragePermutation | tests/Unit/RatingTest.php:91-100 | The average does not depend on the order in which reviews were added. |
| RatingHandler.SumBounds | tests/Unit/RatingTest.php:91-100 | n ratings within [lo, hi] sum to between n*lo and n*hi. |
| RatingHandler.AverageBounds | tests/Unit/RatingTest.php:91-100 | The average of ratings within [lo, hi] lies within [lo, hi]. |
| RatingHandler.AverageIsValidRating | tests/Unit/RatingTest.php:17-20 | The average of valid ratings (1 to 5) is itself a valid rating. |
| RatingHandler.CountOfIsMultiplicity | tests/Unit/NotationTest.php:44-51 | The count of a value is its multiplicity among the ratings. |
| RatingHandler.DistributionPermutation | tests/Unit/NotationTest.php:89-92 | The distribution does not depend on review order. |
| RatingHandler.DistributionTotal | tests/Unit/NotationTest.php:44-51 | The five counts of valid ratings add up to the number of reviews. |
| RatingHandler.SumFromDistribution | tests/Unit/NotationTest.php:44-51 | The rating sum is 1*ones + 2*twos + ... + 5*fives, which ties the distribution to the average. |
| RatingHandler.Repeat | tests/Unit/NotationTest.php:139-157 | k copies of v: the length is k and every element is v. |
| RatingHandler.SumRepeat | tests/Unit/NotationTest.php:139-157 | k copies of v sum to k*v. |
| RatingHandler.MultiplicityRepeat | tests/Unit/NotationTest.php:139-157 | k copies of v contain v k times and nothing else. |
| RatingHandler.RatingsOfPrefix | tests/Unit/RatingTest.php:115-118 | One more review adds exactly its rating to the end of the rating list. |
| RatingHandler.DistributionAppend | tests/Unit/NotationTest.php:130-160 | One more rating raises exactly its own value's count by one; a value outside 1..5 raises none. |
| RatingHandler.CalculateAverage | tests/Unit/RatingTest.php:63-70 | Sets the game's cached average to `Average` of its ratings (none when there are no reviews) and changes nothing else. |
| RatingHandler.CountRatingsPerValue | tests/Unit/NotationTest.php:58-67 | Installs a fresh counter whose five counts are the distribution of the game's ratings. |
| RatingTest.MakeVideoGameWithRatings | tests/Unit/RatingTest.php:111-121 | Builds a fresh game whose ratings are the given ones, in order, with no average yet and an all-zero counter. |
| RatingTest.SingleReviewAverage | tests/Unit/RatingTest.php:86-89 | A single review's rating is the average. |
| RatingTest.MultipleReviewsAverage | tests/Unit/RatingTest.php:91-100 | The ratings 1, 2, 2, 3, 3, 3, 4×4, 5×5 average to 4. |
| RatingTest.HalfRoundsUp | tests/Unit/RatingTest.php:133-144 | The ratings 4 and 5 average to 5. |
| RatingTest.CalculateAverageScenarios | tests/Unit/RatingTest.php:63-144 | Running `CalculateAverage` on the provider's three games (no reviews; a single 5; 1, 2, 2, ..., 5) and on the 4-and-5 game stores the averages none, 5, 4 and 5. |
| NotationTest.MakeExpectedCounts | tests/Unit/NotationTest.php:130-160 | Raising a fresh counter one, two, three, four and five times gives exactly those five counts. |
| NotationTest.MultiplicityGrouped | tests/Unit/NotationTest.php:130-160 | A grouped list with the given numbers of 1s to 5s holds each value exactly that many times. |
| NotationTest.ExpectedCountsAnyOrder | tests/Unit/NotationTest.php:84-92 | Any ordering of one 1 ... five 5s (or any other counts) has the distribution with those counts. |
| NotationTest.NoReviewCounts | tests/Unit/NotationTest.php:79-82 | No reviews give all-zero counts. |
| NotationTest.SingleReviewCounts | tests/Unit/NotationTest.php:84-87 | A single 5-rating gives five = 1 and zero elsewhere. |
| NotationTest.MultipleReviewsCounts | tests/Unit/NotationTest.php:89-92 | The ratings 1, 2, 2, ..., 5 give the counts 1, 2, 3, 4, 5. |
| NotationTest.CountRatingsPerValueScenarios | tests/Unit/NotationTest.php:58-92 | Running `CountRatingsPerValue` on the provider's three games leaves counters equal to those `makeExpectedCounts` builds: all zero; five = 1; and 1, 2, 3, 4, 5. |
| VideoGameFixtures.NatToString | src/Doctrine/DataFixtures/VideoGameFixtures.php:53 | The `%d` rendering of a natural number is a non-empty string of decimal digits. |
| VideoGameFixtures.ParseNatToString | src/Doctrine/DataFixtures/VideoGameFixtures.php:53 | Reading the decimal rendering back gives the number. |
| VideoGameFixtures.NatToStringInjective | src/Doctrine/DataFixtures/VideoGameFixtures.php:53 | Different numbers render differently. |
| VideoGameFixtures.NatToStringLength | src/Doctrine/DataFixtures/VideoGameFixtures.php:52-53 | Game indices below 10 render as one digit, the others below 100 as two. |
| VideoGameFixtures.Title | src/Doctrine/DataFixtures/VideoGameFixtures.php:53 | Game i's title is "Jeu vidéo " followed by i in decimal; `TitleInjective` and `TitlesDiffer` state that titles identify games. |
| VideoGameFixtures.TitleInjective | src/Doctrine/DataFixtures/VideoGameFixtures.php:52-53 | Equal titles "Jeu vidéo i" mean equal indices. |
| VideoGameFixtures.TitlesDiffer | src/Doctrine/DataFixtures/VideoGameFixtures.php:52-53 | The fifty fixture titles are pairwise different. |
| VideoGameFixtures.SeedRating | src/Doctrine/DataFixtures/VideoGameFixtures.php:57 | Game i's seed rating `i % 5 + 1`; `SeedRatingValidAndPeriodic` states its range and period. |
| VideoGameFixtures.SeedRatingValidAndPeriodic | src/Doctrine/DataFixtures/VideoGameFixtures.php:57 | The seed rating `i % 5 + 1` is a valid rating, repeats every five games, and equals the index modulo 5 plus one. |
| VideoGameFixtures.TagPositions | src/Doctrine/DataFixtures/VideoGameFixtures.php:86-87 | The five positions `(i + k) % n`, k = 0..4, from which game i takes its tags; `TagPositionsInRange`, `TagPositionsDistinct` and `TagPositionsPeriodic` state their properties. |
| VideoGameFixtures.TagsFor | src/Doctrine/DataFixtures/VideoGameFixtures.php:85-92 | Every game gets exactly five tags. |
| VideoGameFixtures.ModStep | src/Doctrine/DataFixtures/VideoGameFixtures.php:87 | Shifting an index by 0 < d < n changes its position modulo n. |
| VideoGameFixtures.TagPositionsInRange | src/Doctrine/DataFixtures/VideoGameFixtures.php:86-88 | The five chosen tag positions are valid indices into the tag list. |
| VideoGameFixtures.TagPositionsDistinct | src/Doctrine/DataFixtures/VideoGameFixtures.php:86-88 | With at least five tags, a game's five tags are pairwise different. |
| VideoGameFixtures.TagPositionsPeriodic | src/Doctrine/DataFixtures/VideoGameFixtures.php:87 | Games `count(tags)` apart get the same tags. |
| VideoGameFixtures.WithTags | src/Doctrine/DataFixtures/VideoGameFixtures.php:81-93 | Each game's tag list is extended by exactly its five tags `tags[(i + k) % count(tags)]`, k = 0..4, and nothing else changes. |
| VideoGameFixtures.ReviewsOf | src/Doctrine/DataFixtures/VideoGameFixtures.php:112-116 | The reviews built from a rating list carry those ratings in order. |
| VideoGameFixtures.AllValidSnoc | src/Doctrine/DataFixtures/VideoGameFixtures.php:115-118 | Adding a review rated 1 to 5 keeps every rating valid. |
| VideoGameFixtures.AddReviewAndRecompute | src/Doctrine/DataFixtures/VideoGameFixtures.php:110-123 | Appends one review; afterwards the cached average and counter match the game's ratings. |
| VideoGameFixtures.AddRatings | src/Doctrine/DataFixtures/VideoGameFixtures.php:109-124 | Appends one review per rating, in order; afterwards the aggregates are current, or untouched when no rating was added. |
| VideoGameFixtures.WithRatings | src/Doctrine/DataFixtures/VideoGameFixtures.php:103-126 | Every game gets its reviews appended in order; every game that received reviews ends with current aggregates, and the others are untouched. |
| VideoGameFixtures.Load | src/Doctrine/DataFixtures/VideoGameFixtures.php:48-72 | Creates fifty fresh, distinct games. Game i is titled "Jeu vidéo i", has seed rating `i % 5 + 1`, carries its five positional tags and its reviews, and ends with current aggregates. |
| Listing.OccursAtShift | tests/Functional/VideoGame/FilterTest.php:113-120 | An occurrence in the tail of a title is an occurrence one position later in the title. |
| Listing.Contains | tests/Functional/VideoGame/FilterTest.php:113-120 | The search matches a title exactly when the search text occurs somewhere in it. |
| Listing.Matches | tests/Functional/VideoGame/FilterTest.php:113-198 | A game matches when the search is absent or occurs in its title, and it carries every requested tag. |
| Listing.FilterEntries | tests/Functional/VideoGame/FilterTest.php:113-198 | The filtered list holds exactly the catalogue games that match the search and carry every requested tag, and is no longer than the catalogue. |
| Listing.FilterAppend | tests/Functional/VideoGame/FilterTest.php:113-198 | Filtering keeps catalogue order: filtering a concatenation filters each part. |
| Listing.FilterNothing | tests/Functional/VideoGame/FilterTest.php:49-79 | Without search or tags the whole catalogue matches, in order. |
| Listing.LastMatchListedLast | tests/Functional/VideoGame/FilterTest.php:113-198 | If the last game matches, it is the last listed position, and the rest describe the shorter catalogue. |
| Listing.LastMissUnlisted | tests/Functional/VideoGame/FilterTest.php:113-198 | If the last game does not match, the same positions describe the shorter catalogue. |
| Listing.FilterPositions | tests/Functional/VideoGame/FilterTest.php:113-198 | Given the increasing list of exactly the matching positions, the filter result is those games in that order. |
| Listing.MoreTagsNarrow | tests/Functional/VideoGame/FilterTest.php:122-198 | Requesting more tags narrows the result: it is the narrower filter applied to the wider result, and never longer. |
| Listing.LexLe | tests/Functional/VideoGame/FilterTest.php:81-111 | Character-code order on titles, a proper prefix first; the `LexLe` lemmas state that it is a total order. |
| Listing.LexLeTotal | tests/Functional/VideoGame/FilterTest.php:81-111 | Title order is total. |
| Listing.LexLeTransitive | tests/Functional/VideoGame/FilterTest.php:81-111 | Title order is transitive. |
| Listing.LexLeAntisymmetric | tests/Functional/VideoGame/FilterTest.php:81-111 | Titles ordered both ways are equal. |
| Listing.LexLePrefix | tests/Functional/VideoGame/FilterTest.php:97-111 | A title comes no later than any title it prefixes ("Jeu vidéo 1" before "Jeu vidéo 10"). |
| Listing.LexLeCommonPrefix | tests/Functional/VideoGame/FilterTest.php:81-111 | A common prefix does not affect the order of two titles. |
| Listing.InOrderTotal | tests/Functional/VideoGame/FilterTest.php:81-111 | Any two games are ordered one way or the other in either direction. |
| Listing.Insert | tests/Functional/VideoGame/FilterTest.php:81-111 | Inserting into a sorted list keeps it sorted, adds exactly the one game, and puts at the front either that game or the previous front. |
| Listing.SortEntries | tests/Functional/VideoGame/FilterTest.php:81-111 | The title sort is sorted and a permutation of its input. |
| Listing.SortedPairwise | tests/Functional/VideoGame/FilterTest.php:81-111 | In a sorted list every earlier game is in order with every later one. |
| Listing.SortedHead | tests/Functional/VideoGame/FilterTest.php:81-111 | With unique titles, a game that comes no later than all others heads the sorted list. |
| Listing.TakeFirst | tests/Functional/VideoGame/FilterTest.php:81-111 | Removing a shared first game leaves the same remaining games on both sides. |
| Listing.SortedFront | tests/Functional/VideoGame/FilterTest.php:81-111 | A list built by repeatedly taking the first remaining game in title order is a prefix of the sorted list. |
| Listing.ConsPrefix | tests/Functional/VideoGame/FilterTest.php:81-111 | A shared head followed by a prefix of the tail is a prefix. |
| Listing.Arrange | tests/Functional/VideoGame/FilterTest.php:81-111 | Ordering a result neither adds nor drops games. |
| Listing.TotalPages | tests/Functional/VideoGame/FilterTest.php:74-79 | The page count is the least number of pages of `limit` that holds all matches (ceil(total/limit)). |
| Listing.OffsetFrom | tests/Functional/VideoGame/FilterTest.php:51-65 | The summary's "from": (page-1)*limit + 1. `PageWindow` ties it to the cards shown. |
| Listing.OffsetTo | tests/Functional/VideoGame/FilterTest.php:51-79 | The summary's "to": page*limit, clamped to the total. `PageWindow` ties it to the cards shown. |
| Listing.PageSlice | tests/Functional/VideoGame/FilterTest.php:49-79 | The cards of a page: the window [(page-1)*limit, page*limit) of the ordered matches, clamped; `PageWindow`, `PagesPrefix` and `PagesCoverAll` state what it holds. |
| Listing.PageWindow | tests/Functional/VideoGame/FilterTest.php:239-249 | A page up to the last holds matches `from` to `to`, with 1 <= from <= to <= total, in order; a page past the last is empty. |
| Listing.PagesPrefix | tests/Functional/VideoGame/FilterTest.php:49-79 | The first k pages together are the first min(k*limit, total) matches. |
| Listing.PagesCoverAll | tests/Functional/VideoGame/FilterTest.php:49-79 | All pages together are exactly the matches, each once, in order. |
| Listing.Numbers | tests/Functional/VideoGame/FilterTest.php:251-261 | The page numbers from lo to hi: exactly those numbers, only numbers, and hi-lo+1 of them. |
| Listing.Window | tests/Functional/VideoGame/FilterTest.php:51-65 | The bar shows exactly the existing pages within three of the current one. |
| Listing.PaginationLinks | tests/Functional/VideoGame/FilterTest.php:251-261 | There is no bar exactly when there is at most one page. "Première page"/"Précédent" appear exactly after the first page, and "Suivant"/"Dernière page" exactly before the last. A page between 1 and the last, when there are two pages or more, shows its own number. |
| Listing.Build | tests/Functional/VideoGame/FilterTest.php:220-270 | The listing pipeline: filter, count, order, slice the page, then the offsets and the bar; `BuildContract` states what the page promises. |
| Listing.List | tests/Functional/VideoGame/FilterTest.php:230-236 | A request is rejected exactly when its page or limit is below 1; otherwise it is answered with the page built from its parameters and their defaults. |
| Listing.ItemsComeFromMatching | tests/Functional/VideoGame/FilterTest.php:113-198 | Every card shown is a catalogue game matching the filter. |
| Listing.PageOfSortedIsSorted | tests/Functional/VideoGame/FilterTest.php:81-111 | A page of a sorted result is sorted. |
| Listing.BuildContract | tests/Functional/VideoGame/FilterTest.php:235-269 | The total is the number of matches, and every card matches. A page up to the last shows to-from+1 cards; a later page shows none. Title order yields sorted cards, and catalogue order yields the page of the matches. There is no bar exactly when there is at most one page. |
| Listing.TotalPagesAtMostOne | tests/Functional/VideoGame/FilterTest.php:74-79 | At most `limit` matches fit in one page. |
| Listing.NoPaginationOnSinglePage | tests/Functional/VideoGame/FilterTest.php:252-253 | When all matches fit in one page, no pagination bar is shown. |
| FilterTest.BeforeLastPage | tests/Functional/VideoGame/FilterTest.php:322 | page < ceil(total/perPage) exactly when page*perPage < total. |
| FilterTest.LinksFor | tests/Functional/VideoGame/FilterTest.php:315-325 | The labels a use case expects: the backward pair past page 1, the given numbers ('1'-'4' by default), and the forward pair before page ceil(total/perPage). |
| FilterTest.CreateUseCase | tests/Functional/VideoGame/FilterTest.php:305-341 | Fills in the defaults. When a page is expected, the labels are the given or default numbers, preceded by the backward pair after page 1 and followed by the forward pair exactly when page*count < total. Without given titles, it expects count titles starting at "Jeu vidéo from-1". |
| FilterTest.ExpectedUseCase | tests/Functional/VideoGame/FilterTest.php:305-341 | `createUseCase` with pages counted by the request's limit; `ExpectedLinksMatchListing` states that its labels are the listing's bar. |
| FilterTest.LastPageAsWritten | tests/Functional/VideoGame/FilterTest.php:315-325 | As written, on the last page of a listing with two or more pages, the use case expects "Suivant" exactly when that page is partial, and the listing never shows "Suivant" on its last page. |
| FilterTest.ExpectedLinksMatchListing | tests/Functional/VideoGame/FilterTest.php:315-325 | With pages counted by the limit, the labels the use case expects are exactly the listing's pagination bar, for every page and total. |
| FilterTest.SummaryMatches | tests/Functional/VideoGame/FilterTest.php:235-261 | The test's card-count, summary and pagination assertions on a page: count, from, to and total agree. No bar when no page is expected; otherwise the active page is shown and the label set has the expected size and labels. |
| FilterTest.TitlesMatch | tests/Functional/VideoGame/FilterTest.php:263-269 | The test's title assertions: the k-th card carries the k-th expected title. |
| FilterTest.UnfilteredSummary | tests/Functional/VideoGame/FilterTest.php:235-261 | Without a filter, every page up to the last shows its card count, from/to/50 summary, active page and labels. |
| FilterTest.UnfilteredItems | tests/Functional/VideoGame/FilterTest.php:49-111 | Without a filter the cards are a page of the whole catalogue in the requested order. |
| FilterTest.CatalogueSliceTitles | tests/Functional/VideoGame/FilterTest.php:335-339 | A page of the fixture games in catalogue order shows "Jeu vidéo from-1" onwards, one card per offset. |
| FilterTest.CatalogueOrderTitles | tests/Functional/VideoGame/FilterTest.php:263-269 | In catalogue order the cards carry the default consecutive titles. |
| FilterTest.CatalogueOrderPage | tests/Functional/VideoGame/FilterTest.php:220-270 | Every unfiltered page in catalogue order passes all the test's assertions against the corrected use case. |
| FilterTest.NumbersFrom | tests/Functional/VideoGame/FilterTest.php:56 | The numbers lo to hi, written out label by label. |
| FilterTest.FirstPageCase | tests/Functional/VideoGame/FilterTest.php:49 | "First page": 10 cards, 1 to 10 of 50, page 1, labels 1-4 with "Suivant"/"Dernière page", games 0 to 9. |
| FilterTest.SecondPageCase | tests/Functional/VideoGame/FilterTest.php:51-57 | "Page #2": 11 to 20 of 50, labels 1-5 with both pairs, games 10 to 19. |
| FilterTest.LastPageCase | tests/Functional/VideoGame/FilterTest.php:59-65 | "Last page": 41 to 50 of 50, labels 2-5 with only the backward pair, games 40 to 49. |
| FilterTest.LimitTwentyFiveCase | tests/Functional/VideoGame/FilterTest.php:67-72 | "Limit at 25": 25 cards, 1 to 25 of 50, labels 1-2 and the forward pair. |
| FilterTest.LimitFiftyCase | tests/Functional/VideoGame/FilterTest.php:74-79 | "Limit at 50": 50 cards, 1 to 50 of 50, no pagination bar. |
| FilterTest.DigitCharOrder | tests/Functional/VideoGame/FilterTest.php:81-111 | Digit characters are ordered as their digits. |
| FilterTest.DigitsOrder | tests/Functional/VideoGame/FilterTest.php:81-111 | For indices below 100, the decimal renderings compare as the rank 20*i (one digit) or 2*i+1 (two digits). |
| FilterTest.TitleOrderByRank | tests/Functional/VideoGame/FilterTest.php:81-111 | Fixture titles compare by that rank: "Jeu vidéo 4" falls between "Jeu vidéo 39" and "Jeu vidéo 40". |
| FilterTest.DistinctAtMostOnce | tests/Functional/VideoGame/FilterTest.php:81-111 | A list without repeats holds each game at most once. |
| FilterTest.CatalogueTitlesDistinct | src/Doctrine/DataFixtures/VideoGameFixtures.php:52-53 | No two fixture games share a title. |
| FilterTest.ReorderedUniqueTitles | tests/Functional/VideoGame/FilterTest.php:81-111 | Any reordering of the fixture games keeps titles unique. |
| FilterTest.ListedNotRepeated | tests/Functional/VideoGame/FilterTest.php:81-111 | Listing distinct positions never repeats a game. |
| FilterTest.NotInPrefix | tests/Functional/VideoGame/FilterTest.php:81-111 | A game still remaining, held once, is not among those already taken. |
| FilterTest.FrontStep | tests/Functional/VideoGame/FilterTest.php:81-111 | Each next lead game is still remaining and comes no later than every remaining game. |
| FilterTest.KeysIncrease | tests/Functional/VideoGame/FilterTest.php:81-111 | Keys increasing step by step increase between any two positions. |
| FilterTest.LeadsStep | tests/Functional/VideoGame/FilterTest.php:81-111 | A key-ordered lead takes each game once and always the best-ranked game not yet taken. |
| FilterTest.TitleSortedFront | tests/Functional/VideoGame/FilterTest.php:81-111 | The title sort of the fixture games begins with any key-ordered lead. |
| FilterTest.TitleOrderTitles | tests/Functional/VideoGame/FilterTest.php:263-269 | Sorting by title shows the lead's titles on the first page. |
| FilterTest.TitleOrderFirstPage | tests/Functional/VideoGame/FilterTest.php:81-111 | The first page sorted by title passes every assertion, with the lead's titles. |
| FilterTest.DescendingLeads | tests/Functional/VideoGame/FilterTest.php:84-93 | Games 9, 8, 7, 6, 5, 49, 48, 47, 46, 45 are, in order, the ten titles that come last in character-code order. |
| FilterTest.AscendingLeads | tests/Functional/VideoGame/FilterTest.php:100-109 | Games 0, 1, 10, ..., 17 are, in order, the ten titles that come first. |
| FilterTest.TitleDescendingCase | tests/Functional/VideoGame/FilterTest.php:81-95 | "Sorting by title": the first page shows "Jeu vidéo 9" ... "Jeu vidéo 45" and the page-1 bar. |
| FilterTest.TitleAscendingCase | tests/Functional/VideoGame/FilterTest.php:97-111 | "Direction on ascending": the first page shows "Jeu vidéo 0", "1", "10" ... "17". |
| FilterTest.OtherTitlesMiss | tests/Functional/VideoGame/FilterTest.php:113-120 | A two-digit title does not occur in any other fixture title. |
| FilterTest.SearchMatchesOnlyItself | tests/Functional/VideoGame/FilterTest.php:113-120 | Searching a two-digit game's full title finds that game alone. |
| FilterTest.SliceOfFew | tests/Functional/VideoGame/FilterTest.php:113-120 | At most ten matches all fit on the first page of ten. |
| FilterTest.DefaultPaging | tests/Functional/VideoGame/FilterTest.php:113-198 | A request with only a filter is page 1 of 10 in catalogue order. |
| FilterTest.FewMatchesItems | tests/Functional/VideoGame/FilterTest.php:113-198 | With at most ten matches the first page shows all of them, and the total is their number. |
| FilterTest.FewMatchesNoBar | tests/Functional/VideoGame/FilterTest.php:113-198 | With at most ten matches there is no bar, and the summary ends at the number of matches. |
| FilterTest.FewMatchesBuild | tests/Functional/VideoGame/FilterTest.php:113-198 | The complete page for at most ten matches. |
| FilterTest.FewMatchesList | tests/Functional/VideoGame/FilterTest.php:113-198 | The request is answered with that page. |
| FilterTest.FewCardsMatch | tests/Functional/VideoGame/FilterTest.php:235-269 | That page meets the summary and title assertions of an n-of-n use case without page. |
| FilterTest.FewMatchesPage | tests/Functional/VideoGame/FilterTest.php:220-270 | A filter matching at most ten games, listed by position, passes every assertion with their titles. |
| FilterTest.SearchCase | tests/Functional/VideoGame/FilterTest.php:113-120 | "Filter by search": searching "Jeu vidéo 49" shows one card, 1 to 1 of 1, no bar, "Jeu vidéo 49". |
| FilterTest.PagedProviderAsWritten | tests/Functional/VideoGame/FilterTest.php:49-79 | `createUseCase` as written, given the arguments of the five unfiltered entries, returns exactly the use cases `FirstPageCase` ... `LimitFiftyCase` prove. |
| FilterTest.TitleProviderAsWritten | tests/Functional/VideoGame/FilterTest.php:81-111 | `createUseCase` as written returns exactly the use cases of `TitleDescendingCase` and `TitleAscendingCase`. |
| FilterTest.SearchProviderAsWritten | tests/Functional/VideoGame/FilterTest.php:113-120 | `createUseCase` as written returns exactly the use case of `SearchCase`. |
| TagFilterTest.TagsForIds | src/Doctrine/DataFixtures/VideoGameFixtures.php:83-91 | With tag ids 1..n in creation order, game i's tag ids are `(i + k) % n + 1`, k = 0..4. |
| TagFilterTest.FirstTagsContents | tests/Functional/VideoGame/FilterTest.php:122-198 | The requested tags "1" to "m" are the ids 1 to m. |
| TagFilterTest.Range | tests/Functional/VideoGame/FilterTest.php:122-198 | The run of game indices from lo below hi has hi-lo games. |
| TagFilterTest.PositionStep | src/Doctrine/DataFixtures/VideoGameFixtures.php:87 | Adding k < n to an index advances its position modulo n by k, wrapping once. |
| TagFilterTest.CarriesFirstTags | src/Doctrine/DataFixtures/VideoGameFixtures.php:85-92 | With n > 5 tags, game i carries tags 1..m exactly when i % n is 0 or at least n-5+m. |
| TagFilterTest.Runs | tests/Functional/VideoGame/FilterTest.php:122-198 | Game 0 followed by two runs has 1 + (b-a) + (d-c) games. |
| TagFilterTest.RunsContents | tests/Functional/VideoGame/FilterTest.php:122-198 | Those positions increase and are exactly 0, a..b-1 and c..d-1. |
| TagFilterTest.TagMatches | tests/Functional/VideoGame/FilterTest.php:122-198 | A fixture game passes the first-m-tags filter exactly when i % n is 0 or at least n-5+m. |
| TagFilterTest.TwentyTagsOneTag | src/Doctrine/DataFixtures/TagFixtures.php:20 | With the twenty fixture tags, tag 1 is carried by games 0, 16-20 and 36-40: eleven games. |
| TagFilterTest.TwentyTagsMissOneTagCase | tests/Functional/VideoGame/FilterTest.php:122-138 | With twenty tags, the "filter by 1 tag" use case does not hold. |
| TagFilterTest.TwentyFiveTagPositions | tests/Functional/VideoGame/FilterTest.php:122-198 | With 25 tags, tags 1..m are carried by game 0 and games 20+m..25 and 45+m..49, and by no other game. |
| TagFilterTest.TwentyFiveTagPage | tests/Functional/VideoGame/FilterTest.php:122-198 | With 25 tags, filtering by tags 1..m shows those 12-2m games, n of n, with no bar. |
| TagFilterTest.OneTagCase | tests/Functional/VideoGame/FilterTest.php:122-138 | "Filter by 1 tag": 10 of 10, games 0, 21-25, 46-49. |
| TagFilterTest.TwoTagsCase | tests/Functional/VideoGame/FilterTest.php:140-156 | "Filter by 2 tags": 8 of 8, games 0, 22-25, 47-49. |
| TagFilterTest.ThreeTagsCase | tests/Functional/VideoGame/FilterTest.php:158-172 | "Filter by 3 tags": 6 of 6, games 0, 23-25, 48, 49. |
| TagFilterTest.FourTagsCase | tests/Functional/VideoGame/FilterTest.php:174-186 | "Filter by 4 tags": 4 of 4, games 0, 24, 25, 49. |
| TagFilterTest.FiveTagsCase | tests/Functional/VideoGame/FilterTest.php:188-198 | "Filter by 5 tags": 2 of 2, games 0 and 25. |
| TagFilterTest.TagProviderAsWritten | tests/Functional/VideoGame/FilterTest.php:122-198 | `createUseCase` as written returns exactly the use cases of `OneTagCase` ... `FiveTagsCase`. |

## Left out

- HTTP, the DOM and CSS selectors are not modelled. The test's assertions are read as statements about the listing's page value: card count, summary numbers, active page, label set and titles in order. The summary sentence's wording (`sprintf`) is not modelled.
- Persistence, `persist` and `flush` are not modelled. Games are in-memory objects, and the catalogue the listing sees is a sequence of (title, tag ids) entries in load order.
- Faker is not modelled. Descriptions, test text and review comments are left out. The random review ratings (`numberBetween(1, 5)`) are a parameter of `WithRatings`/`Load`, each required to lie in 1..5.
- Users are not modelled. This covers `UserFixtures` and the choice of reviewers by `$gameIndex % 5`. The number of reviews per game is whatever the ratings parameter holds.
- Release dates, image names and image sizes of the fixture games are not modelled; no operation reads them.
- `array_fill_callback` is not part of this model. It is read as `[f(start), ..., f(start + count - 1)]`.
- Listing.Contains: the search is modelled as a case-sensitive substring test on the title. The engine's SQL matching (collation, `LIKE` wildcards) is not part of this model.
- TagFilterTest.TagsForIds: tag ids are assumed to be 1..n in creation order, since `TagFixtures` creates "Tag 1" to "Tag n" one after the other and ids come from the database.
- Listing.List: rejecting a page or limit below 1 is a chosen rule. The test never sends one, and the engine might clamp instead; its own rule is not part of this model.
- Listing.PaginationLinks: the window of three pages either side of the current page is a chosen rule. It is the one that reproduces every label set the test expects; the engine's own rule is not part of this model.
- Listing.SortEntries: title order is modelled as character-code order, not a locale collation, and ties do not occur among the fixture titles.
- FilterTest.CreateUseCase: the count and total are naturals. With a page expected, a count of 0 would make `ceil(total / count)` a division by zero in the test helper, so the method requires a positive count there.
- RatingHandler.Average: rounding is stated for the valid ratings 1..5. For negative sums the model rounds half up, which differs from PHP's `round` (half away from zero). No valid rating list has a negative sum.
- RatingHandler.CountRatingsPerValue: the counter is reset by installing a fresh all-zero counter object rather than by zeroing the existing one in place, so aliasing of the old counter is not modelled.
- VideoGameFixtures.WithTags: requires at least one tag (and `Load` likewise). With no tags, `% count($tags)` would fail with a modulo-by-zero error; that failure is not modelled.
- VideoGameFixtures.WithTags: duplicate tags are not removed. When fewer than five tags exist, a game's tag collection receives the repeated tag again, as the list append does.

## Findings

| source | as written | input that shows it | evidently intended | confidence | as-written member | corrected member |
|---|---|---|---|---|---|---|
| tests/Functional/VideoGame/FilterTest.php:322 | The use case counts pages as `ceil(expectedTotal / expectedCount)`: total matches over the cards on the page. | total 45, limit 10, last page 5 with 5 cards: ceil(45/5) = 9 > 5, so "Suivant" and "Dernière page" are expected on the last page, where the listing shows neither. | Count pages as ceil(total / limit), the request's page size, as the listing does. | not executed | FilterTest.LastPageAsWritten | FilterTest.ExpectedLinksMatchListing |
| tests/Functional/VideoGame/FilterTest.php:122-198 | With the twenty tags of src/Doctrine/DataFixtures/TagFixtures.php:20, position `(i + k) % 20` gives tag 1 to games 0, 16-20 and 36-40. | "Filter by 1 tag" (tags ["1"]): eleven games match, not the ten listed (0, 21-25, 46-49). | The expected games are those a 25-tag fixture produces: tags 1..m on game 0 and games 20+m..25 and 45+m..49. | not executed | TagFilterTest.TwentyTagsMissOneTagCase | TagFilterTest.TwentyFiveTagPage |
