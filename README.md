# E-tongue taste scoring and age estimation, in Dafny

This project models the domain logic of the electronic-tongue front end
`webfinal13.py`: the part that turns five sensor readings into a taste
profile and a freshness estimate. The five readings are pH, conductivity, TDS,
IR voltage and dielectric constant.

- **Membership** (`membership.dfy`): `fuzzy`, the triangular fuzzy
  membership function. It is 0 outside the open support, 1 at the peak, and
  a linear ramp on each side.
- **Tastes** (`tastes.dfy`): the six taste categories in declaration order
  (Pungent, Sweet, Sour, Astringent, Bitter, Salt) and the fixed table of 30
  (attribute, taste, low, mid, high) triples. `taste_scores` becomes the
  method `TasteScores`. It starts every score at 0.0 and makes the thirty
  `+=` updates in the source's order. It is proved to produce, for every
  taste, the table-defined `RawScore`: the sum of that taste's five
  membership degrees.
- **Ranking** (`ranking.dfy`): normalisation and ranking, lifted out of
  `input_window.run`. The steps are: the total, with its `1e-9` fallback for
  a zero total; the percentage map; and the stable descending sort. The
  sort is modelled as an insertion sort, the method `Rank`. Its output is
  proved to be a permutation of the six (taste, percentage) pairs, strictly
  ordered by "larger percentage first, then declaration order". A uniqueness
  lemma shows that this order determines the list, so any stable sort
  yields the same ranking.
- **Ratio** (`ratio.dfy`): elementary facts about dividing by a positive
  real, shared by the membership ramps and the normalisation.
- **Age** (`age.dfy`): `analyze_age`. It classifies pH by first match into
  five brackets, then adjusts the days by up to 5 according to the IR
  voltage.
- **Analysis** (`analysis.dfy`): one run of the scoring block at
  webfinal13.py:242-249. It goes from raw scores to percentages, ranking,
  dominant taste and age report. It also has a fully worked sample reading.

Arithmetic is exact over `real`. Every table constant is an exact decimal
literal.

## Model

| member | source | states |
|---|---|---|
| Membership.Fuzzy | webfinal13.py:56-63 | the degree lies in [0, 1], is 0 when `v <= low` or `v >= high`, and is 1 at the peak inside the support |
| Membership.FuzzySupport | webfinal13.py:59-63 | for `low < mid < high` the degree is positive exactly when `low < v < high` |
| Membership.FuzzyPeak | webfinal13.py:60-63 | for `low < mid < high` the degree is 1 exactly at `v == mid` |
| Membership.FuzzyRising | webfinal13.py:61-62 | up to the peak the degree is monotone non-decreasing in `v` |
| Membership.FuzzyFalling | webfinal13.py:63 | after the peak the degree is monotone non-increasing in `v` |
| Membership.FuzzyIsTriangle | webfinal13.py:59-63 | the piecewise definition equals the closed form `max(0, min((v-low)/(mid-low), (high-v)/(high-mid)))` for every `v` |
| Tastes.Idx | webfinal13.py:66 | each taste's position in the declaration order of the score dictionary |
| Tastes.IdxOrder | webfinal13.py:66 | positions and the declaration order are inverse to each other |
| Tastes.Table | webfinal13.py:68-106 | every one of the 30 (attribute, taste) triples satisfies `low < mid < high` |
| Tastes.RawScore | webfinal13.py:65-108 | each raw score is a sum of five membership degrees, one per attribute, so it lies in [0, 5] |
| Tastes.RawScoreRows | webfinal13.py:68-106 | each taste's raw score, written out as the five literal `fuzzy` calls that the source adds to that taste |
| Tastes.Degree | webfinal13.py:69-106 | one table contribution lies in [0, 1], and is positive exactly when the reading lies strictly inside that entry's (low, high) |
| Tastes.Scores.Add | webfinal13.py:69-106 | one `s[t] += x` adds `x` to `t` and leaves every other taste unchanged |
| Tastes.RawScores | webfinal13.py:65-108 | the returned dictionary holds, under each taste's key, that taste's raw score, and every entry lies in [0, 5] (five degrees in [0, 1] each) |
| Tastes.ScoresEqual | webfinal13.py:66 | two score dictionaries are equal exactly when their six lookups `s[t]` agree, so the six tastes are the only keys |
| Tastes.AddCommutes | webfinal13.py:68-106 | any two updates commute, so the order of the thirty additions does not matter |
| Tastes.TasteScores | webfinal13.py:65-108 | after the thirty updates in source order, every taste's score equals its table-defined raw score |
| Ranking.Items | webfinal13.py:245 | `percent.items()`: six pairs in declaration order, each taste paired with its own value |
| Ranking.Total | webfinal13.py:243 | `sum(raw.values())`, which is non-negative when every raw score is |
| Ranking.Percentages | webfinal13.py:244 | the percentage dictionary; non-negative raw scores give non-negative percentages |
| Ranking.Denominator | webfinal13.py:243 | the divisor is never 0; it is the total when the total is non-zero, and positive when the total is non-negative |
| Ranking.PercentagesSumTo100 | webfinal13.py:243-244 | whenever the raw total is non-zero, the percentages sum to exactly 100 |
| Ranking.PercentagesBounded | webfinal13.py:243-244 | with non-negative raw scores, every percentage lies in [0, 100] |
| Ranking.PercentagesAllZero | webfinal13.py:243-244 | with non-negative raw scores and a zero total, the `1e-9` fallback makes every percentage 0 |
| Ranking.PercentagesKeepOrder | webfinal13.py:243-245 | with a positive total, two tastes compare and tie as percentages exactly as they do as raw scores |
| Ranking.Insert | webfinal13.py:245 | inserting one item yields the old items plus that item, as a multiset |
| Ranking.InsertRanked | webfinal13.py:245 | inserting an item declared after all present items keeps the list ranked: it goes after the equal and larger values |
| Ranking.Rank | webfinal13.py:245 | the sorted list is a permutation of `percent.items()`, descending by percentage, with ties in declaration order |
| Ranking.RankedUnique | webfinal13.py:245 | two ranked permutations of the same items are equal, so the ranking is determined by the stable-sort order |
| Analysis.RankedHead | webfinal13.py:245-247 | the first entry's value is that taste's own percentage, at least every other taste's, and on a tie it is declared first |
| Analysis.Breakdown | webfinal13.py:242-247 | for any taste: its percentage lies in [0, 100]; it is 0 when the total is 0; it is at most the dominant's, in percentage and in raw score; and a tie with the dominant means the dominant is declared first |
| Analysis.RawDominance | webfinal13.py:243-247 | the taste with the largest percentage also has the largest raw score, including under the zero-total fallback |
| Analysis.BreakdownAll | webfinal13.py:242-247 | the breakdown for all tastes at once, plus the sum of 100 when the total is positive |
| Analysis.RawScoresNonNegative | webfinal13.py:65-108 | raw scores are never negative |
| Analysis.Analyze | webfinal13.py:242-249 | the run's raw scores, percentages, ranking, dominant (the first ranked entry, maximal, ties to declaration order) and age report |
| Analysis.SampleScores | webfinal13.py:65-108 | the reading (6.2, 1.0, 500, 2.0, 40) scores Pungent 29/15, Sweet 1, Sour 169/90, Astringent 229/90, Bitter 44/15, Salt 0 |
| Analysis.SamplePercentages | webfinal13.py:243-244 | the sample's total is 463/45, and its percentages are the raw scores scaled by 4500/463 |
| Analysis.SampleRankedIsRanked | webfinal13.py:245 | the expected sample ranking (Bitter, Astringent, Pungent, Sour, Sweet, Salt) is in descending order |
| Analysis.SampleRankedIsPermutation | webfinal13.py:245 | the expected sample ranking is a permutation of the sample's items |
| Analysis.SampleRanking | webfinal13.py:245-247 | every ranking of the sample is that list, so its dominant taste is Bitter at 13200/463 percent |
| Age.Bracket | webfinal13.py:118-122 | the first-match chain as five disjoint pH intervals closed on the right (≤3, ≤4, ≤5.2, ≤6.5, above), each an if-and-only-if with its report |
| Age.AnalyzeAge | webfinal13.py:113-127 | days lie in [0, 60]; the labels come from the pH bracket alone; for `2 <= ir <= 4` the days are the bracket's; `ir < 2` adds 5 capped at 60, and `ir > 4` subtracts 5 floored at 0 |
| Age.DaysMonotoneInPh | webfinal13.py:118-127 | at a fixed IR, a higher pH never gives fewer days |
| Age.DaysAntitoneInIr | webfinal13.py:124-127 | at a fixed pH, a higher IR voltage never gives more days |
| Age.AgeExamples | webfinal13.py:118-127 | the bracket boundaries: pH 3 → 0 days "Very Fresh", 3.01 and 4 → 15 "Fresh", 5.2 → 30, 6.5 → 45, 6.51 → 60; and the IR adjustments at both caps |
| Age.AnalyzeAgeOf | webfinal13.py:113-127 | a reading that cannot be parsed gives the fixed report (0, "Unknown", "Invalid", "Invalid"); parsed readings give exactly the report of `AnalyzeAge`, whose status is never "Unknown" and whose days lie in [0, 60] |

## Left out

- The Tkinter input form, output window, scrollbars, text rendering and main loop (webfinal13.py:151-200, 208-240, 251-268, 273-288). These are presentation only. The formatted result text, including its `.2f` rounding, is not modelled.
- The Matplotlib bar chart (webfinal13.py:152-197). This is a foreign display library.
- GPIO setup, the mock GPIO class and the LED pin table (webfinal13.py:22-51). This is hardware I/O.
- `light_led` and its daemon thread with `time.sleep` (webfinal13.py:132-145). These are concurrency and hardware side effects; the model stops at the dominant taste.
- `float()` parsing and its bare `except` fallbacks (webfinal13.py:57-58, 114-116, 232-240). Every model operation takes `real` inputs. The invalid-input report of `analyze_age` is kept, through `Option<real>` in `Age.AnalyzeAgeOf`. In `fuzzy` the fallback is unreachable, because every caller passes floats.
- NaN readings. Python's `float()` accepts "nan". With a NaN reading, every comparison in `fuzzy` (webfinal13.py:59-61) is false, so the last line (webfinal13.py:63) returns NaN for every taste that reads it. `NaN or 1e-9` stays NaN (webfinal13.py:243), so every percentage is NaN. `sorted` (webfinal13.py:245) then keeps the declaration order, and the dominant taste is Pungent. In `analyze_age` a NaN pH fails every test and falls to the "Old" bracket (webfinal13.py:122), and a NaN IR leaves the days unadjusted. `real` has no NaN, so none of this is modelled. Infinite readings behave like very large reals and are covered.
- IEEE floating-point rounding. Arithmetic is exact over `real`, so "sums to 100" is proved exactly rather than within a tolerance.
- Python's `sorted` (Timsort) is modelled as a stable insertion sort, `Ranking.Rank`. `Ranking.RankedUnique` shows that the result does not depend on which stable sort is used.
- The score dictionary is modelled as a six-field record, `Tastes.Scores`. It always holds exactly the six tastes, and its `items()` order is the declaration order (`Ranking.Items`).
- The percentage map is modelled as a value: the `Ranking.Percentages` function. The source builds it with a comprehension, not in-place updates.
