# RFM customer segmentation, modelled in Dafny

This project models the scoring and classification core of an RFM
(Recency, Frequency, Monetary) customer segmentation tool, together with the
customer re-keying and country-name substitution done while the data is
prepared.

- **Scoring** (`compute_rfm_scores`) works on the customer table in place:
  - It adds `recency`, the days since the last purchase counted from the day after the latest one.
  - It adds `frequency`, total spent over average order value, rounded to a whole number.
  - It renames `total_spent` to `monetary`.
  - It cuts each metric into quintiles (`pd.qcut`), giving the `R_score`, `F_score` and `M_score` columns.
  - It joins the three scores into the `RFM_code` string.
- **Classification** (`rule_matches`, `assign_segment`) matches a customer's
  three scores against an ordered list of rule dictionaries:
  - A rule is either a list of alternatives (`any_of`) or a set of bounds (`R_min`, `R_max`, `R`, …).
  - The first rule that matches names the segment, as the rule key with `_` turned into spaces and title-cased.
  - When no rule matches, the subscription flag chooses between the two fallback labels.
- **Feature preparation**:
  - `recreate_customer_id` sorts the customers by first purchase and numbers them `CUST-000001`, `CUST-000002`, ….
  - `clean_countries` replaces twenty legacy country spellings by their current names.

Modules:

| file | module | contents |
|---|---|---|
| `wrappers.dfy` | `Wrappers` | `Option`, `Result` |
| `sorting.dfy` | `Sorting` | sort by an integer key: sorted and a permutation |
| `text.dfy` | `Text` | character replacement, Python's `str.title`, decimal rendering, zero padding |
| `scoring.dfy` | `Scoring` | the column computations of `compute_rfm_scores`, as functions on columns |
| `frame.dfy` | `Frame` | the customer table as a class; `ComputeRfmScores` updates its columns in place |
| `classifier.dfy` | `Classifier` | rules, `rule_matches`, `assign_segment` |
| `features.dfy` | `Features` | customer ids, re-keying, the country replacement table |

Conventions:
- The ten columns the scorer reads or writes are constructors of `Frame.Column`. Any other column is `Other`, under a name none of the ten carries, so the schema holds each name at most once.
- Timestamps are whole day numbers.
- Money is an integer amount.
- Frequency is computed exactly: the quotient `spent / avg` is rounded half to even, as numpy's `round` does. A negative average gives the quotient `(-spent) / (-avg)`.
- Quintile edges are exact reals, computed by numpy's linear interpolation. A value's bin is `searchsorted` (left) on the edges, and a value equal to the first edge goes to bin 1 (`include_lowest`). `qcut` raises when two edges coincide. A value outside every bin becomes NaN, which `astype(int)` refuses; the model reports that as an error, and `QcutScores` proves it never happens when a column is cut by its own quintiles.
- The empty table gives NaN edges, which pandas collapses as duplicates; it is modelled as the "bin edges not unique" error.
- A raised exception is the `Some(error)` result of `ComputeRfmScores`. The errors are the ones the code raises: `KeyError` for a missing input column, the `ValueError` from `qcut`, and the failure of `astype(int)`. The columns written before the failing step stay in the table, as they do in the source.
- A missing input column raises where it is first read. For `last_purchase_date` that is before anything is written. For `total_spent` and `avg_order_value` it is after `recency` has been assigned. A second call on the same table therefore raises `KeyError('total_spent')`, because the first call renamed that column.
- The code does not reject a metric with fewer than five distinct values: `qcut` fails only on an empty column or on coinciding quintile edges. `Scoring.TwoValuesAreScored` shows that a column of two different values, in either order, is scored without error: the smaller gets 1 and the larger 5.
- The code does not reject a zero average order value: it yields an infinite or NaN frequency. The model requires every average to be non-zero (see "Left out").

## Model

| member | source | states |
|---|---|---|
| Frame.CustomerTable.ComputeRfmScores | src/segmentation/model.py:3-18 | The input values are unchanged and the table invariant is kept. Without `last_purchase_date` it raises `KeyError` and changes nothing. Without `total_spent` or `avg_order_value` it raises `KeyError` for that key, with only `recency` written. Otherwise `recency` and `frequency` are the metric functions of the inputs. The schema gains `recency` and `frequency`, and `total_spent` becomes `monetary`. If a cut raises, its error is returned and only the score columns before it have been written. Otherwise R, F and M are the three quintile cuts and `RFM_code` is built from them. |
| Frame.CustomerTable.AddRecency | src/segmentation/model.py:5-7 | Recency is assigned from the purchase dates and added to the schema; no other column changes |
| Frame.CustomerTable.AddFrequency | src/segmentation/model.py:8-9 | Frequency is assigned from spend and average order and added to the schema. `total_spent`, if present, is renamed `monetary`. No other column changes. |
| Frame.CustomerTable.AddQuintileScores | src/segmentation/model.py:10-17 | On a table holding `recency`, `frequency` and `monetary`, as `ComputeRfmScores` leaves it: R, F and M are the quintile cuts of recency, frequency and monetary. The score columns are written up to the first cut that raises, whose error is returned. With none, the RFM code column follows. |
| Frame.CustomerTable.AddScores | src/segmentation/model.py:10-17 | Given the three cut outcomes, the score columns are written in order up to the first failure, whose error is returned; with none, the RFM code column follows |
| Frame.CustomerTable.SetRScore | src/segmentation/model.py:10 | Assigning `R_score` adds it to the schema and keeps every column's length equal to the row count |
| Frame.CustomerTable.SetFScore | src/segmentation/model.py:11 | The same for `F_score` |
| Frame.CustomerTable.SetMScore | src/segmentation/model.py:12 | The same for `M_score` |
| Frame.MetricColumns | src/segmentation/model.py:7-9 | After the metrics and the rename, `recency` and `frequency` exist and `total_spent` does not. `monetary` exists exactly when `total_spent` or `monetary` existed before. Every other column is present exactly when it was. |
| Frame.NameIdentifies | src/segmentation/model.py:5-17 | A column name identifies its column, and exactly the ten columns the scorer reads or writes carry the reserved names, so no other column can stand in for one of them |
| Scoring.Max | src/segmentation/model.py:5 | The maximum is an element of the column and no element exceeds it |
| Scoring.Recencies | src/segmentation/model.py:5-7 | One recency per purchase date (its ordering is stated by `Scoring.RecenciesRanked`) |
| Scoring.RecenciesRanked | src/segmentation/model.py:5-7 | Every recency is at least 1. It is exactly 1 for the latest purchases. A later purchase never has a larger recency, and the converse also holds. |
| Scoring.RoundHalfEven | src/segmentation/model.py:8 | The result is the integer nearest to `a / b`, with a tie going to the even neighbour, for a divisor of either sign |
| Scoring.RoundHalfEvenUnique | src/segmentation/model.py:8 | At most one integer satisfies that rounding rule, so the rounded frequency is fully determined |
| Scoring.Frequencies | src/segmentation/model.py:8 | One frequency per row (its rounding is stated by `Scoring.FrequenciesRounded`) |
| Scoring.FrequenciesRounded | src/segmentation/model.py:8 | Each row's frequency is its spend over its average order, rounded half to even |
| Scoring.QuantileBetween | src/segmentation/model.py:10-12 | The k-th quintile lies between the two sorted elements it interpolates |
| Scoring.QuantileStep | src/segmentation/model.py:10-12 | Successive quintiles never decrease |
| Scoring.QuantileEnds | src/segmentation/model.py:10-12 | The 0/5 quantile (`Scoring.Quantile`) of a sorted column is its least value and the 5/5 quantile its greatest |
| Scoring.Edges | src/segmentation/model.py:10-12 | Edges exist exactly for a non-empty column. There are six of them and they do not decrease. The first is the column's least value and the last its greatest, so every value lies between them. |
| Scoring.Cut | src/segmentation/model.py:10-12 | A successful cut gives one label per value; `Scoring.CutScores` says which label and when the cut fails |
| Scoring.Qcut | src/segmentation/model.py:10-12 | A successful `qcut` gives one score per value; `Scoring.QcutScores` says which score and when it fails |
| Scoring.CutScores | src/segmentation/model.py:10-12 | With non-decreasing edges around every value, a cut fails exactly when two edges coincide; otherwise each value gets the label of the number of inner edges below it |
| Scoring.QcutScores | src/segmentation/model.py:10-12 | `qcut` fails exactly on an empty column or coinciding quintiles. Otherwise it labels every value, so the NaN case never arises. |
| Scoring.BinIdIsExceeded | src/segmentation/model.py:10-12 | For a value within the edges, the pandas bin id (with `include_lowest`) is one more than the count of inner edges below it |
| Scoring.ExceededMonotone | src/segmentation/model.py:10-12 | A larger value never falls in a lower bin |
| Scoring.RScoresAntitone | src/segmentation/model.py:10 | R scores lie in 1..5 and a customer with a smaller recency never gets a lower R score |
| Scoring.FMScoresMonotone | src/segmentation/model.py:11-12 | F and M scores lie in 1..5 and a larger value never gets a lower score |
| Scoring.TwoValuesAreScored | src/segmentation/model.py:11 | A column of two different values, in either order, is cut without error; the smaller value scores 1 and the larger 5 |
| Scoring.RfmCode | src/segmentation/model.py:13-17 | For scores in 1..5 the code has three characters, each a digit from 1 to 5, reading back as R, F and M in order |
| Scoring.RfmCodes | src/segmentation/model.py:13-17 | One code per row; `Scoring.CodesOfScores` and `Scoring.RfmCodesOfScores` state that each reads back as that row's scores |
| Scoring.CodesOfScores | src/segmentation/model.py:13-17 | For scores in 1..5, every row's code is three digits from 1 to 5 that read back as that row's R, F and M |
| Scoring.RfmCodesOfScores | src/segmentation/model.py:10-17 | When all three cuts succeed, every row's RFM code is three digits that read back as that row's scores |
| Classifier.BoundsHold | src/segmentation/model.py:24-47 | The early-return bound tests return true exactly when every bound key present holds of its score |
| Classifier.Matches | src/segmentation/model.py:20-47 | A rule without `any_of` matches exactly when all its present bounds hold (`Classifier.AnyMatches` gives the `any_of` case) |
| Classifier.AnyMatches | src/segmentation/model.py:21-22 | `any(...)` over the sub-rules holds exactly when some sub-rule matches |
| Classifier.AnyOfIgnoresBounds | src/segmentation/model.py:21-22 | A rule with `any_of` matches exactly when one of its sub-rules does, whatever bound keys sit beside it |
| Classifier.EmptyAnyOfNeverMatches | src/segmentation/model.py:21-22 | An empty `any_of` list matches no customer |
| Classifier.NoBoundsMatchAll | src/segmentation/model.py:24-47 | A rule with no keys matches every customer |
| Classifier.NarrowingShrinksMatches | src/segmentation/model.py:20-47 | Adding bounds at any depth, or dropping trailing `any_of` alternatives, never lets more customers match |
| Classifier.AnyOfExample | src/segmentation/model.py:20-22 | `{any_of: [{R_min: 4}, {M: 5}]}` matches (5,1,1) and (1,1,5) but not (3,1,3) |
| Classifier.Label | src/segmentation/model.py:52 | The label has the key's length and no underscore; it has a space exactly where the key had an underscore or a space |
| Classifier.AssignSegment | src/segmentation/model.py:49-53 | Either some rule is the first to match and the segment is its label, or no rule matches and the segment is the fallback label |
| Classifier.Fallback | src/segmentation/model.py:53 | The fallback is one of the two "Others" labels, and "Others - Premium" exactly when `subscription` is present and true |
| Classifier.FirstMatchWins | src/segmentation/model.py:49-52 | When rule k is the first that matches, the segment is rule k's label |
| Classifier.NoMatchFallsBack | src/segmentation/model.py:53 | When no rule matches, the segment is the fallback label. It is "Others - Premium" exactly when the subscription flag is present and true. |
| Classifier.LaterRulesIrrelevant | src/segmentation/model.py:50-52 | Once some rule matches, appending more rules does not change the segment |
| Classifier.FallbackOnlyWithoutMatch | src/segmentation/model.py:49-53 | Provided no rule's label spells a fallback label, a fallback label is returned exactly when no rule matches |
| Classifier.FallbackLabelCanBeSpelled | src/segmentation/model.py:52-53 | Without that proviso the key `others_-_premium` yields the label "Others - Premium", so a matched customer can carry a fallback label |
| Text.ReplaceChar | src/segmentation/model.py:52 | `replace('_', ' ')` keeps the length and changes exactly the matching characters |
| Text.Title | src/segmentation/model.py:52 | Title-casing keeps the length; `Text.TitleAt` fixes each character |
| Text.TitleAt | src/segmentation/model.py:52 | Each title-cased character is lower case when the character before it is cased, and upper case otherwise |
| Text.TitleIdempotent | src/segmentation/model.py:52 | Title-casing a title-cased string changes nothing |
| Text.TitleKeepsNonLetters | src/segmentation/model.py:52 | Title-casing leaves every non-letter where it was |
| Text.DecimalRoundTrip | src/segmentation/model.py:13-17 | The decimal rendering of a number reads back as that number |
| Text.ZeroPadded | src/segmentation/features.py:15 | The rendering is all digits, of length the wider of the width and the number's own digit count |
| Text.ZeroPaddedRoundTrip | src/segmentation/features.py:15 | A zero-padded number reads back as that number |
| Text.ZeroPaddedInjective | src/segmentation/features.py:15 | Different numbers have different zero-padded renderings |
| Sorting.SortBy | src/segmentation/features.py:14 | The result is sorted by the key and is a permutation of the input |
| Features.CustomerId | src/segmentation/features.py:15 | An id is `CUST-` followed by at least six digits |
| Features.CustomerIdRoundTrip | src/segmentation/features.py:15 | The digits of an id read back as its row number |
| Features.CustomerIdLength | src/segmentation/features.py:15 | Below a million rows every id has eleven characters |
| Features.CustomerIdInjective | src/segmentation/features.py:15 | Different row numbers give different ids, at any table size |
| Features.RecreateCustomerId | src/segmentation/features.py:13-16 | The row count is kept and the row at position i (from 0) has id `CustomerId(i + 1)` |
| Features.RecreateCustomerIdPermutes | src/segmentation/features.py:14-15 | The result is a reordering of the input rows, each changed only in its id |
| Features.RecreateCustomerIdSorted | src/segmentation/features.py:14 | First purchase dates do not decrease along the result |
| Features.RecreateCustomerIdDistinct | src/segmentation/features.py:15 | No two rows of the result share an id |
| Features.CleanCountry | src/segmentation/features.py:18-43 | A name in the replacement table becomes its current name; any other name is kept |
| Features.CleanCountries | src/segmentation/features.py:43 | Every row of the country column is cleaned, and the column keeps its length |
| Features.ReplacedNamesAreFinal | src/segmentation/features.py:18-39 | No current name in the table is itself a legacy spelling |
| Features.CleanCountryIdempotent | src/segmentation/features.py:18-43 | Cleaning a cleaned name changes nothing |
| Features.CleanCountriesIdempotent | src/segmentation/features.py:41-43 | Cleaning the country column twice gives the same column as cleaning it once |

## Left out

- The dashboard, the pipeline driver, configuration loading and file I/O (`app.py`, `pipeline.py`, `io.py`, `config.py`) are not part of this model.
- `parse_datatypes` is left out. It is pandas dtype coercion and timestamp parsing; the model takes day numbers and typed columns as given.
- The ISO3 lookup in `clean_countries` is left out. It is a call into the `pycountry` library that swallows every exception.
- The copy that `clean_countries` and `recreate_customer_id` make first needs no modelling: the model's functions work on values, so the caller's table cannot change.
- Floating point is not modelled. Frequency, quantile edges and bin placement are computed exactly, so a value that lands exactly on an edge may fall in a different bin than it would in floating point.
- Frame.CustomerTable.ComputeRfmScores requires every average order value to be non-zero. For a zero average the source divides anyway and gets an infinite or NaN frequency; what `qcut` then does with it is not modelled. Negative averages are modelled.
- Frame.CustomerTable.ComputeRfmScores merges a `monetary` column that already exists beside `total_spent` with the renamed one. In the source the rename gives two columns of that name, and `qcut` then fails on the two-column selection.
- Frame.CustomerTable.ComputeRfmScores keeps the schema as a set of column names. The order of the columns in the table is not modelled.
- Time of day in the timestamps is not modelled. `.dt.days` truncates to whole days, and day numbers stand for the timestamps.
- Features.RecreateCustomerIdSorted does not fix the order of rows with equal first purchase dates. `sort_values` uses an unstable quicksort; the model's stable sort is one of the orders it may produce, and the lemmas state only what holds for every such order.
- Classifier.NoMatchFallsBack reads a missing `subscription` field as false and a present one as a boolean. Missing-value truthiness (`pd.NA` raises in `if`) is not modelled.
- Classifier.Label title-cases ASCII letters only. Python's Unicode case rules for other letters are not modelled.
- Scoring.QcutScores says which values land in which bin, but not that the five bins hold equally many rows. Equal bin sizes only hold approximately, and only without ties.
- Rule dictionaries with keys other than `any_of` and the nine bounds are not modelled. The source ignores such keys.
