# Spot recommender of the Imizu "where to go today" concierge

The application proposes tourist spots in Imizu, Toyama. A visitor picks a
mood, a length of stay and a companion from three drop-downs. The selector
`recommend_spots` narrows the spot table in three steps, then proposes at
most three of the surviving spots at random. This project models that
selector and proves what it promises.

- `wrappers.dfy` (module `Wrappers`): `Option`, the type of a table cell
  that may be missing (pandas NaN), with `GetOr` standing for `fillna`.
- `seqs.dfy` (module `Seqs`): the dataframe operations the selector uses.
  `Where` is boolean-mask indexing: it keeps the rows a mask accepts, in table
  order. `Contains` is substring search, standing for `str.contains`.
  `Sample` is `sample(n)` without replacement. Its random choice is an
  injected `draw`: a list of distinct positions.
- `recommender.dfy` (module `Recommender`): the `Spot` row, the filter
  labels, the four length-of-stay buckets, the three filter steps and
  `RecommendSpots`.

Every function here works on values. The selector filters a copy of the
table, so the caller's table is never modified. In the model this holds by
construction, because `RecommendSpots` returns a new sequence.

A filter label is active unless it is empty or "こだわらない" (no
preference). The mood and companion steps keep the rows whose tag text
contains the label. A missing tag cell reads as the empty string. The
duration step keeps the rows whose known duration meets the bucket: at most
60, 120 or 240 minutes, or at least 240 minutes for a full day. A missing
duration fails every bucket. A duration label that names no bucket filters
nothing, because it matches no branch of the `elif` chain. With more than
three survivors, the result is the three rows at the drawn positions.
Otherwise it is all the survivors, in table order.

## Model

| member | source | states |
|---|---|---|
| `Recommender.RecommendSpots` | app.py:39-72 | The result has min(3, number of survivors) rows. Every result row is in the table and passes every active filter. No row appears more often than among the survivors. With at most three survivors, the result is exactly the survivors in table order and holds every matching table row. When no row matches, the result is empty, not an error. |
| `Recommender.MoodStep` | app.py:44-46 | An inactive mood label leaves the rows unchanged. Otherwise every kept row's mood text contains the label. Every row that passes the mood filter is kept, and no row is added. |
| `Recommender.DurationStep` | app.py:49-62 | An inactive or unrecognised duration label leaves the rows unchanged. For a bucket label, every kept row has a known duration that meets the bucket's threshold. Every row that passes is kept, and no row is added. |
| `Recommender.CompanionStep` | app.py:65-67 | An inactive companion label leaves the rows unchanged. Otherwise every kept row's companion text contains the label. Every row that passes is kept, and no row is added. |
| `Recommender.MoodStepIsMask` | app.py:44-46 | The mood step equals one mask that lets a row through when the mood filter is off or the row's mood contains the label. |
| `Recommender.DurationStepIsMask` | app.py:49-62 | The duration step equals one mask that lets a row through when the filter is off, the label is unrecognised, or the row's duration meets the bucket. |
| `Recommender.CompanionStepIsMask` | app.py:65-67 | The companion step equals one mask that lets a row through when the companion filter is off or the row's companion text contains the label. |
| `Recommender.FilteredIsOnePass` | app.py:40-67 | The three steps together equal one mask over the table with the conjunction of the three filters. The survivors are exactly the matching rows, with multiplicity and in table order. |
| `Recommender.SurvivorsAreMatches` | app.py:40-67 | A row survives if and only if it is in the table and passes every active filter. If no table row matches, nothing survives. |
| `Recommender.BucketOf` | app.py:50-59 | A recognised label is exactly the label of the bucket it selects. An unrecognised label is the label of no bucket. |
| `Recommender.BucketLabelRoundTrip` | app.py:50-59 | Each bucket's label selects that bucket. Each bucket label is an active label, never "no preference". |
| `Recommender.BucketThresholds` | app.py:50-62 | One hour fits within two hours, and two hours fit within half a day. Half a day and a full day overlap exactly at 240 minutes. Together they cover every known duration. |
| `Recommender.MissingTagNeverMatches` | app.py:46 | A missing tag cell matches only the empty label, so it fails every active mood or companion filter. |
| `Recommender.MissingDurationNeverPasses` | app.py:52-62 | A missing duration meets none of the four buckets. |
| `Recommender.NoFilterKeepsTable` | app.py:44-67 | With every label inactive, or only an unrecognised duration label active, every table row survives in order. |
| `Recommender.DrawsCanDiffer` | app.py:69-71 | With more than three survivors, two different valid draws give different proposals when the first and fourth survivors differ. |
| `Seqs.Where` | app.py:46 | A mask keeps only accepted rows. Each accepted row is kept as often as it occurs, and each rejected row never. A row is in the result if and only if it is in the input and accepted. |
| `Seqs.WhereConcat` | app.py:46 | Masking a concatenation masks each part, so kept rows stay in table order. |
| `Seqs.WhereWhere` | app.py:46-67 | Masking twice in a row equals one mask with the conjunction of the two masks. |
| `Seqs.ContainsIff` | app.py:46 | The substring search succeeds if and only if the label occurs at some position of the text. |
| `Seqs.PickWithoutReplacement` | app.py:71 | Taking rows at distinct positions never takes a row more often than it occurs. |
| `Seqs.Sample` | app.py:70-72 | With more than n rows, the result has n rows and is a sub-multiset of the rows. Otherwise it is the rows unchanged. |
| `Seqs.SampleDrawsCanDiffer` | app.py:71 | The draws 0, 1, 2 and 1, 2, 3 give different samples when the first and fourth rows differ. |

## Left out

- Loading the CSV (`load_data`), its error messages and stopping the app: file I/O and process control.
- The Streamlit page, drop-downs, button and text output: user interface.
- Map centring on the mean latitude and longitude, folium markers, and the image display with its file-existence check: floating point, foreign libraries and file I/O. The `Spot` datatype keeps the `url`, `image_path`, `lat` and `lon` columns only as data.
- The random draw itself (`random.randint` as the seed of pandas `sample`): the draw is a parameter. The model fixes which draws are valid, not how they are chosen.
- RecommendSpots: states which three-row proposals are possible, not that every proposal is equally likely, because a sample's distribution is not a property of one call.
- The regular-expression reading of `str.contains`: the fixed option lists contain no regex metacharacters, so containment is plain substring search.
- A `None` filter label: the drop-downs always yield a string, so only the empty string stands for a falsy label.
- Non-numeric `duration_min` cells, which would make the pandas comparison fail: the column is an optional real number of minutes.
- The pandas index labels carried by the returned frame: rows are values, so "no row repeated" is stated as inclusion of multisets.
