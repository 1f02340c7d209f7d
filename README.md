# Agreement scoring of topic dimension labels

The annotation tool scores a user's dimension labels against a gold set with
`calculate_metrics` (app/utils.py). Its inputs are:

- the topic records;
- the user's selections, which map each topic id to the list of ideological
  dimensions the user picked.

For each selection whose topic is found, the tool works as follows:

- The gold set is the set of `dimension` values of that topic's hypotheses.
- Both the gold set and the selection become 0/1 indicator vectors over a
  fixed vocabulary of twenty dimensions. The vocabulary is the keys of
  `DIMENSIONS_DESCRIPTIONS`.
- The indicator rows are stacked into two matrices.

The result is the micro-averaged precision, recall and F1 over all the
(topic, dimension) cells of the two matrices. A zero denominator gives 0.

The model has three modules:

- `Dimensions` holds the vocabulary.
- `Confusion` holds the cell counts and the scores computed from them:
  - a `Tally` of rows, TP, FP, FN and TN;
  - indicator vectors and counting over indicator matrices (`MatrixTally`);
  - a set-based reference count per topic (`SetTally`);
  - generic pooling of per-element tallies (`PoolBy`) with its algebra;
  - precision, recall and F1 as exact ratios (`Micro`).
- `Scoring` holds the topic records, the lookup of a topic's first record
  (`FindTopic`), the gold set, and the reference function `Score`.
  `Score` is defined as the pooled set counts of the scored selections.
  The module also holds the method `CalculateMetrics`. It follows the
  source's loop:
  - it builds `yTrue`/`yPred` row by row;
  - it skips unscored topics;
  - it builds each gold set with a nested loop (`CollectGoldDimensions`).

  `CalculateMetrics` is proved equal to `Score`. The properties of the
  scorer are proved as lemmas about `Score`:
  - the result does not depend on the order of the selections;
  - skipped topics change nothing;
  - the cell counts cover twenty cells per scored selection;
  - F1 is the harmonic mean of precision and recall;
  - a worked example gives 1, 1/2, 2/3.

The library call `precision_recall_fscore_support(average='micro',
zero_division=0)` is replaced by its definition on counts:

- precision = TP/(TP+FP);
- recall = TP/(TP+FN);
- F1 = 2TP/(2TP+FP+FN);
- each is 0 when its denominator is 0.

Two consequences of the code are worth stating. First, a topic is skipped
only when no record has its id, or when the first record with its id has no
`hypotheses` key. A matched record whose hypothesis list is empty is still
scored, against an empty gold set (`EmptyHypothesesAreAllFalsePositives`).
Second, the pooled F1 2TP/(2TP+FP+FN) equals the harmonic mean 2PR/(P+R)
of precision P and recall R whenever P + R > 0 (`F1IsHarmonicMean`).

## Model

| member | source | states |
|---|---|---|
| Dimensions.VocabularySetSize | app/utils.py:7-28 | the label vocabulary, the keys of the dimension dictionary, has exactly twenty distinct members |
| Scoring.FindTopic | app/utils.py:51 | the lookup returns None exactly when no record has the id, and otherwise the first record with that id |
| Scoring.LaterDuplicatesIgnored | app/utils.py:51 | records added after the first record with an id, even ones with the same id, change neither the lookup nor the gold set |
| Scoring.CollectGoldDimensions | app/utils.py:55-57 | the set built by adding each hypothesis's dimension holds exactly the dimensions some hypothesis names |
| Confusion.IndicatorDeterminesVocabularyPart | app/utils.py:59-62 | two sets have equal indicator vectors if and only if they agree on the vocabulary |
| Confusion.CellsTallyOfIndicators | app/utils.py:59-62 | counting the cells of two indicator vectors over a repetition-free vocabulary gives TP = gold∩pred, FP = pred∖gold, FN = gold∖pred, TN = neither, restricted to the vocabulary |
| Confusion.IndicatorTally | app/utils.py:59-72 | one row pair over the twenty-label vocabulary counts the set TP/FP/FN/TN, and these four add up to 20 |
| Scoring.OutOfVocabularyIgnored | app/utils.py:59-62 | gold or predicted dimension names outside the vocabulary do not change a topic's counts |
| Scoring.EmptyHypothesesAreAllFalsePositives | app/utils.py:52-62 | a matched topic with an empty hypothesis list is still scored: one row with TP = FN = 0, every predicted vocabulary dimension a false positive, and FP + TN = 20 |
| Confusion.PoolByAppend | app/utils.py:49-65 | pooling the rows of two runs of selections is the sum of the pools of each run |
| Confusion.PoolByPermutation | app/utils.py:49-65 | any two orderings of the same selections pool to the same counts |
| Confusion.PoolByNoRows | app/utils.py:49-65 | the pool has no row exactly when no element contributes a row |
| Confusion.PoolByTotal | app/utils.py:49-65 | if every element counts `width` cells per row, so does the pool |
| Scoring.UnscoredSelectionIsSkipped | app/utils.py:51-53 | a selection whose topic has no record or no hypotheses key can be removed from anywhere without changing the counts or the scores |
| Scoring.NoRowsIffNothingScored | app/utils.py:51-53 | no indicator row is pooled exactly when no selection's topic is scored |
| Scoring.NothingScoredScoresZero | app/utils.py:67-68 | when no selection is scored the result is all zeros |
| Scoring.RowsAreScoredSelections | app/utils.py:49-65 | the pooled counts hold exactly one indicator row per selection whose topic is scored |
| Scoring.PooledCellsCover | app/utils.py:59-72 | TP + FP + FN + TN is twenty times the number of scored selections |
| Confusion.Ratio | app/utils.py:70-72 | a ratio num/den with 0 for a zero denominator lies in [0, 1], is 0 exactly when num is 0, is 1 exactly when num = den > 0, and times den gives num |
| Confusion.Micro | app/utils.py:70-77 | precision, recall and F1 lie in [0, 1], each is 0 exactly when TP = 0, and precision, recall and F1 are 1 exactly when TP > 0 and FP = 0, FN = 0, or both are 0 respectively |
| Confusion.F1IsHarmonicMean | app/utils.py:70-72 | the pooled F1 equals 2PR/(P+R) whenever P + R > 0, and is 0 when P + R = 0 |
| Scoring.Score | app/utils.py:43-44 | no selections give all-zero scores; every score lies in [0, 1] |
| Scoring.ScoreOrderIndependent | app/utils.py:49-72 | the scores do not depend on the order in which the selections are visited |
| Scoring.CalculateMetrics | app/utils.py:41-78 | the loop that appends one indicator row pair per scored selection, skips unscored ones, and returns zeros for no selections or no rows, returns exactly the reference scores |
| Scoring.ExampleCounts | app/utils.py:49-72 | gold {LRGEN, EU_INTEGRATION} against the selection {LRGEN} pools one row with one true positive, no false positive and one false negative |
| Scoring.WorkedExample | app/utils.py:70-77 | the same example scores precision 1, recall 1/2 and F1 2/3 |

## Left out

- `load_jsonl_results` (app/utils.py:31-38) is not part of this model. It is file I/O, JSON decoding into a DataFrame and a UI cache.
- The description strings of `DIMENSIONS_DESCRIPTIONS` are not modelled. Only its twenty keys, as the vocabulary, take part in scoring.
- The internals of scikit-learn's `precision_recall_fscore_support` are not modelled. Its micro-averaged, zero-division-0 result on 0/1 indicator matrices is stated directly from the pooled counts.
- Floating-point results are not modelled: precision, recall and F1 are exact rationals (`real`), so IEEE rounding is absent.
- The early returns are modelled as the value zero. The source's integer `0` and the library's float `0.0` are not distinguished.
- Topic and hypothesis records are reduced to the fields the scorer reads: the id, and the dimension of each hypothesis.
- A record lacking `id`, or a hypothesis lacking `dimension`, raises a KeyError in the source. The model gives every record these fields, so that error is not modelled.
- Topic, GoldSet: `Topic.hypotheses` is either a list of hypotheses or None, and None stands only for a missing `hypotheses` key. The source raises a TypeError on a `hypotheses` value that is present but not a list (app/utils.py:56). It also raises one on a `dimension` value that cannot go in a set (app/utils.py:57). Neither error is modelled.
- Topic: the one caller passes `to_dict('records')` of a DataFrame (app/pages/2_🔍_Topics_labeler.py:164-165). That gives every record every column, so a record without hypotheses arrives with a NaN `hypotheses` value and raises a TypeError. It is not skipped. On that path the skip for a missing key (app/utils.py:52) happens only when no record in the file has the key. The model does not capture this NaN case.
- Topic ids are modelled as strings. The source compares them with Python equality on whatever JSON value they hold.
- The selection dictionary is modelled as a sequence of (topic id, selected dimensions) pairs in insertion order. The model does not require the ids to be distinct as dictionary keys are. The order lemma covers every reordering, not only dictionary orders.
- The user interface, session state and labeling screens are outside this core.
