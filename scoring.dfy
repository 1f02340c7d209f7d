/** Agreement between the dimensions a user selected for each topic and the
    gold dimensions of that topic's hypotheses (calculate_metrics). */
module Scoring {
  import opened Dimensions
  import opened Confusion

  datatype Option<T> = None | Some(value: T)

  type TopicId = string

  /** Only a hypothesis's dimension takes part in scoring. */
  datatype Hypothesis = Hypothesis(dimension: Dimension)

  /** A topic record; `hypotheses` is None when the record has no
      "hypotheses" key. */
  datatype Topic = Topic(id: TopicId, hypotheses: Option<seq<Hypothesis>>)

  /** The user's selections: the items of a dictionary from topic id to the
      list of selected dimension names, in insertion order. */
  type Selection = (TopicId, seq<Dimension>)

  predicate NoMatchBefore(topics: seq<Topic>, id: TopicId, i: nat)
    requires i <= |topics|
  {
    forall j :: 0 <= j < i ==> topics[j].id != id
  }

  /** The first topic record with the given id, if any. */
  function FindTopic(topics: seq<Topic>, id: TopicId): (r: Option<Topic>)
    ensures r.None? <==> NoMatchBefore(topics, id, |topics|)
    ensures forall i :: 0 <= i < |topics| && topics[i].id == id && NoMatchBefore(topics, id, i)
                        ==> r == Some(topics[i])
  {
    if topics == [] then None
    else if topics[0].id == id then Some(topics[0])
    else
      var r := FindTopic(topics[1..], id);
      assert forall i :: 1 <= i <= |topics| && NoMatchBefore(topics, id, i) ==> NoMatchBefore(topics[1..], id, i - 1);
      assert forall i :: 0 <= i < |topics| - 1 && NoMatchBefore(topics[1..], id, i) ==> NoMatchBefore(topics, id, i + 1);
      r
  }

  /** The gold set of a list of hypotheses: the dimensions they name. */
  function GoldSet(hypotheses: seq<Hypothesis>): set<Dimension>
  {
    set i | 0 <= i < |hypotheses| :: hypotheses[i].dimension
  }

  /** The gold dimensions of a topic id, or None when the topic is not scored:
      its first record is missing or has no "hypotheses" key. */
  function Gold(topics: seq<Topic>, id: TopicId): Option<set<Dimension>>
  {
    match FindTopic(topics, id)
    case None => None
    case Some(t) =>
      match t.hypotheses
      case None => None
      case Some(hs) => Some(GoldSet(hs))
  }

  /** Builds the gold set one hypothesis at a time. */
  method CollectGoldDimensions(hypotheses: seq<Hypothesis>) returns (gold: set<Dimension>)
    ensures forall i :: 0 <= i < |hypotheses| ==> hypotheses[i].dimension in gold
    ensures forall d :: d in gold ==> exists i :: 0 <= i < |hypotheses| && hypotheses[i].dimension == d
    ensures gold == GoldSet(hypotheses)
  {
    gold := {};
    for k := 0 to |hypotheses|
      invariant gold == GoldSet(hypotheses[..k])
    {
      assert hypotheses[..k + 1] == hypotheses[..k] + [hypotheses[k]];
      gold := gold + {hypotheses[k].dimension};
    }
    assert hypotheses[..|hypotheses|] == hypotheses;
  }

  /** What one selection contributes to the pooled counts: nothing when its
      topic is not scored, otherwise one row of set counts over the
      vocabulary. */
  function SelectionTally(topics: seq<Topic>, sel: Selection): Tally
  {
    match Gold(topics, sel.0)
    case None => Empty
    case Some(gold) => SetTally(VocabularySet(), gold, Elems(sel.1)).(rows := 1)
  }

  /** The contribution of each selection, as a function of the selection. */
  function Contribution(topics: seq<Topic>): Selection -> Tally
  {
    sel => SelectionTally(topics, sel)
  }

  /** Reference definition of the pooled counts of all selections. */
  function MicroTally(topics: seq<Topic>, labeled: seq<Selection>): Tally
  {
    PoolBy(Contribution(topics), labeled)
  }

  /** The scores calculate_metrics returns. */
  function Score(topics: seq<Topic>, labeled: seq<Selection>): (s: Scores)
    ensures labeled == [] ==> s == Zero
    ensures 0.0 <= s.precision <= 1.0 && 0.0 <= s.recall <= 1.0 && 0.0 <= s.f1 <= 1.0
  {
    if labeled == [] then Zero
    else
      var t := MicroTally(topics, labeled);
      if t.rows == 0 then Zero else Micro(t)
  }

  /** calculate_metrics: one indicator row pair per scored selection, pooled. */
  method CalculateMetrics(topics: seq<Topic>, labeled: seq<Selection>) returns (s: Scores)
    ensures s == Score(topics, labeled)
  {
    if |labeled| == 0 {
      return Zero;
    }
    var yTrue: seq<seq<int>> := [];
    var yPred: seq<seq<int>> := [];
    for i := 0 to |labeled|
      invariant SameShape(yTrue, yPred)
      invariant MatrixTally(yTrue, yPred) == MicroTally(topics, labeled[..i])
      invariant MatrixTally(yTrue, yPred).rows == |yTrue|
    {
      var (topicId, userDimensions) := labeled[i];
      var topicEntry := FindTopic(topics, topicId);
      if topicEntry.None? || topicEntry.value.hypotheses.None? {
        UnscoredStep(topics, labeled, i);
        continue;
      }
      var trueDimensions := CollectGoldDimensions(topicEntry.value.hypotheses.value);
      var trueVector := Indicator(trueDimensions);
      var predVector := Indicator(Elems(userDimensions));
      ScoredStep(topics, labeled, i, trueDimensions, yTrue, yPred);
      yTrue := yTrue + [trueVector];
      yPred := yPred + [predVector];
    }
    PooledRowsScore(topics, labeled, yTrue, yPred);
    if |yTrue| == 0 || |yPred| == 0 {
      return Zero;
    }
    s := Micro(MatrixTally(yTrue, yPred));
  }

  /** Once every selection is pooled, the guard on the rows and the micro
      scores of the matrices give Score. */
  lemma PooledRowsScore(topics: seq<Topic>, labeled: seq<Selection>, yTrue: seq<seq<int>>, yPred: seq<seq<int>>)
    requires labeled != [] && SameShape(yTrue, yPred)
    requires MatrixTally(yTrue, yPred) == MicroTally(topics, labeled[..|labeled|])
    requires MatrixTally(yTrue, yPred).rows == |yTrue|
    ensures Score(topics, labeled)
         == if |yTrue| == 0 || |yPred| == 0 then Zero else Micro(MatrixTally(yTrue, yPred))
  {
    assert labeled[..|labeled|] == labeled;
  }

  lemma MicroTallyStep(topics: seq<Topic>, labeled: seq<Selection>, i: nat)
    requires i < |labeled|
    ensures MicroTally(topics, labeled[..i + 1])
         == Plus(MicroTally(topics, labeled[..i]), SelectionTally(topics, labeled[i]))
  {
    assert labeled[..i + 1][..i] == labeled[..i];
  }

  /** An unscored selection leaves the pooled counts as they were. */
  lemma UnscoredStep(topics: seq<Topic>, labeled: seq<Selection>, i: nat)
    requires i < |labeled| && Gold(topics, labeled[i].0).None?
    ensures MicroTally(topics, labeled[..i + 1]) == MicroTally(topics, labeled[..i])
  {
    MicroTallyStep(topics, labeled, i);
  }

  /** A scored selection adds the row pair of its two indicator vectors. */
  lemma ScoredStep(topics: seq<Topic>, labeled: seq<Selection>, i: nat, gold: set<Dimension>,
                   yTrue: seq<seq<int>>, yPred: seq<seq<int>>)
    requires i < |labeled| && Gold(topics, labeled[i].0) == Some(gold)
    requires SameShape(yTrue, yPred)
    requires MatrixTally(yTrue, yPred) == MicroTally(topics, labeled[..i])
    requires MatrixTally(yTrue, yPred).rows == |yTrue|
    ensures var yTrue', yPred' := yTrue + [Indicator(gold)], yPred + [Indicator(Elems(labeled[i].1))];
      && SameShape(yTrue', yPred')
      && MatrixTally(yTrue', yPred') == MicroTally(topics, labeled[..i + 1])
      && MatrixTally(yTrue', yPred').rows == |yTrue'|
  {
    MicroTallyStep(topics, labeled, i);
    IndicatorTally(gold, Elems(labeled[i].1));
    AppendRow(yTrue, yPred, Indicator(gold), Indicator(Elems(labeled[i].1)));
  }

  lemma AppendRow(yTrue: seq<seq<int>>, yPred: seq<seq<int>>, truth: seq<int>, pred: seq<int>)
    requires SameShape(yTrue, yPred) && |truth| == |pred|
    ensures SameShape(yTrue + [truth], yPred + [pred])
    ensures MatrixTally(yTrue + [truth], yPred + [pred])
         == Plus(MatrixTally(yTrue, yPred), CellsTally(truth, pred).(rows := 1))
  {
    assert (yTrue + [truth])[..|yTrue|] == yTrue;
    assert (yPred + [pred])[..|yPred|] == yPred;
  }

  // ---------------------------------------------------------------------
  // Properties of the scorer

  /** The scores do not depend on the order in which the selections are
      visited. */
  lemma ScoreOrderIndependent(topics: seq<Topic>, a: seq<Selection>, b: seq<Selection>)
    requires multiset(a) == multiset(b)
    ensures Score(topics, a) == Score(topics, b)
  {
    assert |a| == |multiset(a)| && |b| == |multiset(b)|;
    PoolByPermutation(Contribution(topics), a, b);
  }

  /** A selection whose topic is not scored may be removed from anywhere
      without changing the counts or the scores. */
  lemma UnscoredSelectionIsSkipped(topics: seq<Topic>, a: seq<Selection>, sel: Selection, b: seq<Selection>)
    requires Gold(topics, sel.0).None?
    ensures MicroTally(topics, a + [sel] + b) == MicroTally(topics, a + b)
    ensures Score(topics, a + [sel] + b) == Score(topics, a + b)
  {
    PoolByRegroup(Contribution(topics), a, sel, b);
  }

  /** No selection is scored. */
  predicate NothingScored(topics: seq<Topic>, labeled: seq<Selection>)
  {
    forall i :: 0 <= i < |labeled| ==> Gold(topics, labeled[i].0).None?
  }

  /** No row is pooled exactly when no selection is scored. */
  lemma NoRowsIffNothingScored(topics: seq<Topic>, labeled: seq<Selection>)
    ensures MicroTally(topics, labeled).rows == 0 <==> NothingScored(topics, labeled)
  {
    PoolByNoRows(Contribution(topics), labeled);
  }

  /** When no selection is scored the result is all zeros. */
  lemma NothingScoredScoresZero(topics: seq<Topic>, labeled: seq<Selection>)
    ensures NothingScored(topics, labeled) ==> Score(topics, labeled) == Zero
  {
    NoRowsIffNothingScored(topics, labeled);
  }

  /** The number of selections whose topic is scored. */
  function ScoredCount(topics: seq<Topic>, labeled: seq<Selection>): nat
  {
    if labeled == [] then 0
    else
      var n := |labeled| - 1;
      ScoredCount(topics, labeled[..n]) + (if Gold(topics, labeled[n].0).Some? then 1 else 0)
  }

  /** One row is pooled per scored selection. */
  lemma {:induction false} RowsAreScoredSelections(topics: seq<Topic>, labeled: seq<Selection>)
    ensures MicroTally(topics, labeled).rows == ScoredCount(topics, labeled)
  {
    if labeled != [] {
      RowsAreScoredSelections(topics, labeled[..|labeled| - 1]);
    }
  }

  /** Every pooled cell is exactly one of TP, FP, FN, TN: twenty per scored
      selection. */
  lemma PooledCellsCover(topics: seq<Topic>, labeled: seq<Selection>)
    ensures Total(MicroTally(topics, labeled)) == 20 * ScoredCount(topics, labeled)
  {
    RowsAreScoredSelections(topics, labeled);
    forall i | 0 <= i < |labeled|
      ensures Total(SelectionTally(topics, labeled[i])) == 20 * SelectionTally(topics, labeled[i]).rows
    {
      SelectionCellsCover(topics, labeled[i]);
    }
    PoolByTotal(Contribution(topics), labeled, 20);
  }

  /** One selection's counts cover its twenty cells per row. */
  lemma SelectionCellsCover(topics: seq<Topic>, sel: Selection)
    ensures Total(SelectionTally(topics, sel)) == 20 * SelectionTally(topics, sel).rows
  {
    match Gold(topics, sel.0)
    case None =>
    case Some(gold) => IndicatorTally(gold, Elems(sel.1));
  }

  /** A matched topic whose record has an empty hypothesis list is scored
      against an empty gold set: every predicted vocabulary dimension is a
      false positive, and there are no true positives or false negatives. */
  lemma EmptyHypothesesAreAllFalsePositives(topics: seq<Topic>, sel: Selection)
    requires FindTopic(topics, sel.0).Some?
    requires FindTopic(topics, sel.0).value.hypotheses == Some([])
    ensures var t := SelectionTally(topics, sel);
      && t.rows == 1 && t.tp == 0 && t.fn == 0
      && t.fp == |Elems(sel.1) * VocabularySet()| && t.fp + t.tn == 20
  {
    assert GoldSet([]) == {};
    IndicatorTally({}, Elems(sel.1));
    assert (Elems(sel.1) - {}) * VocabularySet() == Elems(sel.1) * VocabularySet();
  }

  /** Only the first record with a topic's id is its gold source: records
      appended after it, even with the same id, change nothing. */
  lemma {:induction false} LaterDuplicatesIgnored(topics: seq<Topic>, more: seq<Topic>, id: TopicId)
    requires FindTopic(topics, id).Some?
    ensures FindTopic(topics + more, id) == FindTopic(topics, id)
    ensures Gold(topics + more, id) == Gold(topics, id)
  {
    if topics[0].id != id {
      assert (topics + more)[1..] == topics[1..] + more;
      LaterDuplicatesIgnored(topics[1..], more, id);
    }
  }

  /** Dimension names outside the vocabulary, on either side, do not change
      a topic's counts. */
  lemma OutOfVocabularyIgnored(gold: set<Dimension>, pred: set<Dimension>)
    ensures SetTally(VocabularySet(), gold, pred)
         == SetTally(VocabularySet(), gold * VocabularySet(), pred * VocabularySet())
  {
    var v := VocabularySet();
    assert gold * v * v == gold * v && pred * v * v == pred * v;
    IndicatorDeterminesVocabularyPart(gold, gold * v);
    IndicatorDeterminesVocabularyPart(pred, pred * v);
    IndicatorTally(gold, pred);
    IndicatorTally(gold * v, pred * v);
  }

  /** One topic whose hypotheses name LRGEN and EU_INTEGRATION ... */
  const ExampleTopics := [Topic("T1", Some([Hypothesis("LRGEN"), Hypothesis("EU_INTEGRATION")]))]

  /** ... and a user who selected LRGEN alone for it. */
  const ExampleSelections: seq<Selection> := [("T1", ["LRGEN"])]

  /** Gold {x, y} against the selection {x}, both inside the vocabulary:
      one true positive, no false positive, one false negative. */
  lemma OneOfTwoSelected(v: set<Dimension>, x: Dimension, y: Dimension)
    requires x in v && y in v && x != y
    ensures var row := SetTally(v, {x, y}, {x}); row.tp == 1 && row.fp == 0 && row.fn == 1
  {
    assert {x, y} * {x} * v == {x};
    assert ({x} - {x, y}) * v == {};
    assert ({x, y} - {x}) * v == {y};
  }

  /** The example topic's gold set is {LRGEN, EU_INTEGRATION}. */
  lemma ExampleGold()
    ensures Gold(ExampleTopics, "T1") == Some({"LRGEN", "EU_INTEGRATION"})
  {
    var hs := ExampleTopics[0].hypotheses.value;
    assert "LRGEN" in GoldSet(hs) by { assert hs[0].dimension == "LRGEN"; }
    assert "EU_INTEGRATION" in GoldSet(hs) by { assert hs[1].dimension == "EU_INTEGRATION"; }
    assert GoldSet(hs) == {"LRGEN", "EU_INTEGRATION"};
  }

  lemma ExampleInVocabulary()
    ensures "LRGEN" in VocabularySet() && "EU_INTEGRATION" in VocabularySet()
  {
    assert Vocabulary[0] == "LRGEN" && Vocabulary[19] == "EU_INTEGRATION";
  }

  /** A single scored selection pools exactly its own row. */
  lemma SingleScoredSelection(topics: seq<Topic>, sel: Selection, gold: set<Dimension>)
    requires Gold(topics, sel.0) == Some(gold)
    ensures MicroTally(topics, [sel]) == SetTally(VocabularySet(), gold, Elems(sel.1)).(rows := 1)
  {
    PoolBySingle(Contribution(topics), sel);
  }

  lemma ExamplePrediction()
    ensures Elems(ExampleSelections[0].1) == {"LRGEN"}
  {
    var sel := ExampleSelections[0];
    assert "LRGEN" in Elems(sel.1) by { assert sel.1[0] == "LRGEN"; }
  }

  /** The example pools one row with one true positive (LRGEN), no false
      positive and one false negative (EU_INTEGRATION). */
  lemma ExampleCounts()
    ensures var t := MicroTally(ExampleTopics, ExampleSelections);
      t.rows == 1 && t.tp == 1 && t.fp == 0 && t.fn == 1
  {
    ExampleGold();
    ExamplePrediction();
    ExampleInVocabulary();
    OneOfTwoSelected(VocabularySet(), "LRGEN", "EU_INTEGRATION");
    SingleScoredSelection(ExampleTopics, ExampleSelections[0], {"LRGEN", "EU_INTEGRATION"});
  }

  /** Gold {LRGEN, EU_INTEGRATION} against the selection {LRGEN} scores
      precision 1, recall 1/2 and F1 2/3. */
  lemma WorkedExample()
    ensures Score(ExampleTopics, ExampleSelections) == Scores(1.0, 0.5, 2.0 / 3.0)
  {
    ExampleCounts();
    OneHitOneMiss(MicroTally(ExampleTopics, ExampleSelections));
  }
}
