/** Pooled (micro-averaged) confusion counts over 0/1 indicator matrices, and
    the precision, recall and F1 they give when a zero denominator is defined
    as 0. This is what precision_recall_fscore_support with average='micro'
    and zero_division=0 computes for multilabel indicator input, stated from
    the counts rather than from the library. */
module Confusion {
  import opened Dimensions

  /** Counts pooled over every (row, label) cell; `rows` is the number of
      indicator rows that were pooled. */
  datatype Tally = Tally(rows: nat, tp: nat, fp: nat, fn: nat, tn: nat)

  const Empty := Tally(0, 0, 0, 0, 0)

  function Plus(a: Tally, b: Tally): Tally
  {
    Tally(a.rows + b.rows, a.tp + b.tp, a.fp + b.fp, a.fn + b.fn, a.tn + b.tn)
  }

  /** The number of cells a tally has counted. */
  function Total(t: Tally): nat
  {
    t.tp + t.fp + t.fn + t.tn
  }

  /** The 0/1 indicator vector of `s` over `vocab`: entry i is 1 exactly when
      vocab[i] is in `s`. */
  function IndicatorOver(vocab: seq<Dimension>, s: set<Dimension>): (v: seq<int>)
    ensures |v| == |vocab|
  {
    seq(|vocab|, i requires 0 <= i < |vocab| => if vocab[i] in s then 1 else 0)
  }

  /** The indicator vector over the fixed vocabulary. */
  function Indicator(s: set<Dimension>): (v: seq<int>)
    ensures |v| == |Vocabulary|
  {
    IndicatorOver(Vocabulary, s)
  }

  /** One (truth, prediction) cell; 1 is the positive label. */
  function CellTally(truth: int, pred: int): Tally
  {
    if truth == 1 && pred == 1 then Tally(0, 1, 0, 0, 0)
    else if pred == 1 then Tally(0, 0, 1, 0, 0)
    else if truth == 1 then Tally(0, 0, 0, 1, 0)
    else Tally(0, 0, 0, 0, 1)
  }

  /** The cells of one row pair, summed. */
  function CellsTally(truth: seq<int>, pred: seq<int>): Tally
    requires |truth| == |pred|
  {
    if truth == [] then Empty
    else Plus(CellTally(truth[0], pred[0]), CellsTally(truth[1..], pred[1..]))
  }

  /** Micro pooling of a sequence: the tallies f(x) of its elements, summed
      one element at a time. */
  function PoolBy<E>(f: E -> Tally, s: seq<E>): Tally
  {
    if s == [] then Empty
    else Plus(PoolBy(f, s[..|s| - 1]), f(s[|s| - 1]))
  }

  lemma PoolBySnoc<E>(f: E -> Tally, s: seq<E>, x: E)
    ensures PoolBy(f, s + [x]) == Plus(PoolBy(f, s), f(x))
  {
    assert (s + [x])[..|s|] == s;
  }

  /** Pooling is additive over a split of the sequence. */
  lemma {:induction false} PoolByAppend<E>(f: E -> Tally, a: seq<E>, b: seq<E>)
    ensures PoolBy(f, a + b) == Plus(PoolBy(f, a), PoolBy(f, b))
  {
    if b == [] {
      assert a + b == a;
    } else {
      var n := |b| - 1;
      assert a + b == (a + b[..n]) + [b[n]];
      assert b == b[..n] + [b[n]];
      PoolByAppend(f, a, b[..n]);
      PoolBySnoc(f, a + b[..n], b[n]);
      PoolBySnoc(f, b[..n], b[n]);
    }
  }

  /** An element in the middle contributes as if it came last. */
  lemma PoolByRegroup<E>(f: E -> Tally, left: seq<E>, x: E, right: seq<E>)
    ensures PoolBy(f, left + [x] + right) == Plus(PoolBy(f, left + right), f(x))
  {
    PoolByAppend(f, left + [x], right);
    PoolBySnoc(f, left, x);
    PoolByAppend(f, left, right);
  }

  /** Removing the last element of `a` and a matching element of `b` keeps
      the two multisets equal. */
  lemma RemoveMatching<T>(a: seq<T>, b: seq<T>, k: nat)
    requires multiset(a) == multiset(b) && a != [] && k < |b| && b[k] == a[|a| - 1]
    ensures multiset(a[..|a| - 1]) == multiset(b[..k] + b[k + 1..])
  {
    var n, x := |a| - 1, a[|a| - 1];
    assert a == a[..n] + [x];
    assert b == b[..k] + [x] + b[k + 1..];
    assert multiset(a[..n]) == multiset(a) - multiset{x};
    assert multiset(b[..k] + b[k + 1..]) == multiset(b) - multiset{x};
  }

  /** Pooling does not depend on the order of the elements. */
  lemma {:induction false} PoolByPermutation<E>(f: E -> Tally, a: seq<E>, b: seq<E>)
    requires multiset(a) == multiset(b)
    ensures PoolBy(f, a) == PoolBy(f, b)
    decreases |a|
  {
    if a == [] {
      assert |b| == |multiset(b)| == 0;
    } else {
      var n := |a| - 1;
      var x := a[n];
      assert x in multiset(b) by { assert a == a[..n] + [x]; }
      var k :| 0 <= k < |b| && b[k] == x;
      RemoveMatching(a, b, k);
      PoolByPermutation(f, a[..n], b[..k] + b[k + 1..]);
      PoolByRegroup(f, b[..k], x, b[k + 1..]);
      assert b == b[..k] + [x] + b[k + 1..];
    }
  }

  /** No row is pooled exactly when no element contributes a row. */
  lemma {:induction false} PoolByNoRows<E>(f: E -> Tally, s: seq<E>)
    ensures PoolBy(f, s).rows == 0 <==> forall i :: 0 <= i < |s| ==> f(s[i]).rows == 0
  {
    if s != [] {
      var n := |s| - 1;
      PoolByNoRows(f, s[..n]);
      assert forall i :: 0 <= i < n ==> s[..n][i] == s[i];
    }
  }

  /** When every element's tally counts `width` cells per row, so does the
      pooled tally. */
  lemma {:induction false} PoolByTotal<E>(f: E -> Tally, s: seq<E>, width: nat)
    requires forall i :: 0 <= i < |s| ==> Total(f(s[i])) == width * f(s[i]).rows
    ensures Total(PoolBy(f, s)) == width * PoolBy(f, s).rows
  {
    if s != [] {
      var n := |s| - 1;
      var front, last := PoolBy(f, s[..n]), f(s[n]);
      assert forall i :: 0 <= i < n ==> s[..n][i] == s[i];
      PoolByTotal(f, s[..n], width);
      calc {
        Total(PoolBy(f, s));
        Total(front) + Total(last);
        width * front.rows + width * last.rows;
        { MulDistributes(width, front.rows, last.rows); }
        width * (front.rows + last.rows);
        width * PoolBy(f, s).rows;
      }
    }
  }

  lemma MulDistributes(w: nat, a: nat, b: nat)
    ensures w * a + w * b == w * (a + b)
  {
  }

  /** Pooling a single element gives that element's tally. */
  lemma PoolBySingle<E>(f: E -> Tally, x: E)
    ensures PoolBy(f, [x]) == f(x)
  {
    assert [x][..0] == [];
  }

  predicate SameShape(yTrue: seq<seq<int>>, yPred: seq<seq<int>>)
  {
    |yTrue| == |yPred| && forall k :: 0 <= k < |yTrue| ==> |yTrue[k]| == |yPred[k]|
  }

  /** Micro pooling: every cell of every row pair, summed, one row at a time. */
  function MatrixTally(yTrue: seq<seq<int>>, yPred: seq<seq<int>>): Tally
    requires SameShape(yTrue, yPred)
  {
    if yTrue == [] then Empty
    else
      var n := |yTrue| - 1;
      Plus(MatrixTally(yTrue[..n], yPred[..n]), CellsTally(yTrue[n], yPred[n]).(rows := 1))
  }

  /** Reference definition of one row's counts, on sets: over the labels of
      `vocab`, true positives are gold and predicted, false positives predicted
      only, false negatives gold only, true negatives neither. */
  function SetTally(vocab: set<Dimension>, gold: set<Dimension>, pred: set<Dimension>): Tally
  {
    Tally(0, |gold * pred * vocab|, |(pred - gold) * vocab|, |(gold - pred) * vocab|,
          |vocab - (gold + pred)|)
  }

  /** Counting the cells of two indicator vectors gives the set counts. */
  lemma {:induction false} CellsTallyOfIndicators(vocab: seq<Dimension>, gold: set<Dimension>, pred: set<Dimension>)
    requires Distinct(vocab)
    ensures CellsTally(IndicatorOver(vocab, gold), IndicatorOver(vocab, pred))
         == SetTally(Elems(vocab), gold, pred)
  {
    if vocab == [] {
      assert Elems(vocab) == {};
    } else {
      var a, rest := vocab[0], vocab[1..];
      var g, p := IndicatorOver(vocab, gold), IndicatorOver(vocab, pred);
      IndicatorCons(vocab, gold);
      IndicatorCons(vocab, pred);
      CellsTallyOfIndicators(rest, gold, pred);
      ElemsCons(vocab);
      calc {
        CellsTally(g, p);
        Plus(CellTally(g[0], p[0]), CellsTally(g[1..], p[1..]));
        Plus(CellTally(g[0], p[0]), SetTally(Elems(rest), gold, pred));
        { SetTallyCons(a, Elems(rest), gold, pred); }
        SetTally({a} + Elems(rest), gold, pred);
      }
    }
  }

  /** The indicator vector over a non-empty vocabulary: its first entry, then
      the indicator vector over the rest. */
  lemma IndicatorCons(vocab: seq<Dimension>, s: set<Dimension>)
    requires vocab != []
    ensures IndicatorOver(vocab, s)[0] == if vocab[0] in s then 1 else 0
    ensures IndicatorOver(vocab, s)[1..] == IndicatorOver(vocab[1..], s)
  {
  }

  /** Adding a new label to the vocabulary adds its one cell to the set
      counts. */
  lemma SetTallyCons(a: Dimension, w: set<Dimension>, gold: set<Dimension>, pred: set<Dimension>)
    requires a !in w
    ensures SetTally({a} + w, gold, pred)
         == Plus(CellTally(if a in gold then 1 else 0, if a in pred then 1 else 0), SetTally(w, gold, pred))
  {
    CardCons(gold * pred, w, a);
    CardCons(pred - gold, w, a);
    CardCons(gold - pred, w, a);
    CardCons(gold + pred, w, a);
  }

  /** Adding one new element `a` to `w` changes the size of its intersection
      with `x`, or of its difference from `x`, by one. */
  lemma CardCons<T>(x: set<T>, w: set<T>, a: T)
    requires a !in w
    ensures |x * ({a} + w)| == |x * w| + (if a in x then 1 else 0)
    ensures |({a} + w) - x| == |w - x| + (if a in x then 0 else 1)
  {
    if a in x {
      assert x * ({a} + w) == {a} + x * w;
      assert ({a} + w) - x == w - x;
    } else {
      assert x * ({a} + w) == x * w;
      assert ({a} + w) - x == {a} + (w - x);
    }
  }

  /** Every cell falls in exactly one of the four counts. */
  lemma {:induction false} CellsTallyTotal(truth: seq<int>, pred: seq<int>)
    requires |truth| == |pred|
    ensures CellsTally(truth, pred).rows == 0
    ensures Total(CellsTally(truth, pred)) == |truth|
  {
    if truth != [] {
      CellsTallyTotal(truth[1..], pred[1..]);
      var rest := CellsTally(truth[1..], pred[1..]);
      var cell := CellTally(truth[0], pred[0]);
      assert Total(cell) == 1;
      assert CellsTally(truth, pred) == Plus(cell, rest);
    }
  }

  /** Per-row counts over the fixed vocabulary: the set counts, which add up
      to the vocabulary size. */
  lemma IndicatorTally(gold: set<Dimension>, pred: set<Dimension>)
    ensures CellsTally(Indicator(gold), Indicator(pred)) == SetTally(VocabularySet(), gold, pred)
    ensures Total(SetTally(VocabularySet(), gold, pred)) == 20
  {
    VocabularyIsDistinct();
    CellsTallyOfIndicators(Vocabulary, gold, pred);
    CellsTallyTotal(Indicator(gold), Indicator(pred));
  }

  /** Two sets have the same indicator vector exactly when they agree on the
      vocabulary; in particular names outside the vocabulary never show. */
  lemma IndicatorDeterminesVocabularyPart(s: set<Dimension>, t: set<Dimension>)
    ensures Indicator(s) == Indicator(t) <==> s * VocabularySet() == t * VocabularySet()
  {
    var v := Vocabulary;
    if Indicator(s) == Indicator(t) {
      forall d | d in s * VocabularySet() ensures d in t {
        var i :| 0 <= i < |v| && v[i] == d;
        assert Indicator(s)[i] == 1;
      }
      forall d | d in t * VocabularySet() ensures d in s {
        var i :| 0 <= i < |v| && v[i] == d;
        assert Indicator(t)[i] == 1;
      }
    }
    if s * VocabularySet() == t * VocabularySet() {
      forall i | 0 <= i < |v| ensures Indicator(s)[i] == Indicator(t)[i] {
        assert v[i] in VocabularySet();
        assert v[i] in s <==> v[i] in s * VocabularySet();
      }
    }
  }

  /** Precision, recall and F1 of one pooled tally. */
  datatype Scores = Scores(precision: real, recall: real, f1: real)

  const Zero := Scores(0.0, 0.0, 0.0)

  /** num / den, with 0 for a zero denominator. */
  function Ratio(num: nat, den: nat): (r: real)
    requires num <= den
    ensures 0.0 <= r <= 1.0
    ensures r == 0.0 <==> num == 0
    ensures r == 1.0 <==> 0 < num == den
    ensures 0 < den ==> r * den as real == num as real
  {
    if den == 0 then 0.0 else num as real / den as real
  }

  /** Micro precision TP/(TP+FP), recall TP/(TP+FN) and F1 2TP/(2TP+FP+FN),
      each 0 when its denominator is 0. */
  function Micro(t: Tally): (s: Scores)
    ensures 0.0 <= s.precision <= 1.0 && 0.0 <= s.recall <= 1.0 && 0.0 <= s.f1 <= 1.0
    ensures s.precision == 0.0 <==> t.tp == 0
    ensures s.recall == 0.0 <==> t.tp == 0
    ensures s.f1 == 0.0 <==> t.tp == 0
    ensures s.precision == 1.0 <==> 0 < t.tp && t.fp == 0
    ensures s.recall == 1.0 <==> 0 < t.tp && t.fn == 0
    ensures s.f1 == 1.0 <==> 0 < t.tp && t.fp == 0 && t.fn == 0
  {
    Scores(Ratio(t.tp, t.tp + t.fp), Ratio(t.tp, t.tp + t.fn), Ratio(2 * t.tp, 2 * t.tp + t.fp + t.fn))
  }

  /** F1 is the harmonic mean of precision and recall, and 0 when both are 0. */
  lemma F1IsHarmonicMean(t: Tally)
    ensures var s := Micro(t);
      s.precision + s.recall > 0.0 ==> s.f1 == 2.0 * s.precision * s.recall / (s.precision + s.recall)
    ensures var s := Micro(t); s.precision + s.recall == 0.0 ==> s.f1 == 0.0
  {
    var s := Micro(t);
    if t.tp > 0 {
      var a, b, c := t.tp as real, (t.tp + t.fp) as real, (t.tp + t.fn) as real;
      assert s.precision * b == a && s.recall * c == a;
      assert s.f1 * (b + c) == 2.0 * a;
      assert (s.precision + s.recall) * (b * c) == a * (b + c);
      assert 2.0 * s.precision * s.recall * (b * c) == 2.0 * a * a;
      assert s.f1 * (s.precision + s.recall) * (b * c) == 2.0 * s.precision * s.recall * (b * c);
    }
  }

  /** One true positive, no false positive, one false negative. */
  lemma OneHitOneMiss(t: Tally)
    requires t.tp == 1 && t.fp == 0 && t.fn == 1
    ensures Micro(t) == Scores(1.0, 0.5, 2.0 / 3.0)
  {
    assert Ratio(2, 3) == 2.0 / 3.0;
  }
}
