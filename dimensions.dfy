/** The fixed label vocabulary: the twenty ideological dimensions that are the
    keys of DIMENSIONS_DESCRIPTIONS, in the dictionary's insertion order.
    Dimension names are plain strings, because hypotheses and user selections
    carry names that need not belong to the vocabulary. */
module Dimensions {

  type Dimension = string

  const Vocabulary: seq<Dimension> := [
    "LRGEN", "LRECON", "GALTAN", "SPENDVTAX", "DEREGULATION",
    "REDISTRIBUTION", "ECON_INTERVEN", "CIVLIB_LAWORDER", "SOCIALLIFESTYLE",
    "RELIGIOUS_PRINCIPLES", "IMMIGRATE_POLICY", "MULTICULTURALISM",
    "URBAN_RURAL", "ENVIRONMENT", "COSMO", "PROTECTIONISM", "REGIONS",
    "INTERNATIONAL_SECURITY", "ETHNIC_MINORITIES", "EU_INTEGRATION"
  ]

  /** The elements of a sequence, as a set. */
  function Elems<T>(s: seq<T>): set<T>
  {
    set i | 0 <= i < |s| :: s[i]
  }

  /** The vocabulary as a set. */
  function VocabularySet(): set<Dimension>
  {
    Elems(Vocabulary)
  }

  predicate Distinct<T(==)>(s: seq<T>)
  {
    forall i, j :: 0 <= i < j < |s| ==> s[i] != s[j]
  }

  /** A dictionary's keys are pairwise different. */
  lemma VocabularyIsDistinct()
    ensures |Vocabulary| == 20 && Distinct(Vocabulary)
  {
  }

  /** A sequence without repetitions has as many elements as its set. */
  lemma {:induction false} DistinctCard<T>(s: seq<T>)
    requires Distinct(s)
    ensures |Elems(s)| == |s|
  {
    if s != [] {
      DistinctCard(s[1..]);
      ElemsCons(s);
    }
  }

  /** The set of a non-empty sequence splits into its head and the set of its
      tail; without repetitions, the head is not in the tail. */
  lemma ElemsCons<T>(s: seq<T>)
    requires s != []
    ensures Elems(s) == {s[0]} + Elems(s[1..])
    ensures Distinct(s) ==> s[0] !in Elems(s[1..])
  {
    forall x | x in Elems(s) ensures x in {s[0]} + Elems(s[1..]) {
      var i :| 0 <= i < |s| && s[i] == x;
      if i > 0 { assert s[1..][i - 1] == x; }
    }
    forall x | x in Elems(s[1..]) ensures x in Elems(s) {
      var i :| 0 <= i < |s[1..]| && s[1..][i] == x;
      assert s[i + 1] == x;
    }
  }

  /** The vocabulary has exactly twenty members. */
  lemma VocabularySetSize()
    ensures |VocabularySet()| == 20
  {
    VocabularyIsDistinct();
    DistinctCard(Vocabulary);
  }
}
