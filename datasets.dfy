/**
 * Building the Dataset handed to the native builders: a plain copy of a
 * field's buffered vectors, a copy reordered by the segment sort, or the
 * vectors drained from the merged values of several segments.
 */
module Datasets {

  /**
   * new2Old maps every new ordinal below n to a distinct old ordinal below n,
   * which is what the inherited mapOldOrdToNewOrd produces.
   */
  predicate IsPermutation(new2Old: seq<int>, n: nat)
  {
    && |new2Old| == n
    && (forall i :: 0 <= i < n ==> 0 <= new2Old[i] < n)
    && (forall i, j :: 0 <= i < j < n ==> new2Old[i] != new2Old[j])
  }

  /** The dataset of a sorted flush: position i holds the vector of old ordinal new2Old[i]. */
  function Reorder<V>(vectors: seq<V>, new2Old: seq<int>): seq<V>
    requires forall i :: 0 <= i < |new2Old| ==> 0 <= new2Old[i] < |vectors|
  {
    seq(|new2Old|, i requires 0 <= i < |new2Old| => vectors[new2Old[i]])
  }

  /** writeField: add every buffered vector to the dataset, in ordinal order. */
  method CopyVectors<V>(vectors: seq<V>) returns (dataset: seq<V>)
    ensures dataset == vectors
  {
    dataset := [];
    var i := 0;
    while i < |vectors|
      invariant 0 <= i <= |vectors|
      invariant dataset == vectors[..i]
    {
      dataset := dataset + [vectors[i]];
      i := i + 1;
    }
  }

  /** writeSortingField: position i of the dataset receives oldVectors[new2OldOrd[i]]. */
  method ReorderVectors<V>(oldVectors: seq<V>, new2OldOrd: seq<int>) returns (dataset: seq<V>)
    requires |new2OldOrd| == |oldVectors|
    requires forall i :: 0 <= i < |new2OldOrd| ==> 0 <= new2OldOrd[i] < |oldVectors|
    ensures |dataset| == |oldVectors|
    ensures forall i :: 0 <= i < |dataset| ==> dataset[i] == oldVectors[new2OldOrd[i]]
  {
    dataset := [];
    var i := 0;
    while i < |oldVectors|
      invariant 0 <= i <= |oldVectors|
      invariant |dataset| == i
      invariant forall k :: 0 <= k < i ==> dataset[k] == oldVectors[new2OldOrd[k]]
    {
      dataset := dataset + [oldVectors[new2OldOrd[i]]];
      i := i + 1;
    }
  }

  /** The old ordinals reached by the first k new ordinals. */
  function Image(new2Old: seq<int>, k: nat): set<int>
    requires k <= |new2Old|
  {
    set i | 0 <= i < k :: new2Old[i]
  }

  /** The ordinals 0 .. n-1. */
  function Ordinals(n: nat): (s: set<int>)
    ensures forall j :: j in s <==> 0 <= j < n
  {
    if n == 0 then {} else Ordinals(n - 1) + {n - 1}
  }

  /** Some new ordinal maps to old ordinal j. */
  predicate Reached(new2Old: seq<int>, j: int)
  {
    exists i :: 0 <= i < |new2Old| && new2Old[i] == j
  }

  lemma {:induction false} ImageSize(new2Old: seq<int>, n: nat, k: nat)
    requires IsPermutation(new2Old, n) && k <= n
    ensures |Image(new2Old, k)| == k
  {
    if k > 0 {
      ImageSize(new2Old, n, k - 1);
      assert Image(new2Old, k) == Image(new2Old, k - 1) + {new2Old[k - 1]};
      assert new2Old[k - 1] !in Image(new2Old, k - 1);
    }
  }

  lemma {:induction false} OrdinalsSize(n: nat)
    ensures |Ordinals(n)| == n
  {
    if n > 0 {
      var below := Ordinals(n - 1);
      OrdinalsSize(n - 1);
      assert n - 1 !in below;
      assert Ordinals(n) == below + {n - 1};
      assert |below + {n - 1}| == |below| + 1;
    }
  }

  /** A permutation reaches every old ordinal (no vector is lost or doubled). */
  lemma PermutationIsOnto(new2Old: seq<int>, n: nat)
    requires IsPermutation(new2Old, n)
    ensures forall j :: 0 <= j < n ==> Reached(new2Old, j)
  {
    var img, all := Image(new2Old, n), Ordinals(n);
    ImageSize(new2Old, n, n);
    OrdinalsSize(n);
    assert img <= all;
    assert all == img + (all - img);
    assert |all - img| == 0;
    forall j | 0 <= j < n
      ensures Reached(new2Old, j)
    {
      assert j in all;
      assert j in img;
    }
  }

  /**
   * A sorted flush keeps every buffered vector: each old ordinal j appears
   * at the new ordinal that maps to it.
   */
  lemma ReorderKeepsEveryVector<V>(vectors: seq<V>, new2Old: seq<int>)
    requires IsPermutation(new2Old, |vectors|)
    ensures |Reorder(vectors, new2Old)| == |vectors|
    ensures forall j :: 0 <= j < |vectors| ==> Reached(new2Old, j)
    ensures forall i :: 0 <= i < |vectors| ==> Reorder(vectors, new2Old)[i] == vectors[new2Old[i]]
  {
    PermutationIsOnto(new2Old, |vectors|);
  }

  /** Doc ids strictly increase, as a DocIndexIterator delivers them. */
  predicate DocsIncreasing<V>(values: seq<(nat, V)>)
  {
    forall i, j :: 0 <= i < j < |values| ==> values[i].0 < values[j].0
  }

  /** The documents that carried a value. */
  function DocsOf<V>(values: seq<(nat, V)>, k: nat): set<nat>
    requires k <= |values|
  {
    set i | 0 <= i < k :: values[i].0
  }

  /**
   * getVectorData: drain the merged (doc, vector) pairs into the dataset and
   * return the number of documents that carried a value. The iterator
   * delivers strictly increasing doc ids, which DocsWithFieldSet.add demands.
   */
  method GetVectorData<V>(values: seq<(nat, V)>) returns (dataset: seq<V>, cardinality: nat)
    requires DocsIncreasing(values)
    ensures |dataset| == |values|
    ensures forall i :: 0 <= i < |values| ==> dataset[i] == values[i].1
    ensures cardinality == |DocsOf(values, |values|)| == |values|
  {
    dataset := [];
    var docsWithField: set<nat> := {};
    var count := 0;
    while count < |values|
      invariant 0 <= count <= |values|
      invariant |dataset| == count
      invariant forall i :: 0 <= i < count ==> dataset[i] == values[i].1
      invariant docsWithField == DocsOf(values, count)
      invariant |docsWithField| == count
    {
      var (docV, vec) := values[count];
      dataset := dataset + [vec];
      assert docV !in docsWithField;
      docsWithField := docsWithField + {docV};
      assert DocsOf(values, count + 1) == DocsOf(values, count) + {values[count].0};
      count := count + 1;
    }
    cardinality := |docsWithField|;
  }
}
