/** Optional values and weighted sums over sequences, shared by every component model. */
module Common {

  datatype Option<+T> = None | Some(value: T)

  /** The total weight of a sequence. Every counter and every "how many" in the
      project is one of these sums, with a named weight. */
  function Sum<T>(xs: seq<T>, weight: T -> nat): nat {
    if xs == [] then 0 else weight(xs[0]) + Sum(xs[1..], weight)
  }

  lemma {:induction false} SumConcat<T>(xs: seq<T>, ys: seq<T>, weight: T -> nat)
    ensures Sum(xs + ys, weight) == Sum(xs, weight) + Sum(ys, weight)
    decreases |xs|
  {
    if xs == [] {
      assert xs + ys == ys;
    } else {
      assert (xs + ys)[1..] == xs[1..] + ys;
      SumConcat(xs[1..], ys, weight);
    }
  }

  lemma SumAppend<T>(xs: seq<T>, y: T, weight: T -> nat)
    ensures Sum(xs + [y], weight) == Sum(xs, weight) + weight(y)
  {
    SumConcat(xs, [y], weight);
    SumOne(y, weight);
  }

  lemma SumOne<T>(y: T, weight: T -> nat)
    ensures Sum([y], weight) == weight(y)
  {
    assert Sum([y], weight) == weight([y][0]) + Sum([y][1..], weight);
  }

  /** Where an element sits in a sum: its weight plus that of everything around it. */
  lemma SumSplit<T>(xs: seq<T>, i: nat, weight: T -> nat)
    requires i < |xs|
    ensures Sum(xs, weight) == Sum(xs[..i], weight) + weight(xs[i]) + Sum(xs[i + 1..], weight)
  {
    assert xs == xs[..i] + [xs[i]] + xs[i + 1..];
    SumConcat(xs[..i] + [xs[i]], xs[i + 1..], weight);
    SumAppend(xs[..i], xs[i], weight);
  }

  lemma SumUpdate<T>(xs: seq<T>, i: nat, y: T, weight: T -> nat)
    requires i < |xs|
    ensures Sum(xs[i := y], weight) + weight(xs[i]) == Sum(xs, weight) + weight(y)
  {
    SumSplit(xs, i, weight);
    SumSplit(xs[i := y], i, weight);
    assert xs[i := y][..i] == xs[..i] && xs[i := y][i + 1..] == xs[i + 1..];
  }

  lemma SumRemove<T>(xs: seq<T>, i: nat, weight: T -> nat)
    requires i < |xs|
    ensures Sum(xs[..i] + xs[i + 1..], weight) + weight(xs[i]) == Sum(xs, weight)
  {
    SumSplit(xs, i, weight);
    SumConcat(xs[..i], xs[i + 1..], weight);
  }

  lemma SumInsert<T>(xs: seq<T>, i: nat, y: T, weight: T -> nat)
    requires i <= |xs|
    ensures Sum(xs[..i] + [y] + xs[i..], weight) == Sum(xs, weight) + weight(y)
  {
    assert xs == xs[..i] + xs[i..];
    SumConcat(xs[..i], xs[i..], weight);
    SumConcat(xs[..i] + [y], xs[i..], weight);
    SumAppend(xs[..i], y, weight);
  }

  /** A zero sum has only weightless elements, and conversely. */
  lemma {:induction false} SumZero<T>(xs: seq<T>, weight: T -> nat)
    ensures Sum(xs, weight) == 0 <==> forall i :: 0 <= i < |xs| ==> weight(xs[i]) == 0
    decreases |xs|
  {
    if xs != [] {
      SumZero(xs[1..], weight);
      if Sum(xs, weight) == 0 {
        forall i | 0 <= i < |xs| ensures weight(xs[i]) == 0 {
          if i > 0 { assert xs[i] == xs[1..][i - 1]; }
        }
      }
    }
  }

  /** Two different elements both count. */
  lemma SumTwo<T>(xs: seq<T>, i: nat, j: nat, weight: T -> nat)
    requires i < j < |xs|
    ensures Sum(xs, weight) >= weight(xs[i]) + weight(xs[j])
  {
    SumSplit(xs, i, weight);
    assert xs[i + 1..][j - i - 1] == xs[j];
    SumSplit(xs[i + 1..], j - i - 1, weight);
  }

  lemma RemoveMembers<T>(xs: seq<T>, k: nat)
    requires k < |xs|
    ensures forall x :: x in xs && x != xs[k] ==> x in xs[..k] + xs[k + 1..]
    ensures forall x :: x in xs[..k] + xs[k + 1..] ==> x in xs
  {
    assert xs == xs[..k] + [xs[k]] + xs[k + 1..];
  }

  lemma InsertMembers<T>(xs: seq<T>, k: nat, y: T)
    requires k <= |xs|
    ensures forall x :: x in xs[..k] + [y] + xs[k..] <==> x in xs || x == y
  {
    assert xs == xs[..k] + xs[k..];
  }

  predicate Distinct<T(==)>(xs: seq<T>) { forall i, j :: 0 <= i < j < |xs| ==> xs[i] != xs[j] }

  function Members<T>(xs: seq<T>): set<T> { set x | x in xs }

  lemma DistinctSuffix<T>(xs: seq<T>, i: nat)
    requires Distinct(xs) && i < |xs|
    ensures xs[i] in xs[i..] && xs[i] !in xs[i + 1..]
    ensures Members(xs[i..]) - {xs[i]} == Members(xs[i + 1..])
  {
    assert xs[i..] == [xs[i]] + xs[i + 1..];
  }

  lemma RemoveIndex<T>(xs: seq<T>, k: nat, j: nat)
    requires k < |xs| && j < |xs| - 1
    ensures (xs[..k] + xs[k + 1..])[j] == xs[if j < k then j else j + 1]
  {
  }
}
