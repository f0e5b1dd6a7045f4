/**
 * Sequence and number helpers shared by several parts of the model:
 * Python's `list.index`, swapping two entries of a list in place,
 * appending the entries a list does not hold yet, and powers of two.
 */
module Seqs {
  /** `s.index(x)`: the position of the first occurrence of `x`. */
  function IndexOf<T(==)>(s: seq<T>, x: T): (r: nat)
    requires x in s
    ensures r < |s| && s[r] == x
    ensures forall k :: 0 <= k < r ==> s[k] != x
  {
    if s[0] == x then 0 else 1 + IndexOf(s[1..], x)
  }

  /** `s[i], s[j] = s[j], s[i]`: the two entries trade places. */
  function Swap<T>(s: seq<T>, i: nat, j: nat): (r: seq<T>)
    requires i < |s| && j < |s|
    ensures |r| == |s| && r[i] == s[j] && r[j] == s[i]
    ensures forall k :: 0 <= k < |r| && k != i && k != j ==> r[k] == s[k]
    ensures multiset(r) == multiset(s)
  {
    s[i := s[j]][j := s[i]]
  }

  /**
   * What appending every missing entry of `incoming` to `have` adds: the
   * entries not in `have`, each once, at its first occurrence, in order.
   */
  function NewItems<T(==, !new)>(have: seq<T>, incoming: seq<T>): (r: seq<T>)
    ensures forall x :: x in r <==> x in incoming && x !in have
    ensures forall i, j :: 0 <= i < j < |r| ==> r[i] != r[j]
  {
    if incoming == [] then []
    else
      var init, x := incoming[..|incoming| - 1], incoming[|incoming| - 1];
      assert incoming == init + [x];
      NewItems(have, init) + (if x in have || x in init then [] else [x])
  }

  /**
   * One more incoming entry: it is added exactly when neither `have` nor what
   * was added so far holds it.
   */
  lemma NewItemsStep<T(!new)>(have: seq<T>, incoming: seq<T>, i: nat)
    requires i < |incoming|
    ensures NewItems(have, incoming[..i + 1])
         == NewItems(have, incoming[..i]) + (if incoming[i] in have || incoming[i] in NewItems(have, incoming[..i]) then [] else [incoming[i]])
  {
    assert incoming[..i + 1][..i] == incoming[..i];
  }

  /** Appending the missing entries keeps a list free of duplicates. */
  lemma AppendNewItems<T(!new)>(have: seq<T>, incoming: seq<T>)
    requires forall i, j :: 0 <= i < j < |have| ==> have[i] != have[j]
    ensures var r := have + NewItems(have, incoming);
            forall i, j :: 0 <= i < j < |r| ==> r[i] != r[j]
  {
    var added := NewItems(have, incoming);
    var r := have + added;
    forall i, j | 0 <= i < j < |r|
      ensures r[i] != r[j]
    {
      if j >= |have| {
        assert r[j] == added[j - |have|] && r[j] in added;
        if i >= |have| {
          assert r[i] == added[i - |have|];
        }
      }
    }
  }

  /** Nothing is added when `have` already holds every incoming entry. */
  lemma {:induction false} NewItemsNone<T(!new)>(have: seq<T>, incoming: seq<T>)
    requires forall k :: 0 <= k < |incoming| ==> incoming[k] in have
    ensures NewItems(have, incoming) == []
  {
    if incoming != [] {
      NewItemsNone(have, incoming[..|incoming| - 1]);
    }
  }

  /** Appending the missing entries a second time adds nothing. */
  lemma NewItemsSettled<T(!new)>(have: seq<T>, incoming: seq<T>)
    ensures NewItems(have + NewItems(have, incoming), incoming) == []
  {
    var once := have + NewItems(have, incoming);
    forall k | 0 <= k < |incoming|
      ensures incoming[k] in once
    {
      assert incoming[k] in have || incoming[k] in NewItems(have, incoming);
    }
    NewItemsNone(once, incoming);
  }

  function Pow2(n: nat): (r: nat)
    ensures r >= 1
  {
    if n == 0 then 1 else 2 * Pow2(n - 1)
  }
}
