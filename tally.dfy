/**
 * Counting how often each value occurs in a sequence of optional values in
 * a dictionary kept in insertion order, and taking the key with the largest
 * count, the first one among equals, as Python's `dict` and `max` do.
 */
module Tally {
  import opened Wrappers
  import opened Seqs

  /** How many of the choices are `x`. */
  function Count<K(==)>(x: K, choices: seq<Option<K>>): nat
  {
    multiset(choices)[Some(x)]
  }

  /** A value is counted exactly when it was chosen. */
  lemma CountPositive<K>(x: K, choices: seq<Option<K>>)
    ensures Count(x, choices) > 0 <==> Some(x) in choices
  {
  }

  lemma CountSnoc<K>(x: K, s: seq<Option<K>>, c: Option<K>)
    ensures Count(x, s + [c]) == Count(x, s) + (if c == Some(x) then 1 else 0)
  {
    assert multiset(s + [c]) == multiset(s) + multiset{c};
  }

  /**
   * `r` is chosen most often, and among the values chosen as often it is
   * the one chosen first.
   */
  ghost predicate MostChosen<K(!new)>(choices: seq<Option<K>>, r: K)
  {
    && Some(r) in choices
    && (forall x :: Count(x, choices) <= Count(r, choices))
    && (forall x :: Some(x) in choices && Count(x, choices) == Count(r, choices) ==>
          IndexOf(choices, Some(r)) <= IndexOf(choices, Some(x)))
  }

  /** Where `key` sits in a dictionary kept as its entries in insertion order. */
  function KeyIndex<K(==)>(entries: seq<(K, nat)>, key: K): (r: Option<nat>)
    ensures r.Some? ==> r.value < |entries| && entries[r.value].0 == key
    ensures r.None? ==> forall m :: 0 <= m < |entries| ==> entries[m].0 != key
  {
    if |entries| == 0 then None
    else if entries[|entries| - 1].0 == key then Some(|entries| - 1)
    else KeyIndex(entries[..|entries| - 1], key)
  }

  /** `counts[key] = counts.get(key, 0) + 1` on a dictionary kept in insertion order. */
  function Increment<K(==)>(counts: seq<(K, nat)>, key: K): (r: seq<(K, nat)>)
    ensures KeyIndex(counts, key).Some? ==>
      var m := KeyIndex(counts, key).value; r == counts[m := (key, counts[m].1 + 1)]
    ensures KeyIndex(counts, key).None? ==> r == counts + [(key, 1)]
  {
    var at := KeyIndex(counts, key);
    if at.Some? then counts[at.value := (key, counts[at.value].1 + 1)] else counts + [(key, 1)]
  }

  /** The counts after one more choice: a choice of nothing is not counted. */
  function NextCounts<K(==)>(counts: seq<(K, nat)>, choice: Option<K>): seq<(K, nat)>
  {
    if choice.Some? then Increment(counts, choice.value) else counts
  }

  /** The dictionary the counting loop builds from a sequence of choices. */
  function TallyOf<K(==)>(choices: seq<Option<K>>): (r: seq<(K, nat)>)
    ensures |r| <= |choices|
    ensures forall k :: 0 <= k < |r| ==> Some(r[k].0) in choices
  {
    if |choices| == 0 then []
    else NextCounts(TallyOf(choices[..|choices| - 1]), choices[|choices| - 1])
  }

  /** Where each counted value was first chosen, entry by entry. */
  ghost function FirstsOf<K>(choices: seq<Option<K>>): seq<nat>
  {
    if |choices| == 0 then []
    else
      var init := choices[..|choices| - 1];
      var c := choices[|choices| - 1];
      if c.Some? && KeyIndex(TallyOf(init), c.value).None? then FirstsOf(init) + [|init|] else FirstsOf(init)
  }

  /**
   * `counts` holds each chosen value once, with the number of times it was
   * chosen, and holds every chosen value.
   */
  ghost predicate CountsTally<K>(choices: seq<Option<K>>, counts: seq<(K, nat)>)
  {
    && (forall m :: 0 <= m < |counts| ==> counts[m].1 == Count(counts[m].0, choices) > 0)
    && (forall m, n :: 0 <= m < n < |counts| ==> counts[m].0 != counts[n].0)
    && (forall k :: 0 <= k < |choices| && choices[k].Some? ==> KeyIndex(counts, choices[k].value).Some?)
  }

  /** `firsts` holds where each entry of `counts` was first chosen, in increasing order. */
  ghost predicate FirstsTally<K>(choices: seq<Option<K>>, counts: seq<(K, nat)>, firsts: seq<nat>)
  {
    && |firsts| == |counts|
    && (forall m :: 0 <= m < |counts| ==> firsts[m] < |choices| && choices[firsts[m]] == Some(counts[m].0))
    && (forall m, k :: 0 <= m < |counts| && 0 <= k < firsts[m] ==> choices[k] != Some(counts[m].0))
    && (forall m, n :: 0 <= m < n < |counts| ==> firsts[m] < firsts[n])
  }

  /** The counts are right, and their entries are in the order of first choice. */
  ghost predicate Tallied<K>(choices: seq<Option<K>>, counts: seq<(K, nat)>, firsts: seq<nat>)
  {
    CountsTally(choices, counts) && FirstsTally(choices, counts, firsts)
  }

  /** A choice of nothing changes no count. */
  lemma CountsStepNone<K>(s: seq<Option<K>>, counts: seq<(K, nat)>)
    requires CountsTally(s, counts)
    ensures CountsTally(s + [None], counts)
  {
    forall x
      ensures Count(x, s + [None]) == Count(x, s)
    {
      CountSnoc(x, s, None);
    }
  }

  /** Choosing a value already counted adds one to its entry. */
  lemma CountsStepKnown<K>(s: seq<Option<K>>, key: K, counts: seq<(K, nat)>)
    requires CountsTally(s, counts) && KeyIndex(counts, key).Some?
    ensures CountsTally(s + [Some(key)], Increment(counts, key))
  {
    var s' := s + [Some(key)];
    var m := KeyIndex(counts, key).value;
    var counts' := Increment(counts, key);
    forall x
      ensures Count(x, s') == Count(x, s) + (if x == key then 1 else 0)
    {
      CountSnoc(x, s, Some(key));
    }
    forall n | 0 <= n < |counts'|
      ensures counts'[n].0 == counts[n].0
      ensures counts'[n].1 == Count(counts'[n].0, s') > 0
    {
      if n != m {
        assert counts[n].0 != counts[m].0;
      }
    }
    forall k | 0 <= k < |s'| && s'[k].Some?
      ensures KeyIndex(counts', s'[k].value).Some?
    {
      if k < |s| {
        var j := KeyIndex(counts, s[k].value).value;
        assert counts'[j].0 == s[k].value;
      } else {
        assert counts'[m].0 == key;
      }
    }
  }

  /** Choosing a value for the first time appends an entry counting one. */
  lemma CountsStepNew<K>(s: seq<Option<K>>, key: K, counts: seq<(K, nat)>)
    requires CountsTally(s, counts) && KeyIndex(counts, key).None?
    ensures Some(key) !in s
    ensures CountsTally(s + [Some(key)], Increment(counts, key))
  {
    var s' := s + [Some(key)];
    var counts' := Increment(counts, key);
    forall x
      ensures Count(x, s') == Count(x, s) + (if x == key then 1 else 0)
    {
      CountSnoc(x, s, Some(key));
    }
    CountPositive(key, s);
    assert counts' == counts + [(key, 1)];
    forall n | 0 <= n < |counts'|
      ensures counts'[n].1 == Count(counts'[n].0, s') > 0
    {
      if n < |counts| {
        assert counts'[n] == counts[n] && counts[n].0 != key;
      }
    }
    forall k | 0 <= k < |s'| && s'[k].Some?
      ensures KeyIndex(counts', s'[k].value).Some?
    {
      if k < |s| {
        var j := KeyIndex(counts, s[k].value).value;
        assert counts'[j].0 == s[k].value;
      } else {
        assert counts'[|counts|].0 == key;
      }
    }
  }

  /** A choice that adds no key keeps the positions of first choice. */
  lemma FirstsStepKept<K>(s: seq<Option<K>>, c: Option<K>, counts: seq<(K, nat)>, counts': seq<(K, nat)>, firsts: seq<nat>)
    requires FirstsTally(s, counts, firsts)
    requires |counts'| == |counts| && forall m :: 0 <= m < |counts| ==> counts'[m].0 == counts[m].0
    ensures FirstsTally(s + [c], counts', firsts)
  {
    var s' := s + [c];
    assert forall k :: 0 <= k < |s| ==> s'[k] == s[k];
  }

  /** A value chosen for the first time is first chosen at the end. */
  lemma FirstsStepNew<K>(s: seq<Option<K>>, key: K, counts: seq<(K, nat)>, firsts: seq<nat>)
    requires FirstsTally(s, counts, firsts) && Some(key) !in s
    ensures FirstsTally(s + [Some(key)], counts + [(key, 1)], firsts + [|s|])
  {
    var s' := s + [Some(key)];
    assert forall k :: 0 <= k < |s| ==> s'[k] == s[k];
  }

  /** One more choice keeps the tally. */
  lemma TallyStep<K>(s: seq<Option<K>>, c: Option<K>, counts: seq<(K, nat)>, firsts: seq<nat>)
    requires Tallied(s, counts, firsts)
    ensures c.Some? && KeyIndex(counts, c.value).None? ==>
      Tallied(s + [c], NextCounts(counts, c), firsts + [|s|])
    ensures !(c.Some? && KeyIndex(counts, c.value).None?) ==>
      Tallied(s + [c], NextCounts(counts, c), firsts)
  {
    if c.None? {
      CountsStepNone(s, counts);
      FirstsStepKept(s, c, counts, counts, firsts);
    } else if KeyIndex(counts, c.value).Some? {
      CountsStepKnown(s, c.value, counts);
      FirstsStepKept(s, c, counts, Increment(counts, c.value), firsts);
    } else {
      CountsStepNew(s, c.value, counts);
      FirstsStepNew(s, c.value, counts, firsts);
    }
  }

  /** The dictionary the loop builds is a correct tally of the choices. */
  lemma {:induction false} TallyOfTallied<K>(choices: seq<Option<K>>)
    ensures Tallied(choices, TallyOf(choices), FirstsOf(choices))
    decreases |choices|
  {
    if |choices| > 0 {
      var init := choices[..|choices| - 1];
      TallyOfTallied(init);
      assert choices == init + [choices[|choices| - 1]];
      TallyStep(init, choices[|choices| - 1], TallyOf(init), FirstsOf(init));
    }
  }

  /** `max(counts, key=counts.get)`: the index of the first entry with the largest count. */
  function FirstMaximum<K>(counts: seq<(K, nat)>): (b: nat)
    requires |counts| > 0
    ensures b < |counts|
    ensures forall m :: 0 <= m < |counts| ==> counts[m].1 <= counts[b].1
    ensures forall m :: 0 <= m < b ==> counts[m].1 < counts[b].1
  {
    if |counts| == 1 then 0
    else
      var b := FirstMaximum(counts[..|counts| - 1]);
      if counts[|counts| - 1].1 > counts[b].1 then |counts| - 1 else b
  }

  /** The first entry with the largest count is the value chosen most often, and first among equals. */
  lemma MaxIsMostChosen<K(!new)>(choices: seq<Option<K>>, counts: seq<(K, nat)>, firsts: seq<nat>, b: nat)
    requires Tallied(choices, counts, firsts) && b < |counts|
    requires forall m :: 0 <= m < |counts| ==> counts[m].1 <= counts[b].1
    requires forall m :: 0 <= m < b ==> counts[m].1 < counts[b].1
    ensures MostChosen(choices, counts[b].0)
  {
    var best := counts[b].0;
    forall x
      ensures Count(x, choices) <= Count(best, choices)
      ensures Some(x) in choices && Count(x, choices) == Count(best, choices) ==>
        IndexOf(choices, Some(best)) <= IndexOf(choices, Some(x))
    {
      CountPositive(x, choices);
      if Some(x) in choices {
        var k := IndexOf(choices, Some(x));
        var m := KeyIndex(counts, x).value;
        assert IndexOf(choices, Some(x)) == firsts[m];
        assert IndexOf(choices, Some(best)) == firsts[b];
      }
    }
  }

  /** The dictionary is empty exactly when nothing was chosen. */
  lemma TallyEmpty<K>(choices: seq<Option<K>>)
    ensures |TallyOf(choices)| == 0 <==> forall k :: 0 <= k < |choices| ==> choices[k].None?
  {
    TallyOfTallied(choices);
    if |TallyOf(choices)| == 0 {
      forall k | 0 <= k < |choices|
        ensures choices[k].None?
      {
        if choices[k].Some? {
          CountPositive(choices[k].value, choices);
        }
      }
    } else {
      var firsts := FirstsOf(choices);
      assert choices[firsts[0]].Some?;
    }
  }

  /** `max` over the dictionary the loop builds is the value chosen most often, first among equals. */
  lemma TallyMaximum<K(!new)>(choices: seq<Option<K>>)
    requires |TallyOf(choices)| > 0
    ensures MostChosen(choices, TallyOf(choices)[FirstMaximum(TallyOf(choices))].0)
  {
    TallyOfTallied(choices);
    MaxIsMostChosen(choices, TallyOf(choices), FirstsOf(choices), FirstMaximum(TallyOf(choices)));
  }
}
