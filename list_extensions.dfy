/**
 * The collection helpers of `ListExtensions`: reordering a list by the order
 * of a key list (`preserveOrderOf` and its four public wrappers), delimited
 * joins, array slicing, appending and projection, and dictionary merging.
 */
module ListExtensions {
  import opened Wrappers
  import opened Text

  // =====================================================================
  // preserveOrderOf: specification

  const OrdinalCountMessage: string :=
    "Cannot preserve ordinals if set count and ordered count do not match"

  /**
   * The message of the `ArgumentException` that the runtime's `Array.Copy`
   * throws for a source range running past the end of the source array (the
   * parameter it names, `sourceArray`, is not modelled).
   */
  const CopySourceTooShortMessage: string :=
    "Source array was not long enough. Check the source index, length, and the array's lower bounds."

  /**
   * The inner search of `preserveOrderOf`: the first index at or after `from`
   * whose element is not yet used and compares equal to `key`.
   */
  function FirstUnused<T1, T2>(items: seq<T1>, used: seq<bool>, key: T2, compare: (T1, T2) -> bool, from: nat)
    : (r: Option<nat>)
    requires |used| == |items| && from <= |items|
    ensures r.Some? ==> from <= r.value < |items| && !used[r.value] && compare(items[r.value], key)
    ensures forall j :: from <= j < (if r.Some? then r.value else |items|) ==> used[j] || !compare(items[j], key)
    decreases |items| - from
  {
    if from == |items| then None
    else if !used[from] && compare(items[from], key) then Some(from)
    else FirstUnused(items, used, key, compare, from + 1)
  }

  /**
   * The state of the outer loop of `preserveOrderOf`: for each key handled so
   * far, the index of the element picked for it (if any), and the `used` flags.
   */
  datatype Scan = Scan(picks: seq<Option<nat>>, used: seq<bool>)

  predicate PicksIn(picks: seq<Option<nat>>, n: nat) {
    forall a :: 0 <= a < |picks| && picks[a].Some? ==> picks[a].value < n
  }

  /** The outer loop of `preserveOrderOf` run over the keys `ordered`. */
  function Matching<T1, T2>(items: seq<T1>, ordered: seq<T2>, compare: (T1, T2) -> bool): (m: Scan)
    ensures |m.picks| == |ordered| && |m.used| == |items| && PicksIn(m.picks, |items|)
    ensures forall a :: 0 <= a < |m.picks| && m.picks[a].Some? ==> m.used[m.picks[a].value]
    decreases |ordered|
  {
    if ordered == [] then Scan([], seq(|items|, _ => false))
    else
      var prev := Matching(items, ordered[..|ordered| - 1], compare);
      var p := FirstUnused(items, prev.used, ordered[|ordered| - 1], compare, 0);
      Scan(prev.picks + [p], if p.Some? then prev.used[p.value := true] else prev.used)
  }

  /** The output slot for one key in ordinal mode: the picked element or `default(T1)`. */
  function Slot<T>(items: seq<T>, pick: Option<nat>, zero: T): T
    requires pick.Some? ==> pick.value < |items|
  {
    if pick.Some? then items[pick.value] else zero
  }

  function Slots<T>(items: seq<T>, picks: seq<Option<nat>>, zero: T): (r: seq<T>)
    requires PicksIn(picks, |items|)
  {
    seq(|picks|, a requires 0 <= a < |picks| => Slot(items, picks[a], zero))
  }

  /** The picked elements, in the order of the keys they were picked for. */
  function Picked<T>(items: seq<T>, picks: seq<Option<nat>>): seq<T>
    requires PicksIn(picks, |items|)
  {
    if picks == [] then []
    else
      var last := picks[|picks| - 1];
      Picked(items, picks[..|picks| - 1]) + (if last.Some? then [items[last.value]] else [])
  }

  /** The elements whose `used` flag is clear, in their original order. */
  function Unused<T>(items: seq<T>, used: seq<bool>): seq<T>
    requires |used| == |items|
  {
    if items == [] then []
    else
      Unused(items[..|items| - 1], used[..|used| - 1])
      + (if used[|used| - 1] then [] else [items[|items| - 1]])
  }

  /** Non-ordinal mode: the picked elements first, then every unused element. */
  function Reordered<T1, T2>(items: seq<T1>, ordered: seq<T2>, compare: (T1, T2) -> bool): seq<T1>
  {
    var m := Matching(items, ordered, compare);
    Picked(items, m.picks) + Unused(items, m.used)
  }

  /** What `preserveOrderOf` yields, or the exception it throws. */
  function PreserveOrder<T1, T2>(items: seq<T1>, ordered: seq<T2>, compare: (T1, T2) -> bool,
                                 preserveOrdinal: bool, zero: T1): Result<seq<T1>>
  {
    if preserveOrdinal && |ordered| != |items| then Failure(Argument(OrdinalCountMessage))
    else if preserveOrdinal then Success(Slots(items, Matching(items, ordered, compare).picks, zero))
    else Success(Reordered(items, ordered, compare))
  }

  // =====================================================================
  // preserveOrderOf: the loops

  /**
   * `preserveOrderOf`: nested loops over the keys and the elements, marking
   * each element in the `used` array when it is picked.
   */
  method PreserveOrderOf<T1, T2>(items: seq<T1>, ordered: seq<T2>, compare: (T1, T2) -> bool,
                                 preserveOrdinal: bool, zero: T1)
    returns (r: Result<seq<T1>>)
    ensures r == PreserveOrder(items, ordered, compare, preserveOrdinal, zero)
  {
    if preserveOrdinal && |ordered| != |items| {
      return Failure(Argument(OrdinalCountMessage));
    }
    var output, used := MatchKeys(items, ordered, compare, preserveOrdinal, zero);
    if !preserveOrdinal {
      output := AppendUnused(output, items, used);
    }
    return Success(output);
  }

  /**
   * The outer loop of `preserveOrderOf`: for each key, the first unused equal
   * element is taken (or, in ordinal mode, `default(T1)` stands in for it).
   */
  method MatchKeys<T1, T2>(items: seq<T1>, ordered: seq<T2>, compare: (T1, T2) -> bool,
                           preserveOrdinal: bool, zero: T1)
    returns (output: seq<T1>, used: array<bool>)
    ensures fresh(used)
    ensures used[..] == Matching(items, ordered, compare).used
    ensures output == Emitted(items, Matching(items, ordered, compare).picks, preserveOrdinal, zero)
  {
    used := new bool[|items|](_ => false);
    output := [];
    ghost var picks: seq<Option<nat>> := [];
    assert ordered[..0] == [];
    for i := 0 to |ordered|
      invariant Matching(items, ordered[..i], compare) == Scan(picks, used[..])
      invariant output == Emitted(items, picks, preserveOrdinal, zero)
    {
      ghost var before := used[..];
      var pick := TakeFirstUnused(items, used, ordered[i], compare);
      MatchingStep(items, ordered, compare, i, picks, before, pick);
      EmittedSnoc(items, picks, pick, preserveOrdinal, zero);
      if pick.Some? {
        output := output + [items[pick.value]];
      } else if preserveOrdinal {
        output := output + [zero];
      }
      picks := picks + [pick];
      assert Matching(items, ordered[..i + 1], compare) == Scan(picks, used[..]);
    }
    assert ordered[..|ordered|] == ordered;
  }

  /**
   * The inner loop of `preserveOrderOf`: finds the first unused element equal
   * to `key` and marks it used.
   */
  method TakeFirstUnused<T1, T2>(items: seq<T1>, used: array<bool>, key: T2, compare: (T1, T2) -> bool)
    returns (pick: Option<nat>)
    requires used.Length == |items|
    modifies used
    ensures pick == FirstUnused(items, old(used[..]), key, compare, 0)
    ensures used[..] == if pick.Some? then old(used[..])[pick.value := true] else old(used[..])
  {
    var j := 0;
    while j < |items|
      invariant 0 <= j <= |items|
      invariant FirstUnused(items, used[..], key, compare, 0) == FirstUnused(items, used[..], key, compare, j)
    {
      if !used[j] && compare(items[j], key) {
        used[j] := true;
        return Some(j);
      }
      j := j + 1;
    }
    return None;
  }

  /** The final loop of `preserveOrderOf`: every element not picked, in its original order. */
  method AppendUnused<T>(output: seq<T>, items: seq<T>, used: array<bool>) returns (r: seq<T>)
    requires used.Length == |items|
    ensures r == output + Unused(items, used[..])
  {
    r := output;
    assert items[..0] == [] && used[..0] == [];
    for j := 0 to |items|
      invariant r == output + Unused(items[..j], used[..j])
    {
      UnusedSnoc(items, used[..], j);
      assert used[..][..j + 1] == used[..j + 1] && used[..][..j] == used[..j];
      if !used[j] {
        r := r + [items[j]];
      }
    }
    assert items[..|items|] == items && used[..|items|] == used[..];
  }

  /** What the outer loop has appended to the output after handling the keys of `picks`. */
  function Emitted<T>(items: seq<T>, picks: seq<Option<nat>>, preserveOrdinal: bool, zero: T): seq<T>
    requires PicksIn(picks, |items|)
  {
    if preserveOrdinal then Slots(items, picks, zero) else Picked(items, picks)
  }

  lemma EmittedSnoc<T>(items: seq<T>, picks: seq<Option<nat>>, p: Option<nat>, preserveOrdinal: bool, zero: T)
    requires PicksIn(picks, |items|) && (p.Some? ==> p.value < |items|)
    ensures PicksIn(picks + [p], |items|)
    ensures Emitted(items, picks + [p], preserveOrdinal, zero)
              == Emitted(items, picks, preserveOrdinal, zero)
                 + (if p.Some? then [items[p.value]] else if preserveOrdinal then [zero] else [])
  {
    if preserveOrdinal {
      SlotsSnoc(items, picks, p, zero);
    } else {
      PickedSnoc(items, picks, p);
    }
  }

  lemma MatchingStep<T1, T2>(items: seq<T1>, ordered: seq<T2>, compare: (T1, T2) -> bool, i: nat,
                             picks: seq<Option<nat>>, used: seq<bool>, p: Option<nat>)
    requires i < |ordered| && Matching(items, ordered[..i], compare) == Scan(picks, used)
    requires p == FirstUnused(items, used, ordered[i], compare, 0)
    ensures Matching(items, ordered[..i + 1], compare)
              == Scan(picks + [p], if p.Some? then used[p.value := true] else used)
  {
    MatchingSnoc(items, ordered, compare, i);
  }

  lemma MatchingSnoc<T1, T2>(items: seq<T1>, ordered: seq<T2>, compare: (T1, T2) -> bool, i: nat)
    requires i < |ordered|
    ensures var prev := Matching(items, ordered[..i], compare);
            var p := FirstUnused(items, prev.used, ordered[i], compare, 0);
            Matching(items, ordered[..i + 1], compare)
              == Scan(prev.picks + [p], if p.Some? then prev.used[p.value := true] else prev.used)
  {
    assert ordered[..i + 1][..i] == ordered[..i];
  }

  lemma UnusedSnoc<T>(items: seq<T>, used: seq<bool>, j: nat)
    requires |used| == |items| && j < |items|
    ensures Unused(items[..j + 1], used[..j + 1])
              == Unused(items[..j], used[..j]) + (if used[j] then [] else [items[j]])
  {
    assert items[..j + 1][..j] == items[..j] && used[..j + 1][..j] == used[..j];
  }

  lemma PickedSnoc<T>(items: seq<T>, picks: seq<Option<nat>>, p: Option<nat>)
    requires PicksIn(picks, |items|) && (p.Some? ==> p.value < |items|)
    ensures PicksIn(picks + [p], |items|)
    ensures Picked(items, picks + [p]) == Picked(items, picks) + (if p.Some? then [items[p.value]] else [])
  {
    assert (picks + [p])[..|picks|] == picks;
  }

  lemma SlotsSnoc<T>(items: seq<T>, picks: seq<Option<nat>>, p: Option<nat>, zero: T)
    requires PicksIn(picks, |items|) && (p.Some? ==> p.value < |items|)
    ensures PicksIn(picks + [p], |items|)
    ensures Slots(items, picks + [p], zero) == Slots(items, picks, zero) + [Slot(items, p, zero)]
  {
  }

  // =====================================================================
  // preserveOrderOf: properties

  /** Running the outer loop over a prefix of the keys gives a prefix of the picks. */
  lemma {:induction false} MatchingPrefix<T1, T2>(items: seq<T1>, ordered: seq<T2>, compare: (T1, T2) -> bool, k: nat)
    requires k <= |ordered|
    ensures Matching(items, ordered[..k], compare).picks == Matching(items, ordered, compare).picks[..k]
    decreases |ordered|
  {
    if k < |ordered| {
      var shorter := ordered[..|ordered| - 1];
      MatchingPrefix(items, shorter, compare, k);
      assert shorter[..k] == ordered[..k];
    } else {
      assert ordered[..k] == ordered;
    }
  }

  /**
   * Slot `i` is decided by key `ordered[i]` alone, given the flags left by the
   * earlier keys: the earliest not-yet-used element that matches it is picked,
   * and nothing is picked only when no unused element matches.
   */
  lemma PickIsEarliestUnusedMatch<T1, T2>(items: seq<T1>, ordered: seq<T2>, compare: (T1, T2) -> bool, i: nat)
    requires i < |ordered|
    ensures var usedBefore := Matching(items, ordered[..i], compare).used;
            var pick := Matching(items, ordered, compare).picks[i];
            && (pick.Some? ==>
                  && !usedBefore[pick.value] && compare(items[pick.value], ordered[i])
                  && forall j :: 0 <= j < pick.value ==> usedBefore[j] || !compare(items[j], ordered[i]))
            && (pick.None? ==> forall j :: 0 <= j < |items| ==> usedBefore[j] || !compare(items[j], ordered[i]))
  {
    MatchingPrefix(items, ordered, compare, i + 1);
    var upto := ordered[..i + 1];
    assert upto[..i] == ordered[..i] && upto[i] == ordered[i];
    var before := Matching(items, ordered[..i], compare);
    var p := FirstUnused(items, before.used, ordered[i], compare, 0);
    assert Matching(items, upto, compare).picks == before.picks + [p];
    assert Matching(items, ordered, compare).picks[i] == p;
  }

  /** Every element is picked at most once: no two keys receive the same element. */
  ghost predicate DistinctPicks(picks: seq<Option<nat>>) {
    forall a, b :: 0 <= a < b < |picks| && picks[a].Some? && picks[b].Some? ==> picks[a].value != picks[b].value
  }

  lemma {:induction false} PicksDistinct<T1, T2>(items: seq<T1>, ordered: seq<T2>, compare: (T1, T2) -> bool)
    ensures DistinctPicks(Matching(items, ordered, compare).picks)
    decreases |ordered|
  {
    if ordered != [] {
      var shorter := ordered[..|ordered| - 1];
      var prev := Matching(items, shorter, compare);
      var picks := Matching(items, ordered, compare).picks;
      PicksDistinct(items, shorter, compare);
      var p := picks[|picks| - 1];
      assert picks == prev.picks + [p];
      forall a, b | 0 <= a < b < |picks| && picks[a].Some? && picks[b].Some?
        ensures picks[a].value != picks[b].value
      {
        if b == |picks| - 1 {
          assert p == FirstUnused(items, prev.used, ordered[|ordered| - 1], compare, 0);
          assert picks[a] == prev.picks[a] && picks[b] == p;
          assert prev.used[prev.picks[a].value] && !prev.used[p.value];
        } else {
          assert picks[a] == prev.picks[a] && picks[b] == prev.picks[b];
          assert DistinctPicks(prev.picks);
        }
      }
    }
  }

  lemma {:induction false} UnusedNone<T>(items: seq<T>, used: seq<bool>)
    requires |used| == |items| && forall j :: 0 <= j < |used| ==> !used[j]
    ensures Unused(items, used) == items
  {
    if items != [] {
      UnusedNone(items[..|items| - 1], used[..|used| - 1]);
    }
  }

  /** Marking one unused element as used removes exactly that element from the unused ones. */
  lemma {:induction false} UnusedMark<T>(items: seq<T>, used: seq<bool>, j: nat)
    requires |used| == |items| && j < |items| && !used[j]
    ensures multiset(Unused(items, used[j := true])) + multiset{items[j]} == multiset(Unused(items, used))
    decreases |items|, 1
  {
    var n := |items|;
    var marked := used[j := true];
    var front := items[..n - 1];
    if j == n - 1 {
      assert marked[..n - 1] == used[..n - 1];
      assert Unused(items, marked) == Unused(front, used[..n - 1]);
      assert Unused(items, used) == Unused(front, used[..n - 1]) + [items[j]];
    } else {
      UnusedMarkEarlier(items, used, j);
    }
  }

  /** `UnusedMark` for an element before the last: the last element's contribution is unchanged. */
  lemma {:induction false} UnusedMarkEarlier<T>(items: seq<T>, used: seq<bool>, j: nat)
    requires |used| == |items| && j + 1 < |items| && !used[j]
    ensures multiset(Unused(items, used[j := true])) + multiset{items[j]} == multiset(Unused(items, used))
    decreases |items|, 0
  {
    var n := |items|;
    var marked := used[j := true];
    var front, before := items[..n - 1], used[..n - 1];
    var last := if used[n - 1] then [] else [items[n - 1]];
    var a, b := Unused(front, before[j := true]), Unused(front, before);
    assert Unused(items, marked) == a + last by {
      assert marked[..n - 1] == before[j := true];
    }
    assert Unused(items, used) == b + last;
    assert multiset(a) + multiset{items[j]} == multiset(b) by {
      assert front[j] == items[j];
      UnusedMark(front, before, j);
    }
  }

  /** The picked and the unused elements together are exactly the elements. */
  lemma {:induction false} MatchingPartition<T1, T2>(items: seq<T1>, ordered: seq<T2>, compare: (T1, T2) -> bool)
    ensures var m := Matching(items, ordered, compare);
            multiset(Picked(items, m.picks)) + multiset(Unused(items, m.used)) == multiset(items)
    decreases |ordered|
  {
    var m := Matching(items, ordered, compare);
    if ordered == [] {
      UnusedNone(items, m.used);
    } else {
      var shorter := ordered[..|ordered| - 1];
      var prev := Matching(items, shorter, compare);
      MatchingPartition(items, shorter, compare);
      var p := FirstUnused(items, prev.used, ordered[|ordered| - 1], compare, 0);
      assert m == Scan(prev.picks + [p], if p.Some? then prev.used[p.value := true] else prev.used);
      assert m.picks[..|m.picks| - 1] == prev.picks;
      var before := multiset(Picked(items, prev.picks));
      if p.Some? {
        assert Picked(items, m.picks) == Picked(items, prev.picks) + [items[p.value]];
        UnusedMark(items, prev.used, p.value);
        assert multiset(Picked(items, m.picks)) == before + multiset{items[p.value]};
      } else {
        assert Picked(items, m.picks) == Picked(items, prev.picks);
      }
    }
  }

  /** Non-ordinal mode outputs a permutation of the elements: each exactly once. */
  lemma ReorderedIsPermutation<T1, T2>(items: seq<T1>, ordered: seq<T2>, compare: (T1, T2) -> bool)
    ensures multiset(Reordered(items, ordered, compare)) == multiset(items)
    ensures |Reordered(items, ordered, compare)| == |items|
  {
    MatchingPartition(items, ordered, compare);
    var r := Reordered(items, ordered, compare);
    assert |r| == |multiset(r)| == |multiset(items)| == |items|;
  }

  // =====================================================================
  // The four public wrappers of preserveOrderOf

  /**
   * `PreserveOrderOf`: the elements reordered by the keys their counterparts
   * in `ordered` select; the elements not matched follow in their own order.
   */
  function PreserveOrderOfItems<T, K(==)>(items: seq<T>, ordered: seq<T>, keySelector: T -> K): (r: seq<T>)
    ensures multiset(r) == multiset(items)
  {
    var compare := (x: T, y: T) => keySelector(x) == keySelector(y);
    ReorderedIsPermutation(items, ordered, compare);
    Reordered(items, ordered, compare)
  }

  /** `PreserveOrderOfKeys`: as `PreserveOrderOf`, with the keys given directly. */
  function PreserveOrderOfKeys<T, K(==)>(items: seq<T>, ordered: seq<K>, keySelector: T -> K): (r: seq<T>)
    ensures multiset(r) == multiset(items)
  {
    var compare := (x: T, y: K) => y == keySelector(x);
    ReorderedIsPermutation(items, ordered, compare);
    Reordered(items, ordered, compare)
  }

  /**
   * The comparison the ordinal wrappers hand to `preserveOrderOf`: the key of
   * the element equals the key of the entry of `ordered` (equality is
   * symmetric, so the order in which the source compares them is immaterial).
   */
  function KeyCompare<T1, T2, K(==)>(itemKey: T1 -> K, orderKey: T2 -> K): (T1, T2) -> bool {
    (x: T1, y: T2) => itemKey(x) == orderKey(y)
  }

  /** The key of an entry of a key list given directly: the entry itself. */
  function Itself<K>(k: K): K { k }

  /**
   * `EquivalenceSetOrder`: one output slot per entry of `ordered`, holding the
   * element picked for it or the placeholder; throws when the two lists
   * differ in length.
   */
  function EquivalenceSetOrder<T, K(==)>(items: seq<T>, ordered: seq<T>, keySelector: T -> K, zero: T)
    : (r: Result<seq<T>>)
    ensures r.Failure? <==> |ordered| != |items|
    ensures r.Failure? ==> r.error == Argument(OrdinalCountMessage)
    ensures r.Success? ==> |r.value| == |ordered|
    ensures r.Success? ==>
              r.value == Slots(items, Matching(items, ordered, KeyCompare(keySelector, keySelector)).picks, zero)
  {
    PreserveOrder(items, ordered, KeyCompare(keySelector, keySelector), true, zero)
  }

  /** `EquivalenceSetOrderKeys`: as `EquivalenceSetOrder`, with the keys given directly. */
  function EquivalenceSetOrderKeys<T, K(==)>(items: seq<T>, ordered: seq<K>, keySelector: T -> K, zero: T)
    : (r: Result<seq<T>>)
    ensures r.Failure? <==> |ordered| != |items|
    ensures r.Failure? ==> r.error == Argument(OrdinalCountMessage)
    ensures r.Success? ==> |r.value| == |ordered|
    ensures r.Success? ==>
              r.value == Slots(items, Matching(items, ordered, KeyCompare(keySelector, Itself)).picks, zero)
  {
    PreserveOrder(items, ordered, KeyCompare(keySelector, Itself), true, zero)
  }

  // =====================================================================
  // Ordinal mode on equivalent sets

  /** The keys of a list, counted with multiplicity. */
  function KeysOf<T, K(==)>(s: seq<T>, key: T -> K): multiset<K> {
    multiset(Map(s, key))
  }

  lemma MapAppend<T, R>(a: seq<T>, b: seq<T>, f: T -> R)
    ensures Map(a + b, f) == Map(a, f) + Map(b, f)
  {
  }

  /** Taking out the element at `j` takes its occurrence out of the list's multiset. */
  lemma RemoveAtMultiset<T>(b: seq<T>, j: nat)
    requires j < |b|
    ensures multiset(b[..j] + b[j + 1..]) + multiset{b[j]} == multiset(b)
  {
    assert b == b[..j] + [b[j]] + b[j + 1..];
  }

  /** Taking out the element at `j` takes its key out of the list's keys. */
  lemma RemoveAtKeys<T, K>(b: seq<T>, j: nat, key: T -> K)
    requires j < |b|
    ensures KeysOf(b[..j] + b[j + 1..], key) + multiset{key(b[j])} == KeysOf(b, key)
  {
    var left, right := b[..j], b[j + 1..];
    assert b == left + [b[j]] + right;
    MapAppend(left + [b[j]], right, key);
    MapAppend(left, [b[j]], key);
    MapAppend(left, right, key);
  }

  /** Lists that are permutations of each other have the same keys. */
  lemma {:induction false} PermutationKeys<T, K>(a: seq<T>, b: seq<T>, key: T -> K)
    requires multiset(a) == multiset(b)
    ensures KeysOf(a, key) == KeysOf(b, key)
    decreases |a|
  {
    if a == [] {
      assert |b| == |multiset(b)| == 0;
    } else {
      var front, x := a[..|a| - 1], a[|a| - 1];
      assert a == front + [x];
      assert x in multiset(b);
      var j :| 0 <= j < |b| && b[j] == x;
      var rest := b[..j] + b[j + 1..];
      RemoveAtMultiset(b, j);
      assert multiset(rest) == multiset(front) by {
        forall e
          ensures multiset(rest)[e] == multiset(front)[e]
        {
          assert multiset(b)[e] == multiset(rest)[e] + multiset{x}[e];
          assert multiset(a)[e] == multiset(front)[e] + multiset{x}[e];
        }
      }
      PermutationKeys(front, rest, key);
      MapAppend(front, [x], key);
      RemoveAtKeys(b, j, key);
    }
  }

  /** An element left unused is one whose flag is clear. */
  lemma {:induction false} UnusedMember<T>(items: seq<T>, used: seq<bool>, y: T)
    requires |used| == |items| && y in Unused(items, used)
    ensures exists j :: 0 <= j < |items| && !used[j] && items[j] == y
  {
    var n := |items|;
    var front, before := items[..n - 1], used[..n - 1];
    if y in Unused(front, before) {
      UnusedMember(front, before, y);
      var j :| 0 <= j < n - 1 && !before[j] && front[j] == y;
      assert items[j] == y && !used[j];
    } else {
      assert !used[n - 1] && items[n - 1] == y;
    }
  }

  /** With every slot picked, the slots are the picked elements. */
  lemma {:induction false} SlotsArePicked<T>(items: seq<T>, picks: seq<Option<nat>>, zero: T)
    requires PicksIn(picks, |items|) && forall a :: 0 <= a < |picks| ==> picks[a].Some?
    ensures Slots(items, picks, zero) == Picked(items, picks)
  {
    if picks != [] {
      var front, last := picks[..|picks| - 1], picks[|picks| - 1];
      assert picks == front + [last];
      SlotsArePicked(items, front, zero);
      SlotsSnoc(items, front, last, zero);
      PickedSnoc(items, front, last);
    }
  }

  /** A key with more occurrences among the unused elements than zero is borne by an unused element. */
  lemma UnusedKeyed<T, K>(items: seq<T>, used: seq<bool>, itemKey: T -> K, key: K)
    requires |used| == |items| && KeysOf(Unused(items, used), itemKey)[key] > 0
    ensures exists j :: 0 <= j < |items| && !used[j] && itemKey(items[j]) == key
  {
    var u := Unused(items, used);
    assert key in Map(u, itemKey);
    var idx :| 0 <= idx < |u| && Map(u, itemKey)[idx] == key;
    UnusedMember(items, used, u[idx]);
  }

  /** A key still to be handled occurs among the keys of the unused elements. */
  lemma PendingKeyUnused<T2, K>(ordered: seq<T2>, orderKey: T2 -> K, k: nat, unusedKeys: multiset<K>,
                                allKeys: multiset<K>)
    requires k < |ordered| && KeysOf(ordered, orderKey) == allKeys
    requires unusedKeys + KeysOf(ordered[..k], orderKey) == allKeys
    ensures KeysOf(ordered[..k + 1], orderKey) == KeysOf(ordered[..k], orderKey) + multiset{orderKey(ordered[k])}
    ensures unusedKeys[orderKey(ordered[k])] > 0
  {
    var key := orderKey(ordered[k]);
    assert ordered[..k + 1] == ordered[..k] + [ordered[k]];
    MapAppend(ordered[..k], [ordered[k]], orderKey);
    assert ordered == ordered[..k + 1] + ordered[k + 1..];
    MapAppend(ordered[..k + 1], ordered[k + 1..], orderKey);
    var handled := KeysOf(ordered[..k], orderKey);
    assert handled[key] + 1 <= allKeys[key] == unusedKeys[key] + handled[key];
  }

  /** Marking a picked element removes its key from the keys of the unused elements. */
  lemma UnusedMarkKeys<T, K>(items: seq<T>, used: seq<bool>, itemKey: T -> K, j: nat)
    requires |used| == |items| && j < |items| && !used[j]
    ensures KeysOf(Unused(items, used[j := true]), itemKey) + multiset{itemKey(items[j])}
            == KeysOf(Unused(items, used), itemKey)
  {
    var marked := Unused(items, used[j := true]);
    UnusedMark(items, used, j);
    PermutationKeys(marked + [items[j]], Unused(items, used), itemKey);
    MapAppend(marked, [items[j]], itemKey);
  }

  /** One more key handled: it is matched, and its key leaves the keys of the unused elements. */
  lemma EquivalentStep<T1, T2, K>(items: seq<T1>, ordered: seq<T2>, itemKey: T1 -> K, orderKey: T2 -> K, k: nat)
    requires k < |ordered| && KeysOf(ordered, orderKey) == KeysOf(items, itemKey)
    requires var prev := Matching(items, ordered[..k], KeyCompare(itemKey, orderKey));
             KeysOf(Unused(items, prev.used), itemKey) + KeysOf(ordered[..k], orderKey) == KeysOf(items, itemKey)
    ensures var prev := Matching(items, ordered[..k], KeyCompare(itemKey, orderKey));
            var m := Matching(items, ordered[..k + 1], KeyCompare(itemKey, orderKey));
            && m.picks == prev.picks + [m.picks[k]] && m.picks[k].Some?
            && KeysOf(Unused(items, m.used), itemKey) + KeysOf(ordered[..k + 1], orderKey) == KeysOf(items, itemKey)
  {
    var compare := KeyCompare(itemKey, orderKey);
    var prev := Matching(items, ordered[..k], compare);
    PendingKeyUnused(ordered, orderKey, k, KeysOf(Unused(items, prev.used), itemKey), KeysOf(items, itemKey));
    UnusedKeyed(items, prev.used, itemKey, orderKey(ordered[k]));
    var j :| 0 <= j < |items| && !prev.used[j] && itemKey(items[j]) == orderKey(ordered[k]);
    var p := FirstUnused(items, prev.used, ordered[k], compare, 0);
    assert compare(items[j], ordered[k]);
    assert p.Some?;
    MatchingSnoc(items, ordered, compare, k);
    UnusedMarkKeys(items, prev.used, itemKey, p.value);
  }

  /**
   * On equivalent sets each key in turn finds an unused element with its key:
   * after the first `i` keys every slot so far is filled, and the keys of the
   * unused elements are the elements' keys less the keys handled.
   */
  lemma {:induction false} EquivalentPrefixFilled<T1, T2, K>(items: seq<T1>, ordered: seq<T2>,
                                                             itemKey: T1 -> K, orderKey: T2 -> K, i: nat)
    requires i <= |ordered| && KeysOf(ordered, orderKey) == KeysOf(items, itemKey)
    ensures var m := Matching(items, ordered[..i], KeyCompare(itemKey, orderKey));
            && (forall a :: 0 <= a < i ==> m.picks[a].Some?)
            && KeysOf(Unused(items, m.used), itemKey) + KeysOf(ordered[..i], orderKey) == KeysOf(items, itemKey)
  {
    if i == 0 {
      assert ordered[..0] == [];
      UnusedNone(items, Matching(items, ordered[..0], KeyCompare(itemKey, orderKey)).used);
    } else {
      EquivalentPrefixFilled(items, ordered, itemKey, orderKey, i - 1);
      EquivalentStep(items, ordered, itemKey, orderKey, i - 1);
    }
  }

  /**
   * On equivalent sets (the keys of `ordered` are the keys of the elements,
   * counted with multiplicity) no slot is left to the placeholder: the output
   * is a permutation of the elements, and slot `i` holds an element with the
   * key of `ordered[i]`.
   */
  lemma EquivalentSetsFilled<T1, T2, K>(items: seq<T1>, ordered: seq<T2>, itemKey: T1 -> K, orderKey: T2 -> K,
                                            zero: T1)
    requires KeysOf(ordered, orderKey) == KeysOf(items, itemKey)
    ensures var r := PreserveOrder(items, ordered, KeyCompare(itemKey, orderKey), true, zero);
            && r.Success? && multiset(r.value) == multiset(items)
            && forall i :: 0 <= i < |ordered| ==> itemKey(r.value[i]) == orderKey(ordered[i])
  {
    var compare := KeyCompare(itemKey, orderKey);
    assert |ordered| == |KeysOf(ordered, orderKey)| == |KeysOf(items, itemKey)| == |items|;
    EquivalentPrefixFilled(items, ordered, itemKey, orderKey, |ordered|);
    assert ordered[..|ordered|] == ordered;
    var m := Matching(items, ordered, compare);
    var slots := Slots(items, m.picks, zero);
    SlotsArePicked(items, m.picks, zero);
    assert multiset(slots) == multiset(items) by {
      MatchingPartition(items, ordered, compare);
      var rest := Unused(items, m.used);
      assert |multiset(slots)| + |multiset(rest)| == |items|;
      assert rest == [];
    }
    forall i | 0 <= i < |ordered|
      ensures itemKey(slots[i]) == orderKey(ordered[i])
    {
      PickIsEarliestUnusedMatch(items, ordered, compare, i);
    }
  }

  /** `EquivalenceSetOrder` on equivalent sets: a permutation of the set in the key order of `ordered`. */
  lemma EquivalenceSetOrderFilled<T, K>(items: seq<T>, ordered: seq<T>, keySelector: T -> K, zero: T)
    requires KeysOf(ordered, keySelector) == KeysOf(items, keySelector)
    ensures var r := EquivalenceSetOrder(items, ordered, keySelector, zero);
            && r.Success? && multiset(r.value) == multiset(items)
            && forall i :: 0 <= i < |ordered| ==> keySelector(r.value[i]) == keySelector(ordered[i])
  {
    EquivalentSetsFilled(items, ordered, keySelector, keySelector, zero);
  }

  /** `EquivalenceSetOrderKeys` on equivalent sets: a permutation of the set whose keys are `ordered`. */
  lemma EquivalenceSetOrderKeysFilled<T, K>(items: seq<T>, ordered: seq<K>, keySelector: T -> K, zero: T)
    requires multiset(ordered) == KeysOf(items, keySelector)
    ensures var r := EquivalenceSetOrderKeys(items, ordered, keySelector, zero);
            && r.Success? && multiset(r.value) == multiset(items)
            && forall i :: 0 <= i < |ordered| ==> keySelector(r.value[i]) == ordered[i]
  {
    assert Map(ordered, Itself) == ordered;
    EquivalentSetsFilled(items, ordered, keySelector, Itself, zero);
  }

  // =====================================================================
  // Delimited strings

  function Map<T, R>(items: seq<T>, f: T -> R): (r: seq<R>)
    ensures |r| == |items| && forall i :: 0 <= i < |items| ==> r[i] == f(items[i])
  {
    seq(|items|, i requires 0 <= i < |items| => f(items[i]))
  }

  /**
   * `ToDelimitedString(source, delimiter, converter)`: the enumerator loop
   * appending each converted item and, when another follows, the delimiter.
   * Appending a `null` delimiter appends nothing.
   */
  method ToDelimitedStringWith<T>(source: seq<T>, delimiter: Option<string>, converter: T -> string)
    returns (s: string)
    ensures s == Join(delimiter.GetOr(""), Map(source, converter))
  {
    var parts := Map(source, converter);
    var sep := delimiter.GetOr("");
    var index := 0;
    var notDone := index < |source|;
    s := "";
    while notDone
      invariant 0 <= index <= |source| && notDone == (index < |source|)
      invariant index == 0 ==> s == ""
      invariant 0 < index ==> s == Join(sep, parts[..index]) + (if notDone then sep else "")
      decreases |source| - index
    {
      s := s + converter(source[index]);
      if index > 0 {
        JoinSnoc(sep, parts[..index], parts[index]);
        assert parts[..index + 1] == parts[..index] + [parts[index]];
      } else {
        assert parts[..1] == [parts[0]];
      }
      index := index + 1;
      notDone := index < |source|;
      if notDone {
        s := s + sep;
      }
    }
    assert parts[..|source|] == parts;
  }

  /**
   * `ToDelimitedString(source, delimiter)`: throws on a `null` source or
   * delimiter; otherwise the items' `ToString()` texts joined by the delimiter.
   */
  method ToDelimitedString<T>(source: Option<seq<T>>, delimiter: Option<string>, toString: T -> string)
    returns (r: Result<string>)
    ensures source.None? ==> r == Failure(ArgumentNull("source"))
    ensures source.Some? && delimiter.None? ==> r == Failure(ArgumentNull("delimiter"))
    ensures source.Some? && delimiter.Some? ==>
              r == Success(Join(delimiter.value, Map(source.value, toString)))
  {
    if source.None? {
      return Failure(ArgumentNull("source"));
    }
    if delimiter.None? {
      return Failure(ArgumentNull("delimiter"));
    }
    var s := ToDelimitedStringWith(source.value, delimiter, toString);
    return Success(s);
  }

  /** `ToCommaDelimitedString(source)`: `ToDelimitedString` with a comma. */
  method ToCommaDelimitedString<T>(source: Option<seq<T>>, toString: T -> string) returns (r: Result<string>)
    ensures source.None? ==> r == Failure(ArgumentNull("source"))
    ensures source.Some? ==> r == Success(Join(",", Map(source.value, toString)))
  {
    r := ToDelimitedString(source, Some(","), toString);
  }

  /** `ToCommaDelimitedString(source, converter)`. */
  method ToCommaDelimitedStringWith<T>(source: seq<T>, converter: T -> string) returns (s: string)
    ensures s == Join(",", Map(source, converter))
  {
    s := ToDelimitedStringWith(source, Some(","), converter);
  }

  /** `NullCoalesceAsEmpty`: a `null` sequence reads as the empty one. */
  function NullCoalesceAsEmpty<T>(source: Option<seq<T>>): (r: seq<T>)
    ensures source.Some? ==> r == source.value
    ensures source.None? ==> r == []
  {
    source.GetOr([])
  }

  // =====================================================================
  // Arrays

  /** `SelectAsArray(arr, projection)`: a new array of the projected elements. */
  method SelectAsArray<T, R(0)>(arr: array<T>, projection: T -> R) returns (res: array<R>)
    ensures fresh(res) && res[..] == Map(arr[..], projection)
  {
    res := new R[arr.Length];
    for i := 0 to arr.Length
      invariant forall k :: 0 <= k < i ==> res[k] == projection(arr[k])
    {
      res[i] := projection(arr[i]);
    }
  }

  /** `SelectAsArray(arr, projection)` where the projection also receives the index. */
  method SelectAsArrayIndexed<T, R(0)>(arr: array<T>, projection: (T, int) -> R) returns (res: array<R>)
    ensures fresh(res) && res.Length == arr.Length
    ensures forall k :: 0 <= k < arr.Length ==> res[k] == projection(arr[k], k)
  {
    res := new R[arr.Length];
    for i := 0 to arr.Length
      invariant forall k :: 0 <= k < i ==> res[k] == projection(arr[k], k)
    {
      res[i] := projection(arr[i], i);
    }
  }

  /** `SelectAsArray(collection, projection)`, enumerating the collection. */
  method SelectAsArrayFromCollection<T, R(0)>(list: seq<T>, projection: T -> R) returns (res: array<R>)
    ensures fresh(res) && res[..] == Map(list, projection)
  {
    res := new R[|list|];
    for i := 0 to |list|
      invariant forall k :: 0 <= k < i ==> res[k] == projection(list[k])
    {
      res[i] := projection(list[i]);
    }
  }

  /**
   * `Slice(arr, startIndex, length)`, with `Array.Copy` written as a loop.
   * A `null` array gives `null`; the checks run in the source's order.
   */
  method Slice<T(0)>(arr: array?<T>, startIndex: int, length: int) returns (r: Result<array?<T>>)
    ensures arr == null ==> r == Success(null)
    ensures arr != null && startIndex < 0 ==> r == Failure(ArgumentOutOfRange("startIndex"))
    ensures arr != null && 0 <= startIndex && length == 0 ==>
              r.Success? && r.value != null && r.value.Length == 0
    ensures arr != null && 0 <= startIndex && length != 0 && startIndex >= arr.Length ==>
              r == Failure(ArgumentOutOfRange("startIndex"))
    ensures arr != null && 0 <= startIndex < arr.Length && length != 0 ==>
              var effective := if length < 0 then arr.Length - startIndex + length else length;
              && (effective > arr.Length ==> r == Failure(ArgumentOutOfRange("length")))
              && (effective < 0 ==> r == Failure(Overflow))
              && (0 <= effective <= arr.Length && startIndex + effective > arr.Length ==>
                    r == Failure(Argument(CopySourceTooShortMessage)))
              && (0 <= effective && startIndex + effective <= arr.Length ==>
                    r.Success? && r.value != null && r.value[..] == arr[startIndex..startIndex + effective])
    ensures arr != null && 0 <= startIndex && startIndex + length <= arr.Length && 0 <= length ==>
              r.Success? && r.value != null && r.value[..] == arr[startIndex..startIndex + length]
  {
    if arr == null {
      return Success(null);
    }
    if startIndex < 0 {
      return Failure(ArgumentOutOfRange("startIndex"));
    }
    if length == 0 {
      var empty := new T[0];
      return Success(empty);
    }
    if startIndex >= arr.Length {
      return Failure(ArgumentOutOfRange("startIndex"));
    }
    var len := length;
    if len < 0 {
      len := (arr.Length - startIndex) + len;
    }
    if len > arr.Length {
      return Failure(ArgumentOutOfRange("length"));
    }
    if len < 0 {
      // `new T[len]` with a negative size
      return Failure(Overflow);
    }
    if startIndex + len > arr.Length {
      // `Array.Copy` rejects a source range that runs past the end
      return Failure(Argument(CopySourceTooShortMessage));
    }
    var slice := new T[len];
    for k := 0 to len
      invariant forall m :: 0 <= m < k ==> slice[m] == arr[startIndex + m]
    {
      slice[k] := arr[startIndex + k];
    }
    assert slice[..] == arr[startIndex..startIndex + len];
    return Success(slice);
  }

  /** `Slice(arr, startIndex)`: the rest of the array from `startIndex`. */
  method SliceFrom<T(0)>(arr: array?<T>, startIndex: int) returns (r: Result<array?<T>>)
    ensures arr == null ==> r == Success(null)
    ensures arr != null && 0 <= startIndex <= arr.Length ==>
              r.Success? && r.value != null && r.value[..] == arr[startIndex..]
    ensures arr != null && (startIndex < 0 || startIndex > arr.Length) ==>
              r == Failure(ArgumentOutOfRange("startIndex"))
  {
    if arr == null {
      return Success(null);
    }
    r := Slice(arr, startIndex, arr.Length - startIndex);
  }

  /** `AppendAsArray(src, element)`: a new array one longer, ending in `element`. */
  method AppendAsArray<T(0)>(src: array<T>, element: T) returns (arr: array<T>)
    ensures fresh(arr) && arr[..] == src[..] + [element]
  {
    arr := new T[src.Length + 1];
    for k := 0 to src.Length
      invariant forall m :: 0 <= m < k ==> arr[m] == src[m]
    {
      arr[k] := src[k];
    }
    arr[src.Length] := element;
    assert arr[..] == src[..] + [element];
  }

  /**
   * `AppendAsArray(src, element, length)`: an array of `length + 1` slots
   * filled from the enumeration, `default(T)` (`zero`) where it runs short,
   * and `element` written last into slot `length`.
   */
  method AppendAsArrayFromEnumerable<T>(src: seq<T>, element: T, length: int, zero: T) returns (r: Result<array<T>>)
    ensures length + 1 < 0 ==> r == Failure(Overflow)
    ensures length + 1 >= 0 && (|src| > length + 1 || length == -1) ==> r == Failure(IndexOutOfRange)
    ensures 0 <= length && |src| <= length + 1 ==>
              && r.Success? && r.value.Length == length + 1 && r.value[length] == element
              && (forall k :: 0 <= k < |src| && k != length ==> r.value[k] == src[k])
              && (forall k :: |src| <= k < length ==> r.value[k] == zero)
  {
    if length + 1 < 0 {
      return Failure(Overflow);
    }
    var arr := new T[length + 1](_ => zero);
    var i := 0;
    while i < |src|
      invariant 0 <= i <= |src| && i <= arr.Length
      invariant forall k :: 0 <= k < i ==> arr[k] == src[k]
      invariant forall k :: i <= k < arr.Length ==> arr[k] == zero
    {
      if i >= arr.Length {
        return Failure(IndexOutOfRange);
      }
      arr[i] := src[i];
      i := i + 1;
    }
    if length < 0 {
      return Failure(IndexOutOfRange);
    }
    arr[length] := element;
    return Success(arr);
  }

  // =====================================================================
  // Dictionaries

  /** The dictionary after assigning `dict[key] = value` for each pair in order. */
  function Merged<K(==), V>(m: map<K, V>, items: seq<(K, V)>): map<K, V>
  {
    if items == [] then m
    else
      var last := items[|items| - 1];
      Merged(m, items[..|items| - 1])[last.0 := last.1]
  }

  /** Position `i` holds the last pair of `items` with key `k`. */
  ghost predicate IsLastFor<K, V>(items: seq<(K, V)>, k: K, i: int) {
    0 <= i < |items| && items[i].0 == k && forall j :: i < j < |items| ==> items[j].0 != k
  }

  /**
   * After merging, a key that occurs in `items` maps to the value of its last
   * pair; a key that does not is present and mapped exactly as before.
   */
  lemma {:induction false} MergedLastWins<K, V>(m: map<K, V>, items: seq<(K, V)>, k: K)
    ensures (exists i :: 0 <= i < |items| && items[i].0 == k) ==>
              k in Merged(m, items) && exists i :: IsLastFor(items, k, i) && Merged(m, items)[k] == items[i].1
    ensures (forall i :: 0 <= i < |items| ==> items[i].0 != k) ==>
              (k in Merged(m, items) <==> k in m) && (k in m ==> Merged(m, items)[k] == m[k])
  {
    if items != [] {
      var n := |items|;
      var prefix := items[..n - 1];
      MergedLastWins(m, prefix, k);
      if items[n - 1].0 == k {
        assert IsLastFor(items, k, n - 1);
      } else if exists i :: 0 <= i < |items| && items[i].0 == k {
        var i :| 0 <= i < |items| && items[i].0 == k;
        assert prefix[i].0 == k;
        var i' :| IsLastFor(prefix, k, i') && Merged(m, prefix)[k] == prefix[i'].1;
        assert IsLastFor(items, k, i');
      } else {
        forall i | 0 <= i < |prefix| ensures prefix[i].0 != k {
          assert prefix[i] == items[i];
        }
      }
    }
  }

  /** An `IDictionary` whose entries `MergeFrom` overwrites in place. */
  class Dictionary<K(==), V> {
    var entries: map<K, V>

    constructor (initial: map<K, V>)
      ensures entries == initial
    {
      entries := initial;
    }

    /** `MergeFrom(items)`: `this[key] = value` for each pair, in order. */
    method MergeFrom(items: seq<(K, V)>)
      modifies this
      ensures entries == Merged(old(entries), items)
    {
      for i := 0 to |items|
        invariant entries == Merged(old(entries), items[..i])
      {
        assert items[..i + 1][..i] == items[..i];
        entries := entries[items[i].0 := items[i].1];
      }
      assert items[..|items|] == items;
    }
  }
}
