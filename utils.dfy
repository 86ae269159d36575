/**
 * The game's general utility functions: random draws, removal of an element
 * from an array, and the weighted list used for proportional sampling.
 *
 * Every call of Math.random is replaced by a draw passed in by the caller:
 * `choice` and `randInt` take a natural number that is reduced into the
 * range they would have produced, so every outcome of the original stays
 * reachable.
 */
module Utils {

  datatype Option<T> = None | Some(value: T)

  /** randInt(min, max): an integer in [min, max], selected by `draw`. */
  function RandInt(min: int, max: int, draw: nat): (r: int)
    requires min <= max
    ensures min <= r <= max
  {
    min + draw % (max - min + 1)
  }

  /** choice(array): an element of a non-empty array, selected by `draw`. */
  function Choice<T>(arr: seq<T>, draw: nat): (r: T)
    requires |arr| > 0
    ensures r in arr
  {
    arr[draw % |arr|]
  }

  /** Array.prototype.indexOf: the first position of `x`, or -1. */
  function IndexOf<T(==)>(s: seq<T>, x: T): (i: int)
    ensures -1 <= i < |s|
    ensures i == -1 <==> x !in s
    ensures i >= 0 ==> s[i] == x && x !in s[..i]
  {
    if |s| == 0 then -1
    else if s[0] == x then 0
    else
      var j := IndexOf(s[1..], x);
      assert s[1..][..if j < 0 then 0 else j] == s[1..if j < 0 then 1 else j + 1];
      if j == -1 then -1 else j + 1
  }

  /** Two entries are different objects. */
  ghost predicate Apart<T>(x: T, y: T)
  {
    x != y
  }

  /**
   * No element occurs twice, as in a list of distinct objects or tiles. The pairs
   * are only compared when a proof asks about them, through Apart.
   */
  ghost predicate NoRepeats<T>(a: seq<T>)
  {
    forall i, j {:trigger Apart(a[i], a[j])} | 0 <= i < j < |a| :: Apart(a[i], a[j])
  }

  /** Any two slots of a list without repeats hold different elements. */
  lemma NoRepeatsAt<T>(a: seq<T>, i: nat, j: nat)
    requires NoRepeats(a) && i < |a| && j < |a| && i != j
    ensures a[i] != a[j]
  {
    if i < j {
      assert Apart(a[i], a[j]);
    } else {
      assert Apart(a[j], a[i]);
    }
  }

  /**
   * removeElement(element, array): the array with the first occurrence of
   * `element` spliced out; the array itself when `element` is absent.
   */
  function RemoveElement<T(==)>(element: T, arr: seq<T>): (r: seq<T>)
    ensures element !in arr ==> r == arr
    ensures element in arr ==> |r| == |arr| - 1
    ensures multiset(r) == multiset(arr) - multiset{element}
    ensures element in arr ==>
              exists i :: FirstOccurrence(arr, element, i) && r == arr[..i] + arr[i + 1..]
  {
    var i := IndexOf(arr, element);
    if i == -1 then
      arr
    else
      assert arr == arr[..i] + [arr[i]] + arr[i + 1..];
      assert FirstOccurrence(arr, element, i);
      arr[..i] + arr[i + 1..]
  }

  /** Position `i` holds the first occurrence of `x` in `s`. */
  ghost predicate FirstOccurrence<T>(s: seq<T>, x: T, i: int)
  {
    0 <= i < |s| && s[i] == x && x !in s[..i]
  }

  /** In an array without repeated elements, removal deletes exactly the given position. */
  lemma RemoveFromDistinct<T>(arr: seq<T>, k: nat)
    requires k < |arr|
    requires NoRepeats(arr)
    ensures RemoveElement(arr[k], arr) == arr[..k] + arr[k + 1..]
  {
    assert arr[k] in arr;
    var r := RemoveElement(arr[k], arr);
    assert exists i :: FirstOccurrence(arr, arr[k], i) && r == arr[..i] + arr[i + 1..];
    var i :| FirstOccurrence(arr, arr[k], i) && r == arr[..i] + arr[i + 1..];
    if i != k {
      NoRepeatsAt(arr, i, k);
    }
  }

  /** Appending an element the list does not hold keeps it free of repeats. */
  lemma NoRepeatsAppend<T>(s: seq<T>, x: T)
    requires NoRepeats(s) && x !in s
    ensures NoRepeats(s + [x])
  {
    var r := s + [x];
    forall a, b | 0 <= a < b < |r| ensures Apart(r[a], r[b]) {
      if b == |s| {
        assert r[a] == s[a];
      } else {
        assert Apart(s[a], s[b]);
      }
    }
  }

  /** removeElement on a list without repeats splices out exactly the slot, and leaves no repeats. */
  lemma RemoveAtSlot<T>(a: seq<T>, k: nat)
    requires k < |a| && NoRepeats(a)
    ensures RemoveElement(a[k], a) == a[..k] + a[k + 1..]
    ensures NoRepeats(a[..k] + a[k + 1..])
  {
    RemoveFromDistinct(a, k);
    NoRepeatsWithout(a, k);
  }

  /** Splicing out one slot of a list without repeats leaves no repeats. */
  lemma NoRepeatsWithout<T>(a: seq<T>, k: nat)
    requires k < |a| && NoRepeats(a)
    ensures NoRepeats(a[..k] + a[k + 1..])
  {
    var r := a[..k] + a[k + 1..];
    forall i, j | 0 <= i < j < |r| ensures Apart(r[i], r[j]) {
      assert r[i] == a[if i < k then i else i + 1] && r[j] == a[if j < k then j else j + 1];
      assert Apart(a[if i < k then i else i + 1], a[if j < k then j else j + 1]);
    }
  }

  // ---------------------------------------------------------------------------
  // Weighted lists. A weight is given in hundredths (a percentage), so that
  // weight w puts w copies of its element into the list.

  /** `n` copies of `x`. */
  function Repeat<T>(x: T, n: nat): (r: seq<T>)
    ensures |r| == n
    ensures forall k | 0 <= k < n :: r[k] == x
  {
    if n == 0 then [] else Repeat(x, n - 1) + [x]
  }

  function Sum(w: seq<nat>): nat
  {
    if |w| == 0 then 0 else Sum(w[..|w| - 1]) + w[|w| - 1]
  }

  /** The reference expansion: each element's copies, grouped in input order. */
  function Expand<T>(list: seq<T>, weight: seq<nat>): seq<T>
    requires |list| == |weight|
  {
    if |weight| == 0 then []
    else Expand(list[..|weight| - 1], weight[..|weight| - 1]) + Repeat(list[|weight| - 1], weight[|weight| - 1])
  }

  /**
   * generateWeightedList(list, weight): pushes weight[i] copies of list[i],
   * for i in order, into a fresh list.
   */
  method GenerateWeightedList<T>(list: seq<T>, weight: seq<nat>) returns (weightedList: seq<T>)
    requires |list| == |weight|
    ensures weightedList == Expand(list, weight)
  {
    weightedList := [];
    var i := 0;
    while i < |weight|
      invariant 0 <= i <= |weight|
      invariant weightedList == Expand(list[..i], weight[..i])
    {
      var multiples := weight[i];
      var j := 0;
      while j < multiples
        invariant 0 <= j <= multiples
        invariant weightedList == Expand(list[..i], weight[..i]) + Repeat(list[i], j)
      {
        weightedList := weightedList + [list[i]];
        j := j + 1;
      }
      assert list[..i + 1][..i] == list[..i] && weight[..i + 1][..i] == weight[..i];
      i := i + 1;
    }
    assert list[..i] == list && weight[..i] == weight;
  }

  /** The weighted list is exactly as long as the weights add up to. */
  lemma {:induction false} ExpandLength<T>(list: seq<T>, weight: seq<nat>)
    requires |list| == |weight|
    ensures |Expand(list, weight)| == Sum(weight)
  {
    if |weight| > 0 {
      ExpandLength(list[..|weight| - 1], weight[..|weight| - 1]);
    }
  }

  /**
   * Copies are grouped in input order: the copies of list[i] occupy the
   * positions Sum(weight[..i]) up to Sum(weight[..i + 1]).
   */
  lemma {:induction false} ExpandGroups<T>(list: seq<T>, weight: seq<nat>, i: nat, j: nat)
    requires |list| == |weight|
    requires i < |weight| && j < weight[i]
    ensures Sum(weight[..i]) + j < |Expand(list, weight)|
    ensures Expand(list, weight)[Sum(weight[..i]) + j] == list[i]
  {
    var n := |weight| - 1;
    var l', w' := list[..n], weight[..n];
    ExpandLength(l', w');
    ExpandLength(list, weight);
    assert weight[..n + 1] == weight;
    if i == n {
      assert weight[..i] == w';
    } else {
      ExpandGroups(l', w', i, j);
      assert w'[..i] == weight[..i];
    }
  }

  /** Total weight given to `x`: the sum of the weights of the positions holding it. */
  function WeightOf<T(==)>(list: seq<T>, weight: seq<nat>, x: T): nat
    requires |list| == |weight|
  {
    if |weight| == 0 then 0
    else WeightOf(list[..|weight| - 1], weight[..|weight| - 1], x) + (if list[|weight| - 1] == x then weight[|weight| - 1] else 0)
  }

  /** Each element occurs in the weighted list as often as its total weight says. */
  lemma {:induction false} ExpandCount<T>(list: seq<T>, weight: seq<nat>, x: T)
    requires |list| == |weight|
    ensures multiset(Expand(list, weight))[x] == WeightOf(list, weight, x)
  {
    if |weight| > 0 {
      var n := |weight| - 1;
      ExpandCount(list[..n], weight[..n], x);
      RepeatCount(list[n], weight[n], x);
    }
  }

  lemma {:induction false} RepeatCount<T>(y: T, n: nat, x: T)
    ensures multiset(Repeat(y, n))[x] == if x == y then n else 0
  {
    if n > 0 {
      RepeatCount(y, n - 1, x);
    }
  }

  /** With distinct elements, list[i] occurs exactly weight[i] times. */
  lemma {:induction false} ExpandCountDistinct<T>(list: seq<T>, weight: seq<nat>, i: nat)
    requires |list| == |weight| && i < |list|
    requires forall a, b :: 0 <= a < b < |list| ==> list[a] != list[b]
    ensures multiset(Expand(list, weight))[list[i]] == weight[i]
  {
    ExpandCount(list, weight, list[i]);
    WeightOfDistinct(list, weight, i);
  }

  lemma {:induction false} WeightOfDistinct<T>(list: seq<T>, weight: seq<nat>, i: nat)
    requires |list| == |weight| && i < |list|
    requires forall a, b :: 0 <= a < b < |list| ==> list[a] != list[b]
    ensures WeightOf(list, weight, list[i]) == weight[i]
  {
    var n := |weight| - 1;
    if i == n {
      WeightOfAbsent(list[..n], weight[..n], list[i]);
    } else {
      WeightOfDistinct(list[..n], weight[..n], i);
    }
  }

  lemma {:induction false} WeightOfAbsent<T>(list: seq<T>, weight: seq<nat>, x: T)
    requires |list| == |weight| && x !in list
    ensures WeightOf(list, weight, x) == 0
  {
    if |weight| > 0 {
      var n := |weight| - 1;
      assert list[..n] <= list;
      WeightOfAbsent(list[..n], weight[..n], x);
    }
  }
}
