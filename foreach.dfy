/**
 * Array.prototype.forEach over an array whose callback removes the element
 * it is visiting (removeElement on an array without repeats). forEach
 * visits index 0, 1, 2, ... of the array as it is at that moment, so after
 * a removal the next element slides into the slot just visited and is
 * passed over in this pass. `drop[i]` is the removal test of the i-th
 * element of the array as the pass began.
 */
module ForEachRemoval {
  import opened Utils

  /** Element i is passed over: the element before it was visited and removed. */
  function Skipped(drop: seq<bool>, i: nat): bool
    requires i <= |drop|
    decreases i
  {
    i > 0 && drop[i - 1] && !Skipped(drop, i - 1)
  }

  /** Element i is removed: it is visited and its removal test holds. */
  predicate Removed(drop: seq<bool>, i: nat)
    requires i < |drop|
  {
    drop[i] && !Skipped(drop, i)
  }

  /** What the pass leaves of the first n elements: those not removed, in order. */
  function Kept<T>(s: seq<T>, drop: seq<bool>, n: nat): (r: seq<T>)
    requires n <= |s| && n <= |drop|
    decreases n
  {
    if n == 0 then []
    else Kept(s, drop, n - 1) + (if Removed(drop, n - 1) then [] else [s[n - 1]])
  }

  /** The pass keeps at most n of the first n elements. */
  lemma {:induction false} KeptLength<T>(s: seq<T>, drop: seq<bool>, n: nat)
    requires n <= |s| && n <= |drop|
    ensures |Kept(s, drop, n)| <= n
    decreases n
  {
    if n > 0 {
      KeptLength(s, drop, n - 1);
    }
  }

  /** Whether an element is passed over depends only on the tests before it. */
  lemma {:induction false} SkippedAgree(d1: seq<bool>, d2: seq<bool>, i: nat)
    requires i <= |d1| && i <= |d2| && d1[..i] == d2[..i]
    ensures Skipped(d1, i) == Skipped(d2, i)
    decreases i
  {
    if i > 0 {
      assert d1[..i - 1] == d1[..i][..i - 1] && d2[..i - 1] == d2[..i][..i - 1];
      SkippedAgree(d1, d2, i - 1);
      assert d1[i - 1] == d1[..i][i - 1];
    }
  }

  /** What is kept of the first n elements depends only on their tests. */
  lemma {:induction false} KeptAgree<T>(s: seq<T>, d1: seq<bool>, d2: seq<bool>, n: nat)
    requires n <= |s| && n <= |d1| && n <= |d2| && d1[..n] == d2[..n]
    ensures Kept(s, d1, n) == Kept(s, d2, n)
    decreases n
  {
    if n > 0 {
      assert d1[..n - 1] == d1[..n][..n - 1] && d2[..n - 1] == d2[..n][..n - 1];
      KeptAgree(s, d1, d2, n - 1);
      SkippedAgree(d1, d2, n - 1);
      assert d1[n - 1] == d1[..n][n - 1];
    }
  }

  /** One step of the pass: the element at n is kept unless it is removed. */
  lemma KeptStep<T>(s: seq<T>, drop: seq<bool>, n: nat)
    requires n < |s| && n < |drop|
    ensures Kept(s, drop, n + 1) == Kept(s, drop, n) + (if Removed(drop, n) then [] else [s[n]])
  {
  }

  /** Of two neighbours at most one is removed in one pass. */
  lemma NeighbourSurvives(drop: seq<bool>, i: nat)
    requires i + 1 < |drop| && Removed(drop, i)
    ensures Skipped(drop, i + 1) && !Removed(drop, i + 1)
  {
  }

  /** With no two neighbouring removal tests every test is honoured: exactly the matching elements go. */
  lemma NoNeighboursAllHonoured(drop: seq<bool>, i: nat)
    requires forall j | 0 <= j < |drop| - 1 :: !(drop[j] && drop[j + 1])
    requires i < |drop|
    ensures Removed(drop, i) == drop[i]
  {
  }

  /** The pass only removes: what it keeps of the first n elements is part of them. */
  lemma {:induction false} KeptSubset<T>(s: seq<T>, drop: seq<bool>, n: nat)
    requires n <= |s| && n <= |drop|
    ensures multiset(Kept(s, drop, n)) <= multiset(s[..n])
    decreases n
  {
    if n > 0 {
      KeptSubset(s, drop, n - 1);
      KeptGrows(s, drop, n);
      PrefixGrows(s, n);
    }
  }

  /** One more element visited adds at most that element to what is kept. */
  lemma KeptGrows<T>(s: seq<T>, drop: seq<bool>, n: nat)
    requires 0 < n <= |s| && n <= |drop|
    ensures multiset(Kept(s, drop, n)) <= multiset(Kept(s, drop, n - 1)) + multiset{s[n - 1]}
  {
  }

  /** A prefix one longer holds one more element. */
  lemma PrefixGrows<T>(s: seq<T>, n: nat)
    requires 0 < n <= |s|
    ensures multiset(s[..n]) == multiset(s[..n - 1]) + multiset{s[n - 1]}
  {
    assert s[..n] == s[..n - 1] + [s[n - 1]];
  }

  /** Every element that is not removed is kept. */
  lemma {:induction false} KeptUnremoved<T>(s: seq<T>, drop: seq<bool>, n: nat, i: nat)
    requires n <= |s| && n <= |drop| && i < n && !Removed(drop, i)
    ensures s[i] in Kept(s, drop, n)
    decreases n
  {
    if i < n - 1 {
      KeptUnremoved(s, drop, n - 1, i);
    }
  }

  /** Everything kept is an element that was not removed. */
  lemma {:induction false} KeptFrom<T>(s: seq<T>, drop: seq<bool>, n: nat, x: T)
    requires n <= |s| && n <= |drop| && x in Kept(s, drop, n)
    ensures exists i :: 0 <= i < n && s[i] == x && !Removed(drop, i)
    decreases n
  {
    if x in Kept(s, drop, n - 1) {
      KeptFrom(s, drop, n - 1, x);
      var i :| 0 <= i < n - 1 && s[i] == x && !Removed(drop, i);
      assert 0 <= i < n;
    } else {
      assert s[n - 1] == x && !Removed(drop, n - 1);
    }
  }

  /** In an array without repeats, every removed element is gone. */
  lemma {:induction false} RemovedGone<T>(s: seq<T>, drop: seq<bool>, n: nat, i: nat)
    requires n <= |s| && n <= |drop| && i < n && Removed(drop, i)
    requires NoRepeats(s)
    ensures s[i] !in Kept(s, drop, n)
    decreases n
  {
    if i < n - 1 {
      RemovedGone(s, drop, n - 1, i);
      NoRepeatsAt(s, i, n - 1);
    } else {
      assert Kept(s, drop, n) == Kept(s, drop, n - 1);
      if s[i] in Kept(s, drop, n - 1) {
        KeptFrom(s, drop, n - 1, s[i]);
        var j :| 0 <= j < n - 1 && s[j] == s[i] && !Removed(drop, j);
        NoRepeatsAt(s, j, i);
      }
    }
  }

  /**
   * Mid-pass the array is what was kept so far followed by the elements
   * from o on: the slot being visited holds element o.
   */
  lemma VisitSlot<T>(a: seq<T>, done: seq<T>, s: seq<T>, o: nat)
    requires o < |s| && a == done + s[o..]
    ensures |done| < |a| && a[|done|] == s[o]
    ensures a[..|done|] == done && a[|done| + 1..] == s[o + 1..]
  {
    assert a[|done| + 1..] == s[o..][1..];
  }

  /** The element at o is visited and stays: the pass moves on to o + 1. */
  lemma KeepAfterVisit<T>(s: seq<T>, drop: seq<bool>, o: nat)
    requires o < |s| == |drop| && !Skipped(drop, o) && !drop[o]
    ensures Kept(s, drop, o) + s[o..] == Kept(s, drop, o + 1) + s[o + 1..]
    ensures |Kept(s, drop, o + 1)| == |Kept(s, drop, o)| + 1 && !Skipped(drop, o + 1)
  {
    KeptStep(s, drop, o);
    assert s[o..] == [s[o]] + s[o + 1..];
  }

  /**
   * After the element at o (visited at slot |Kept(s, drop, o)|) is removed,
   * the one behind it slides into that slot and is passed over: the pass
   * resumes at o + 2, or ends.
   */
  lemma SkipAfterRemoval<T>(s: seq<T>, drop: seq<bool>, o: nat, rest: seq<T>) returns (o': nat)
    requires o < |s| == |drop| && !Skipped(drop, o) && drop[o]
    requires rest == Kept(s, drop, o) + s[o + 1..]
    ensures o < o' <= |s| && rest == Kept(s, drop, o') + s[o'..]
    ensures o' < |s| ==> |Kept(s, drop, o')| == |Kept(s, drop, o)| + 1 && !Skipped(drop, o')
    ensures o' == |s| ==> |rest| <= |Kept(s, drop, o)| + 1
  {
    KeptStep(s, drop, o);
    if o + 1 < |s| {
      KeptStep(s, drop, o + 1);
      o' := o + 2;
      assert s[o + 1..] == [s[o + 1]] + s[o'..];
    } else {
      o' := o + 1;
    }
  }

  /**
   * removeElement of the element at slot k, the one being visited, while
   * the pass is at element o: the pass then resumes after the element that
   * slides into the slot.
   */
  method RemoveVisited<T(==)>(ghost s: seq<T>, ghost drop: seq<bool>, ghost o: nat, kept: seq<T>, k: nat) returns (kept': seq<T>, ghost o': nat)
    requires o < |s| == |drop| && !Skipped(drop, o) && drop[o]
    requires kept == Kept(s, drop, o) + s[o..] && NoRepeats(kept) && k == |Kept(s, drop, o)|
    ensures o < o' <= |s| && kept' == Kept(s, drop, o') + s[o'..] && NoRepeats(kept')
    ensures o' < |s| ==> |Kept(s, drop, o')| == k + 1 && !Skipped(drop, o')
    ensures o' == |s| ==> |kept'| <= k + 1
    ensures o' == o + 1 || (o' == o + 2 && o + 1 < |s|)
  {
    VisitSlot(kept, Kept(s, drop, o), s, o);
    RemoveAtSlot(kept, k);
    kept' := RemoveElement(kept[k], kept);
    o' := SkipAfterRemoval(s, drop, o, kept');
  }

  /**
   * The pass-over marks a pass leaves, written as the recurrence the pass
   * follows: the first element is visited, and an element is passed over
   * exactly when the one before it was visited and removed.
   */
  ghost predicate SkipMarks(drop: seq<bool>, passed: seq<bool>)
    decreases |passed|
  {
    && |passed| <= |drop|
    && (|passed| > 0 ==>
          && SkipMarks(drop, passed[..|passed| - 1])
          && passed[|passed| - 1] == (|passed| > 1 && drop[|passed| - 2] && !passed[|passed| - 2]))
  }

  /** Marks that follow the recurrence are exactly the elements Skipped names. */
  lemma {:induction false} SkipMarksAreSkipped(drop: seq<bool>, passed: seq<bool>, i: nat)
    requires SkipMarks(drop, passed) && i < |passed|
    ensures passed[i] == Skipped(drop, i)
    decreases |passed|
  {
    var pre := passed[..|passed| - 1];
    if i < |passed| - 1 {
      SkipMarksAreSkipped(drop, pre, i);
    } else if i > 0 {
      SkipMarksAreSkipped(drop, pre, i - 1);
    }
  }

  /** The same for the element just after the marked ones. */
  lemma NextSkipped(drop: seq<bool>, passed: seq<bool>)
    requires SkipMarks(drop, passed) && |passed| < |drop|
    ensures Skipped(drop, |passed|) == (|passed| > 0 && drop[|passed| - 1] && !passed[|passed| - 1])
  {
    if |passed| > 0 {
      SkipMarksAreSkipped(drop, passed, |passed| - 1);
    }
  }

  /** The marks only look at the tests of the marked elements. */
  lemma {:induction false} SkipMarksAgree(d1: seq<bool>, d2: seq<bool>, passed: seq<bool>)
    requires SkipMarks(d1, passed) && |passed| <= |d2| && d1[..|passed|] == d2[..|passed|]
    ensures SkipMarks(d2, passed)
    decreases |passed|
  {
    if |passed| > 0 {
      var pre := passed[..|passed| - 1];
      assert d1[..|pre|] == d1[..|passed|][..|pre|] && d2[..|pre|] == d2[..|passed|][..|pre|];
      SkipMarksAgree(d1, d2, pre);
      if |passed| > 1 {
        assert d1[|passed| - 2] == d1[..|passed|][|passed| - 2] && d2[|passed| - 2] == d2[..|passed|][|passed| - 2];
      }
    }
  }

  /**
   * Extending the marks as the pass goes on: a visited element that stays
   * is followed by a visit; a removed one by the element passed over.
   */
  lemma SkipMarksExtend(drop: seq<bool>, passed: seq<bool>)
    requires SkipMarks(drop, passed) && |passed| < |drop| && !Skipped(drop, |passed|)
    ensures SkipMarks(drop, passed + [false])
    ensures drop[|passed|] && |passed| + 1 < |drop| ==> SkipMarks(drop, passed + [false, true])
  {
    NextSkipped(drop, passed);
    var p1 := passed + [false];
    assert p1[..|passed|] == passed;
    assert SkipMarks(drop, p1);
    var p2 := passed + [false, true];
    assert p2[..|p1|] == p1;
  }

  /**
   * The test of the element being visited is decided during its visit:
   * changing it leaves what was kept before it, and the marks so far, as
   * they were, and the marks can be extended.
   */
  lemma DecideVisited<T>(s: seq<T>, before: seq<bool>, drop: seq<bool>, passed: seq<bool>)
    requires |passed| < |s| == |before| == |drop| && drop[..|passed|] == before[..|passed|]
    requires SkipMarks(before, passed) && !Skipped(before, |passed|)
    ensures Kept(s, drop, |passed|) == Kept(s, before, |passed|) && !Skipped(drop, |passed|)
    ensures SkipMarks(drop, passed + [false])
    ensures drop[|passed|] && |passed| + 1 < |drop| ==> SkipMarks(drop, passed + [false, true])
  {
    KeptAgree(s, before, drop, |passed|);
    SkippedAgree(before, drop, |passed|);
    SkipMarksAgree(before, drop, passed);
    SkipMarksExtend(drop, passed);
  }

  /**
   * One visit of the pass, after the visited element's test `remove` is
   * decided: the element is spliced out if it holds, and the marks grow by
   * the visit and, after a removal, by the element that slides into the slot.
   */
  method PassStep<T(==)>(ghost s: seq<T>, ghost drop: seq<bool>, ghost passed: seq<bool>, kept: seq<T>, k: nat, remove: bool)
      returns (kept': seq<T>, ghost passed': seq<bool>)
    requires |passed| < |s| == |drop| && remove == drop[|passed|]
    requires SkipMarks(drop, passed) && !Skipped(drop, |passed|)
    requires kept == Kept(s, drop, |passed|) + s[|passed|..] && NoRepeats(kept) && k == |Kept(s, drop, |passed|)|
    requires remove && |passed| + 1 < |drop| ==> SkipMarks(drop, passed + [false, true])
    requires SkipMarks(drop, passed + [false])
    ensures passed' == passed + [false] || (passed' == passed + [false, true] && |passed| + 1 < |s|)
    ensures SkipMarks(drop, passed') && kept' == Kept(s, drop, |passed'|) + s[|passed'|..] && NoRepeats(kept')
    ensures |passed'| < |s| ==> k + 1 == |Kept(s, drop, |passed'|)| && !Skipped(drop, |passed'|)
    ensures |passed'| == |s| ==> k + 1 >= |kept'|
  {
    var o := |passed|;
    if remove {
      ghost var o';
      kept', o' := RemoveVisited(s, drop, o, kept, k);
      passed' := if o' == o + 2 then passed + [false, true] else passed + [false];
    } else {
      KeepAfterVisit(s, drop, o);
      kept' := kept;
      passed' := passed + [false];
    }
  }

  /** What the pass leaves mid-way, of a list without repeats, has no repeats. */
  lemma {:induction false} NoRepeatsKept<T>(s: seq<T>, drop: seq<bool>, n: nat)
    requires n <= |s| == |drop| && NoRepeats(s)
    ensures NoRepeats(Kept(s, drop, n) + s[n..])
    decreases n
  {
    if n == 0 {
      assert Kept(s, drop, n) + s[n..] == s;
    } else {
      NoRepeatsKept(s, drop, n - 1);
      if Removed(drop, n - 1) {
        KeptRestRemoved(s, drop, n);
      } else {
        KeptRestKept(s, drop, n);
      }
    }
  }

  /** Once element n - 1 is removed, the list is the one before with that slot spliced out. */
  lemma KeptRestRemoved<T>(s: seq<T>, drop: seq<bool>, n: nat)
    requires 0 < n <= |s| == |drop| && Removed(drop, n - 1) && NoRepeats(Kept(s, drop, n - 1) + s[n - 1..])
    ensures NoRepeats(Kept(s, drop, n) + s[n..])
  {
    var a := Kept(s, drop, n - 1) + s[n - 1..];
    var k := |Kept(s, drop, n - 1)|;
    KeptStep(s, drop, n - 1);
    VisitSlot(a, Kept(s, drop, n - 1), s, n - 1);
    NoRepeatsWithout(a, k);
    assert a[..k] == Kept(s, drop, n) && a[k + 1..] == s[n..];
  }

  /** Once element n - 1 is kept, the list is the one before. */
  lemma KeptRestKept<T>(s: seq<T>, drop: seq<bool>, n: nat)
    requires 0 < n <= |s| == |drop| && !Removed(drop, n - 1)
    ensures Kept(s, drop, n) + s[n..] == Kept(s, drop, n - 1) + s[n - 1..]
  {
    KeptStep(s, drop, n - 1);
    assert s[n - 1..] == [s[n - 1]] + s[n..];
  }

  /**
   * The state of a removal pass over s before the visit of slot k: `passed`
   * marks the elements behind the pass, `drop` holds the removal tests, and
   * the list is what was kept of them followed by the elements not reached.
   */
  ghost predicate PassState<T>(s: seq<T>, kept: seq<T>, k: int, drop: seq<bool>, passed: seq<bool>)
  {
    && |passed| <= |s| == |drop| && SkipMarks(drop, passed)
    && kept == Kept(s, drop, |passed|) + s[|passed|..]
    && (|passed| < |s| ==> k == |Kept(s, drop, |passed|)| && !Skipped(drop, |passed|))
    && (|passed| == |s| ==> k >= |kept|)
  }

  /** Mid-pass, the list holds only elements of the list the pass began with. */
  lemma PassStateWithin<T>(s: seq<T>, kept: seq<T>, k: int, drop: seq<bool>, passed: seq<bool>)
    requires PassState(s, kept, k, drop, passed)
    ensures forall x | x in kept :: x in s
    ensures |passed| < |s| ==> k < |kept| && kept[k] == s[|passed|]
  {
    var n := |passed|;
    forall x | x in kept ensures x in s {
      if x in Kept(s, drop, n) {
        KeptFrom(s, drop, n, x);
      }
    }
    if n < |s| {
      VisitSlot(kept, Kept(s, drop, n), s, n);
    }
  }

  /**
   * One visit of the pass once the visited element's test `remove` is
   * known: the tests of the elements behind the pass stand, and the pass
   * moves on by one slot.
   */
  method Visit<T(==)>(ghost s: seq<T>, kept: seq<T>, k: nat, ghost drop: seq<bool>, ghost passed: seq<bool>,
                      ghost drop': seq<bool>, remove: bool)
      returns (kept': seq<T>, ghost passed': seq<bool>)
    requires PassState(s, kept, k, drop, passed) && |passed| < |s| && NoRepeats(s)
    requires |drop'| == |s| && drop'[..|passed|] == drop[..|passed|] && drop'[|passed|] == remove
    ensures PassState(s, kept', k + 1, drop', passed')
    ensures passed' == passed + [false] || passed' == passed + [false, true]
    ensures NoRepeats(kept')
  {
    DecideVisited(s, drop, drop', passed);
    NoRepeatsKept(s, drop', |passed|);
    kept', passed' := PassStep(s, drop', passed, kept, k, remove);
  }
}
