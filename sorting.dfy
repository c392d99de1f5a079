/** The bubble-sort stepper of the sorting workspace: a displayed array, a
    `sorting` flag and a step counter; a run copies the array, sorts the copy
    in place by adjacent swaps, counts every comparison and shows the copy
    after every swap. */
module BubbleSortStepper {

  /** The array the workspace starts from and is reset to. */
  const InitialArray: seq<int> := [64, 34, 25, 12, 22, 11, 90]

  /** Ascending order. */
  ghost predicate Sorted(s: seq<int>) {
    forall a, b :: 0 <= a < b < |s| ==> s[a] <= s[b]
  }

  /** `a[lo..hi]` is in ascending order. */
  ghost predicate SortedRange(a: seq<int>, lo: int, hi: int)
    requires 0 <= lo <= hi <= |a|
  {
    forall x, y :: lo <= x < y < hi ==> a[x] <= a[y]
  }

  /** Every element before `split` is at most every element from `split` on. */
  ghost predicate Partitioned(a: seq<int>, split: int)
    requires 0 <= split <= |a|
  {
    forall x, y :: 0 <= x < split <= y < |a| ==> a[x] <= a[y]
  }

  /** The comparisons of the first `passes` outer passes over `n` elements:
      pass `i` compares `n - i - 1` adjacent pairs. */
  function Comparisons(n: nat, passes: nat): int {
    if passes == 0 then 0 else Comparisons(n, passes - 1) + (n - (passes - 1) - 1)
  }

  /** The passes the outer loop makes over `n` elements. */
  function Passes(n: nat): nat {
    if n == 0 then 0 else n - 1
  }

  /** A full run over `n` elements makes exactly `n(n-1)/2` comparisons. */
  lemma {:induction false} ComparisonsTotal(n: nat, passes: nat)
    requires passes <= n
    ensures 2 * Comparisons(n, passes) == passes * (2 * n - passes - 1)
  {
    if passes > 0 {
      ComparisonsTotal(n, passes - 1);
    }
  }

  lemma FullRunComparisons(n: nat)
    ensures Comparisons(n, Passes(n)) == n * (n - 1) / 2
  {
    ComparisonsTotal(n, Passes(n));
  }

  /** The initial seven-element array takes 21 comparisons; already sorted
      input takes no fewer, since no pass stops early: for three or more
      elements that is more than the `n - 1` of a single early-exit pass. */
  lemma {:induction false} NoEarlyExit(n: nat)
    ensures Comparisons(7, Passes(7)) == 21
    ensures n >= 3 ==> Comparisons(n, Passes(n)) > n - 1
  {
    FullRunComparisons(7);
    FullRunComparisons(n);
    if n >= 3 {
      assert n * (n - 1) >= 3 * (n - 1);
    }
  }

  /** Two ascending arrangements of the same elements are the same sequence. */
  lemma {:induction false} SortedPermutationUnique(a: seq<int>, b: seq<int>)
    requires Sorted(a) && Sorted(b) && multiset(a) == multiset(b)
    ensures a == b
    decreases |a|
  {
    assert |a| == |multiset(a)| == |multiset(b)| == |b|;
    if a != [] {
      SortedHeadMin(b, a[0]);
      SortedHeadMin(a, b[0]);
      assert a == [a[0]] + a[1..];
      assert b == [b[0]] + b[1..];
      assert a[0] == b[0];
      assert multiset(a[1..]) == multiset(a) - multiset{a[0]};
      assert multiset(b[1..]) == multiset(b) - multiset{b[0]};
      SortedTail(a);
      SortedTail(b);
      SortedPermutationUnique(a[1..], b[1..]);
    }
  }

  /** The head of an ascending sequence is at most each of its elements. */
  lemma SortedHeadMin(s: seq<int>, x: int)
    requires Sorted(s) && x in multiset(s)
    ensures s != [] && s[0] <= x
  {
    assert x in s;
    var i :| 0 <= i < |s| && s[i] == x;
    if i > 0 {
      assert s[0] <= s[i];
    }
  }

  /** The tail of an ascending sequence is ascending. */
  lemma SortedTail(s: seq<int>)
    requires Sorted(s) && s != []
    ensures Sorted(s[1..])
  {
    forall x, y | 0 <= x < y < |s[1..]| ensures s[1..][x] <= s[1..][y] {
      assert s[1..][x] == s[x + 1] && s[1..][y] == s[y + 1];
    }
  }

  /** Ascending order follows from ascending neighbours. */
  lemma {:induction false} AdjacentSorted(s: seq<int>)
    requires forall k :: 0 <= k < |s| - 1 ==> s[k] <= s[k + 1]
    ensures Sorted(s)
    decreases |s|
  {
    if |s| > 1 {
      AdjacentSorted(s[1..]);
      assert forall b :: 1 <= b < |s| ==> s[0] <= s[b] by {
        forall b | 1 <= b < |s| ensures s[0] <= s[b] {
          assert s[0] <= s[1];
          if b > 1 {
            assert s[1..][0] <= s[1..][b - 1];
          }
        }
      }
    }
  }

  lemma TargetSorted(target: seq<int>)
    requires target == [11, 12, 22, 25, 34, 64, 90]
    ensures Sorted(target)
  {
    forall k | 0 <= k < |target| - 1 ensures target[k] <= target[k + 1] {
      if k == 0 {} else if k == 1 {} else if k == 2 {} else if k == 3 {} else if k == 4 {} else {}
    }
    AdjacentSorted(target);
  }

  lemma TargetPermutation(target: seq<int>)
    requires target == [11, 12, 22, 25, 34, 64, 90]
    ensures multiset(target) == multiset(InitialArray)
  {
  }

  /** The initial array sorted: any ascending permutation of it is this one. */
  lemma SortedInitialArray(s: seq<int>)
    requires Sorted(s) && multiset(s) == multiset(InitialArray)
    ensures s == [11, 12, 22, 25, 34, 64, 90]
  {
    var target := [11, 12, 22, 25, 34, 64, 90];
    TargetSorted(target);
    TargetPermutation(target);
    SortedPermutationUnique(s, target);
  }

  /** The workspace state: the displayed `array`, the `sorting` flag and the
      `currentStep` counter. */
  class SortingWorkspace {
    var displayed: seq<int>  // the `array` state; `array` is a reserved word here
    var sorting: bool
    var currentStep: int

    constructor ()
      ensures displayed == InitialArray && !sorting && currentStep == 0
    {
      displayed, sorting, currentStep := InitialArray, false, 0;
    }

    /** `resetArray`: the initial array, step 0, not sorting. */
    method ResetArray()
      modifies this
      ensures displayed == InitialArray && currentStep == 0 && !sorting
    {
      displayed := InitialArray;
      currentStep := 0;
      sorting := false;
    }

    /** `bubbleSort`: on completion the array is the ascending permutation of
        the array at the start, the counter has grown by exactly `n(n-1)/2`
        without having been reset, and `sorting` is off again. Sorted input is
        left as it is. */
    method BubbleSort()
      modifies this
      ensures Sorted(displayed) && multiset(displayed) == multiset(old(displayed))
      ensures currentStep == old(currentStep) + |old(displayed)| * (|old(displayed)| - 1) / 2
      ensures Sorted(old(displayed)) ==> displayed == old(displayed)
      ensures !sorting
    {
      sorting := true;
      var n := |displayed|;
      var arr := new int[n];
      forall k | 0 <= k < n {
        arr[k] := displayed[k];
      }
      ghost var start := arr[..];
      assert start == old(displayed);
      var i := 0;
      while i < n - 1
        invariant 0 <= i <= Passes(n)
        invariant sorting && displayed == arr[..]
        invariant RunState(start, arr[..], n - i)
        invariant currentStep == old(currentStep) + Comparisons(n, i)
      {
        ghost var before := arr[..];
        BubblePass(arr, i);
        RunStateStep(start, before, arr[..], n - i);
        i := i + 1;
      }
      FullRunComparisons(n);
      RunDone(start, arr[..], n - i);
      sorting := false;
    }

    /** Outer pass `i` of `bubbleSort`: compares the pairs `(j, j + 1)` for
        `j < n - i - 1`, counting each comparison and swapping and showing the
        array whenever the left element is the larger; the largest element of
        the unsorted prefix ends at position `n - i - 1`. */
    method BubblePass(arr: array<int>, i: int)
      requires 0 <= i < arr.Length - 1
      requires displayed == arr[..]
      requires SortedRange(arr[..], arr.Length - i, arr.Length) && Partitioned(arr[..], arr.Length - i)
      modifies this`displayed, this`currentStep, arr
      ensures displayed == arr[..]
      ensures multiset(arr[..]) == multiset(old(arr[..]))
      ensures SortedRange(arr[..], arr.Length - i - 1, arr.Length) && Partitioned(arr[..], arr.Length - i - 1)
      ensures currentStep == old(currentStep) + (arr.Length - i - 1)
      ensures Sorted(old(arr[..])) ==> arr[..] == old(arr[..])
    {
      var n := arr.Length;
      ghost var start := arr[..];
      var j := 0;
      while j < n - i - 1
        invariant 0 <= j <= n - i - 1
        invariant displayed == arr[..]
        invariant PassState(start, arr[..], j, n - i)
        invariant currentStep == old(currentStep) + j
      {
        ghost var before := arr[..];
        CountedCompareAndSwap(arr, j);
        PassStateStep(start, before, j, n - i);
        j := j + 1;
      }
      PassEnd(arr[..], n - i);
    }

    /** The body of the inner loop: counts the comparison, and swaps the pair
        and shows the array when the left element is the larger. */
    method CountedCompareAndSwap(arr: array<int>, j: int)
      requires 0 <= j < arr.Length - 1 && displayed == arr[..]
      modifies this`displayed, this`currentStep, arr
      ensures arr[..] == CompareAndSwap(old(arr[..]), j)
      ensures displayed == arr[..] && currentStep == old(currentStep) + 1
    {
      currentStep := currentStep + 1;
      var swapped := CompareAndSwapAt(arr, j);
      if swapped {
        displayed := arr[..];
      }
    }
  }

  /** Inside pass `n - split`: the suffix from `split` on is sorted and above
      the rest, and `s[j]` is the largest of `s[..j + 1]`. */
  ghost predicate PassInvariant(s: seq<int>, j: int, split: int)
  {
    && 0 <= j < split <= |s|
    && SortedRange(s, split, |s|) && Partitioned(s, split)
    && (forall x :: 0 <= x < j ==> s[x] <= s[j])
  }

  /** The state of a run that started from `start` once the suffix from
      `split` holds the largest elements in order. */
  ghost predicate RunState(start: seq<int>, s: seq<int>, split: int)
  {
    && 0 <= split <= |s|
    && multiset(s) == multiset(start)
    && SortedRange(s, split, |s|) && Partitioned(s, split)
    && (Sorted(start) ==> s == start)
  }

  /** A pass that keeps the elements, grows the sorted suffix by one and leaves
      sorted input alone moves the run state one split to the left. */
  lemma RunStateStep(start: seq<int>, before: seq<int>, after: seq<int>, split: int)
    requires RunState(start, before, split)
    requires multiset(after) == multiset(before)
    requires 0 < split <= |after|
    requires SortedRange(after, split - 1, |after|) && Partitioned(after, split - 1)
    requires Sorted(before) ==> after == before
    ensures RunState(start, after, split - 1)
  {
  }

  /** A run whose sorted suffix covers all but at most the first element has
      sorted the elements it started from. */
  lemma RunDone(start: seq<int>, s: seq<int>, split: int)
    requires RunState(start, s, split) && split <= 1
    ensures Sorted(s) && multiset(s) == multiset(start)
    ensures Sorted(start) ==> s == start
  {
  }

  /** The state of a pass that started from `start`: the same elements, the
      pass invariant at `j`, and sorted input untouched. */
  ghost predicate PassState(start: seq<int>, s: seq<int>, j: int, split: int)
  {
    && multiset(s) == multiset(start)
    && PassInvariant(s, j, split)
    && (Sorted(start) ==> s == start)
  }

  /** One compare-and-swap keeps the pass state and moves it one pair on. */
  lemma PassStateStep(start: seq<int>, s: seq<int>, j: int, split: int)
    requires j < split - 1 && PassState(start, s, j, split)
    ensures PassState(start, CompareAndSwap(s, j), j + 1, split)
  {
    CompareAndSwapStep(s, j, split);
  }

  /** At the end of a pass the largest element of the prefix has joined the
      sorted suffix. */
  lemma PassEnd(s: seq<int>, split: int)
    requires PassInvariant(s, split - 1, split)
    ensures SortedRange(s, split - 1, |s|) && Partitioned(s, split - 1)
  {
  }

  /** One step of a pass: the pair at `j` swapped if it is out of order. */
  function CompareAndSwap(s: seq<int>, j: int): seq<int>
    requires 0 <= j < |s| - 1
  {
    if s[j] > s[j + 1] then s[j := s[j + 1]][j + 1 := s[j]] else s
  }

  /** A step keeps the elements, keeps the sorted suffix from `split` on, carries
      the largest element seen so far one place right, and changes nothing in
      sorted input. */
  lemma CompareAndSwapStep(s: seq<int>, j: int, split: int)
    requires j < split - 1 && PassInvariant(s, j, split)
    ensures var r := CompareAndSwap(s, j);
      && |r| == |s| && multiset(r) == multiset(s)
      && PassInvariant(r, j + 1, split)
      && (Sorted(s) ==> r == s)
  {
    var r := CompareAndSwap(s, j);
    if s[j] > s[j + 1] {
      assert r == s[..j] + [s[j + 1], s[j]] + s[j + 2..];
      assert s == s[..j] + [s[j], s[j + 1]] + s[j + 2..];
      assert multiset([s[j + 1], s[j]]) == multiset([s[j], s[j + 1]]);
    }
  }

  /** One comparison of a pass on the array: swaps `a[j]` and `a[j + 1]` when
      the left one is the larger, and says whether it did. */
  method CompareAndSwapAt(a: array<int>, j: int) returns (swapped: bool)
    requires 0 <= j < a.Length - 1
    modifies a
    ensures a[..] == CompareAndSwap(old(a[..]), j)
    ensures swapped <==> old(a[j]) > old(a[j + 1])
  {
    swapped := a[j] > a[j + 1];
    if swapped {
      Swap(a, j);
      assert a[..] == old(a[..])[j := old(a[j + 1])][j + 1 := old(a[j])];
    }
  }

  /** Exchanges `a[j]` and `a[j + 1]`. */
  method Swap(a: array<int>, j: int)
    requires 0 <= j < a.Length - 1
    modifies a
    ensures a[j] == old(a[j + 1]) && a[j + 1] == old(a[j])
    ensures forall k :: 0 <= k < a.Length && k != j && k != j + 1 ==> a[k] == old(a[k])
    ensures multiset(a[..]) == multiset(old(a[..]))
  {
    a[j], a[j + 1] := a[j + 1], a[j];
  }

  /** A reset followed by a complete run shows the sorted initial array after
      21 comparisons. */
  method ResetThenRun(w: SortingWorkspace)
    modifies w
    ensures w.displayed == [11, 12, 22, 25, 34, 64, 90] && w.currentStep == 21 && !w.sorting
  {
    w.ResetArray();
    w.BubbleSort();
    SortedInitialArray(w.displayed);
  }
}
