/** DFSStrategy: picking the next branch to flip. A forward scan over the
    path history finds the forced-truth markers; each marker with a false
    branch first triggers a backward sweep over the range since the previous
    marker, and a final sweep covers the range after the last marker. A
    sweep asks the solver, deepest branch first, to flip every open branch
    until one succeeds. */
module Dfs {

  /** One entry of the path history: a recorded branch, or any other kind
      of element. */
  datatype Element =
    | BranchElement(branch: bool, isForceTruth: bool, done: bool, pathConstraintIndex: int)
    | OtherElement

  /** History.solveAt: whether the solver finds inputs that flip the branch
      whose constraint has the given index in the path constraint. */
  type SolveAt = int -> bool

  /** A branch the strategy may try to flip. */
  predicate Open(e: Element) {
    e.BranchElement? && !e.done && e.pathConstraintIndex != -1
  }

  /** An open branch the solver can flip. */
  predicate Hit(e: Element, solveAt: SolveAt) {
    Open(e) && solveAt(e.pathConstraintIndex)
  }

  // ---- dfs(history, from, to, solver) ------------------------------------

  /** What dfs returns: the first index, from `from` down to just above
      `to`, whose branch the solver flips; -1 when there is none. */
  function Sweep(h: seq<Element>, from: int, to: int, solveAt: SolveAt): int
    requires -1 <= to <= from < |h|
    decreases from - to
  {
    if from == to then -1
    else if Hit(h[from], solveAt) then from
    else Sweep(h, from - 1, to, solveAt)
  }

  /** The history indices at which dfs calls solveAt, in call order. */
  function SweepCalls(h: seq<Element>, from: int, to: int, solveAt: SolveAt): seq<int>
    requires -1 <= to <= from < |h|
    decreases from - to
  {
    if from == to then []
    else if Open(h[from]) then
      if solveAt(h[from].pathConstraintIndex) then [from] else [from] + SweepCalls(h, from - 1, to, solveAt)
    else SweepCalls(h, from - 1, to, solveAt)
  }

  /** DFSStrategy.dfs, with the indices it hands to solveAt. */
  method Dfs(h: seq<Element>, from: int, to: int, solveAt: SolveAt) returns (r: int, calls: seq<int>)
    requires -1 <= to <= from < |h|
    ensures r == Sweep(h, from, to, solveAt)
    ensures calls == SweepCalls(h, from, to, solveAt)
  {
    calls := [];
    var i := from;
    while i > to
      invariant to <= i <= from
      invariant Sweep(h, i, to, solveAt) == Sweep(h, from, to, solveAt)
      invariant calls + SweepCalls(h, i, to, solveAt) == SweepCalls(h, from, to, solveAt)
    {
      var tmp := h[i];
      if tmp.BranchElement? {
        if !tmp.done && tmp.pathConstraintIndex != -1 {
          calls := calls + [i];
          if solveAt(tmp.pathConstraintIndex) {
            return i, calls;
          }
        }
      }
      assert calls + SweepCalls(h, i - 1, to, solveAt) == SweepCalls(h, from, to, solveAt);
      i := i - 1;
    }
    r := -1;
  }

  /** Deepest first: dfs returns the highest index in (to, from] whose
      branch the solver flips, and -1 exactly when no index there has one. */
  lemma {:induction false} SweepDeepestHit(h: seq<Element>, from: int, to: int, solveAt: SolveAt)
    requires -1 <= to <= from < |h|
    ensures var r := Sweep(h, from, to, solveAt);
      && (r == -1 || (to < r <= from && Hit(h[r], solveAt)))
      && (forall i :: (if r == -1 then to else r) < i <= from ==> !Hit(h[i], solveAt))
    decreases from - to
  {
    if from > to && !Hit(h[from], solveAt) {
      SweepDeepestHit(h, from - 1, to, solveAt);
    }
  }

  /** Every index in c lies in (lo, hi] and holds an open branch. */
  predicate Within(h: seq<Element>, c: seq<int>, lo: int, hi: int) {
    forall k :: 0 <= k < |c| ==> lo < c[k] <= hi && 0 <= c[k] < |h| && Open(h[c[k]])
  }

  predicate Decreasing(c: seq<int>) {
    forall k, l :: 0 <= k < l < |c| ==> c[k] > c[l]
  }

  predicate Distinct(c: seq<int>) {
    forall k, l :: 0 <= k < l < |c| ==> c[k] != c[l]
  }

  /** The calls of one sweep are strictly decreasing indices in (to, from],
      each an open branch. */
  lemma {:induction false} SweepCallsOrder(h: seq<Element>, from: int, to: int, solveAt: SolveAt)
    requires -1 <= to <= from < |h|
    ensures Within(h, SweepCalls(h, from, to, solveAt), to, from)
    ensures Decreasing(SweepCalls(h, from, to, solveAt))
    decreases from - to
  {
    if from > to {
      SweepCallsOrder(h, from - 1, to, solveAt);
      var rest := SweepCalls(h, from - 1, to, solveAt);
      if Open(h[from]) && !solveAt(h[from].pathConstraintIndex) {
        var c := [from] + rest;
        assert forall k :: 1 <= k < |c| ==> c[k] == rest[k - 1];
      }
    }
  }

  /** A sweep asks about every open branch above its answer, and a found
      answer is the last index asked about. */
  lemma {:induction false} SweepCallsCover(h: seq<Element>, from: int, to: int, solveAt: SolveAt)
    requires -1 <= to <= from < |h|
    ensures var r := Sweep(h, from, to, solveAt);
      forall i :: to < i <= from && (r == -1 || r < i) && Open(h[i]) ==> i in SweepCalls(h, from, to, solveAt)
    ensures Sweep(h, from, to, solveAt) != -1 ==>
              |SweepCalls(h, from, to, solveAt)| > 0
              && SweepCalls(h, from, to, solveAt)[|SweepCalls(h, from, to, solveAt)| - 1] == Sweep(h, from, to, solveAt)
    decreases from - to
  {
    if from > to && !Hit(h[from], solveAt) {
      SweepCallsCover(h, from - 1, to, solveAt);
      var rest := SweepCalls(h, from - 1, to, solveAt);
      if Open(h[from]) {
        var c := [from] + rest;
        assert from in c;
        assert forall i :: i in rest ==> i in c;
        if |rest| > 0 {
          assert c[|c| - 1] == rest[|rest| - 1];
        }
      }
    }
  }

  /** Two runs of calls over adjacent ranges, each without repeats, make
      one run without repeats over the joined range. */
  lemma JoinRanges(h: seq<Element>, a: seq<int>, b: seq<int>, lo: int, mid: int, hi: int)
    requires lo <= mid <= hi
    requires Within(h, a, lo, mid) && Within(h, b, mid, hi) && Distinct(a) && Distinct(b)
    ensures Within(h, a + b, lo, hi) && Distinct(a + b)
  {
    var c := a + b;
    forall k | 0 <= k < |c|
      ensures lo < c[k] <= hi && 0 <= c[k] < |h| && Open(h[c[k]])
    {
      if k < |a| {
        assert c[k] == a[k];
      } else {
        assert c[k] == b[k - |a|];
      }
    }
    forall k, l | 0 <= k < l < |c|
      ensures c[k] != c[l]
    {
      if l < |a| {
        assert c[k] == a[k] && c[l] == a[l];
      } else if k < |a| {
        assert c[k] == a[k] && c[l] == b[l - |a|];
      } else {
        assert c[k] == b[k - |a|] && c[l] == b[l - |a|];
      }
    }
  }

  // ---- solve(history, historySize, solver) -------------------------------

  /** A marker of the forward scan: a forced branch. */
  predicate Forced(e: Element) {
    e.BranchElement? && e.isForceTruth
  }

  /** What solve returns once the forward scan has reached j with the last
      marker at `to`: a forced branch taken false sweeps back to `to` first
      and then becomes the marker, a forced branch taken true only becomes
      the marker, and past the end a final sweep runs from the last index. */
  function ScanFrom(h: seq<Element>, n: int, j: int, to: int, solveAt: SolveAt): int
    requires 0 <= j <= n <= |h| && -1 <= to < j
    decreases n - j
  {
    if j >= n then Sweep(h, n - 1, to, solveAt)
    else if Forced(h[j]) && !h[j].branch then
      var r := Sweep(h, j, to, solveAt);
      if r != -1 then r else ScanFrom(h, n, j + 1, j, solveAt)
    else if Forced(h[j]) then ScanFrom(h, n, j + 1, j, solveAt)
    else ScanFrom(h, n, j + 1, to, solveAt)
  }

  /** The indices handed to solveAt by the sweeps of solve, in call order. */
  function ScanCalls(h: seq<Element>, n: int, j: int, to: int, solveAt: SolveAt): seq<int>
    requires 0 <= j <= n <= |h| && -1 <= to < j
    decreases n - j
  {
    if j >= n then SweepCalls(h, n - 1, to, solveAt)
    else if Forced(h[j]) && !h[j].branch then
      var c := SweepCalls(h, j, to, solveAt);
      if Sweep(h, j, to, solveAt) != -1 then c else c + ScanCalls(h, n, j + 1, j, solveAt)
    else if Forced(h[j]) then ScanCalls(h, n, j + 1, j, solveAt)
    else ScanCalls(h, n, j + 1, to, solveAt)
  }

  function StrategyOf(h: seq<Element>, n: int, solveAt: SolveAt): int
    requires 0 <= n <= |h|
  {
    ScanFrom(h, n, 0, -1, solveAt)
  }

  function StrategyCalls(h: seq<Element>, n: int, solveAt: SolveAt): seq<int>
    requires 0 <= n <= |h|
  {
    ScanCalls(h, n, 0, -1, solveAt)
  }

  /** DFSStrategy.solve over the first n elements of the history, with the
      indices it hands to solveAt. */
  method Strategy(h: seq<Element>, n: int, solveAt: SolveAt) returns (r: int, calls: seq<int>)
    requires 0 <= n <= |h|
    ensures r == StrategyOf(h, n, solveAt)
    ensures calls == StrategyCalls(h, n, solveAt)
  {
    var j := 0;
    var to := -1;
    calls := [];
    while j < n
      invariant 0 <= j <= n && -1 <= to < j
      invariant ScanFrom(h, n, j, to, solveAt) == StrategyOf(h, n, solveAt)
      invariant calls + ScanCalls(h, n, j, to, solveAt) == StrategyCalls(h, n, solveAt)
    {
      var tmp := h[j];
      if tmp.BranchElement? {
        if tmp.isForceTruth && !tmp.branch {
          var ret, c := Dfs(h, j, to, solveAt);
          if ret != -1 {
            return ret, calls + c;
          }
          assert (calls + c) + ScanCalls(h, n, j + 1, j, solveAt)
              == calls + (c + ScanCalls(h, n, j + 1, j, solveAt));
          calls := calls + c;
          to := j;
        } else if tmp.isForceTruth {
          to := j;
        }
      }
      j := j + 1;
    }
    if j >= n {
      j := n - 1;
    }
    var c;
    r, c := Dfs(h, j, to, solveAt);
    calls := calls + c;
  }

  // ---- properties of solve ------------------------------------------------

  /** The answer of one step of the scan is -1 or an index in (to, n) whose
      branch is open and flipped by the solver. */
  lemma {:induction false} ScanFromHit(h: seq<Element>, n: int, j: int, to: int, solveAt: SolveAt)
    requires 0 <= j <= n <= |h| && -1 <= to < j
    ensures var r := ScanFrom(h, n, j, to, solveAt);
      r == -1 || (to < r < n && Hit(h[r], solveAt))
    decreases n - j
  {
    if j >= n {
      SweepDeepestHit(h, n - 1, to, solveAt);
    } else if Forced(h[j]) && !h[j].branch {
      SweepDeepestHit(h, j, to, solveAt);
      ScanFromHit(h, n, j + 1, j, solveAt);
    } else if Forced(h[j]) {
      ScanFromHit(h, n, j + 1, j, solveAt);
    } else {
      ScanFromHit(h, n, j + 1, to, solveAt);
    }
  }

  /** solve returns -1 or an index below historySize holding a branch
      element that is not done, has a path constraint index, and was
      flipped by the solver. */
  lemma StrategyHit(h: seq<Element>, n: int, solveAt: SolveAt)
    requires 0 <= n <= |h|
    ensures var r := StrategyOf(h, n, solveAt);
      r == -1 || (0 <= r < n && h[r].BranchElement? && !h[r].done
                  && h[r].pathConstraintIndex != -1 && solveAt(h[r].pathConstraintIndex))
  {
    ScanFromHit(h, n, 0, -1, solveAt);
  }

  /** The solver is asked only about open branches below n, each at most
      once: the sweeps cover disjoint ranges, in increasing order. */
  lemma {:induction false} ScanCallsDistinct(h: seq<Element>, n: int, j: int, to: int, solveAt: SolveAt)
    requires 0 <= j <= n <= |h| && -1 <= to < j
    ensures Within(h, ScanCalls(h, n, j, to, solveAt), to, n - 1)
    ensures Distinct(ScanCalls(h, n, j, to, solveAt))
    decreases n - j
  {
    if j >= n {
      SweepCallsOrder(h, n - 1, to, solveAt);
    } else if Forced(h[j]) && !h[j].branch {
      SweepCallsOrder(h, j, to, solveAt);
      if Sweep(h, j, to, solveAt) == -1 {
        ScanCallsDistinct(h, n, j + 1, j, solveAt);
        JoinRanges(h, SweepCalls(h, j, to, solveAt), ScanCalls(h, n, j + 1, j, solveAt), to, j, n - 1);
      }
    } else if Forced(h[j]) {
      ScanCallsDistinct(h, n, j + 1, j, solveAt);
    } else {
      ScanCallsDistinct(h, n, j + 1, to, solveAt);
    }
  }

  /** solve asks the solver only about open branches below historySize,
      and never twice about the same one. */
  lemma StrategyCallsDistinct(h: seq<Element>, n: int, solveAt: SolveAt)
    requires 0 <= n <= |h|
    ensures Within(h, StrategyCalls(h, n, solveAt), -1, n - 1)
    ensures Distinct(StrategyCalls(h, n, solveAt))
  {
    ScanCallsDistinct(h, n, 0, -1, solveAt);
  }

  /** Without forced branches the scan only moves forward and solve is one
      sweep of the whole history from its last index. */
  lemma {:induction false} ScanWithoutMarkers(h: seq<Element>, n: int, j: int, solveAt: SolveAt)
    requires 0 <= j <= n <= |h|
    requires forall i :: 0 <= i < n ==> !Forced(h[i])
    ensures ScanFrom(h, n, j, -1, solveAt) == Sweep(h, n - 1, -1, solveAt)
    decreases n - j
  {
    if j < n {
      ScanWithoutMarkers(h, n, j + 1, solveAt);
    }
  }

  /** Deepest first: without forced branches solve returns the highest
      index below n whose branch is open and flipped, and -1 exactly when
      there is none. */
  lemma DeepestFirst(h: seq<Element>, n: int, solveAt: SolveAt)
    requires 0 <= n <= |h|
    requires forall i :: 0 <= i < n ==> !Forced(h[i])
    ensures var r := StrategyOf(h, n, solveAt);
      && (r == -1 || (0 <= r < n && Hit(h[r], solveAt)))
      && (forall i :: (if r == -1 then -1 else r) < i < n ==> !Hit(h[i], solveAt))
  {
    ScanWithoutMarkers(h, n, 0, solveAt);
    SweepDeepestHit(h, n - 1, -1, solveAt);
  }

  /** Three open branches, none forced, and a solver that flips every one:
      solve picks the last, index 2, after one call to the solver. */
  lemma ThreeBranchesExample(solveAt: SolveAt)
    requires forall k :: solveAt(k)
    ensures var h := [BranchElement(true, false, false, 0), BranchElement(false, false, false, 1),
                      BranchElement(true, false, false, 2)];
      StrategyOf(h, 3, solveAt) == 2 && StrategyCalls(h, 3, solveAt) == [2]
  {
    var h := [BranchElement(true, false, false, 0), BranchElement(false, false, false, 1),
              BranchElement(true, false, false, 2)];
    ScanWithoutMarkers(h, 3, 0, solveAt);
    assert Hit(h[2], solveAt);
    assert ScanCalls(h, 3, 3, -1, solveAt) == [2];
    assert ScanCalls(h, 3, 2, -1, solveAt) == [2];
    assert ScanCalls(h, 3, 1, -1, solveAt) == [2];
  }

  /** A done branch is never returned and never handed to the solver. */
  lemma DoneNeverChosen(h: seq<Element>, n: int, solveAt: SolveAt, i: int)
    requires 0 <= n <= |h| && 0 <= i < n && h[i].BranchElement? && h[i].done
    ensures StrategyOf(h, n, solveAt) != i && i !in StrategyCalls(h, n, solveAt)
  {
    StrategyHit(h, n, solveAt);
    StrategyCallsDistinct(h, n, solveAt);
  }
}
