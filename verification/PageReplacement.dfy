/** The two page replacement policies on their own: CLOCK-M as a scan over the marks of the
    occupied frames, LRU as a minimum over the times of last access. */
module PageReplacement {

  /** The use and modified bits of the page in a frame. */
  datatype Mark = Mark(uso: bool, modificado: bool)

  datatype Scan = Scan(victim: nat, marks: seq<Mark>, inspections: nat)

  /** The frame `j` steps after `hand` on a clock of `n` frames, for less than one turn. */
  function At(n: nat, hand: nat, j: nat): (f: nat)
    requires hand < n && j <= n
    ensures f < n
  {
    if hand + j < n then hand + j else hand + j - n
  }

  predicate CleanUnused(m: Mark) { !m.uso && !m.modificado }

  predicate Clean(m: Mark) { !m.modificado }

  predicate DirtyUnused(m: Mark) { !m.uso && m.modificado }

  // ---------------------------------------------------------------- the clock's two passes

  /** First pass: looks for an unused clean frame, changing nothing. */
  function CleanPass(marks: seq<Mark>, hand: nat, j: nat): (r: nat)
    requires hand < |marks| && j <= |marks|
    ensures j <= r <= |marks|
    ensures forall i :: j <= i < r ==> !CleanUnused(marks[At(|marks|, hand, i)])
    ensures r < |marks| ==> CleanUnused(marks[At(|marks|, hand, r)])
    decreases |marks| - j
  {
    if j == |marks| || CleanUnused(marks[At(|marks|, hand, j)]) then j
    else CleanPass(marks, hand, j + 1)
  }

  /** Clears the use bit of the `k` frames from the hand on. */
  function Cleared(marks: seq<Mark>, hand: nat, k: nat): (r: seq<Mark>)
    requires hand < |marks| && k <= |marks|
    ensures |r| == |marks|
    ensures forall j :: 0 <= j < k ==> r[At(|marks|, hand, j)] == marks[At(|marks|, hand, j)].(uso := false)
    ensures forall j :: k <= j < |marks| ==> r[At(|marks|, hand, j)] == marks[At(|marks|, hand, j)]
  {
    if k == 0 then marks
    else
      var f := At(|marks|, hand, k - 1);
      Cleared(marks, hand, k - 1)[f := marks[f].(uso := false)]
  }

  /** Second pass: looks for an unused dirty frame, clearing the use bits it passes. */
  function DirtyPass(marks: seq<Mark>, hand: nat, j: nat): (r: nat)
    requires hand < |marks| && j <= |marks|
    ensures j <= r <= |marks|
    ensures forall i :: j <= i < r ==> !DirtyUnused(marks[At(|marks|, hand, i)])
    ensures r < |marks| ==> DirtyUnused(marks[At(|marks|, hand, r)])
    decreases |marks| - j
  {
    if j == |marks| || DirtyUnused(marks[At(|marks|, hand, j)]) then j
    else DirtyPass(marks, hand, j + 1)
  }

  /** The nested search of algoritmo_CLOCK_M, at most two rounds of two passes. */
  function ClockM(marks: seq<Mark>, hand: nat): Scan
    requires hand < |marks|
  {
    var n := |marks|;
    var clean := CleanPass(marks, hand, 0);
    if clean < n then Scan(At(n, hand, clean), marks, clean + 1)
    else
      var dirty := DirtyPass(marks, hand, 0);
      var marks1 := Cleared(marks, hand, dirty);
      if dirty < n then Scan(At(n, hand, dirty), marks1, n + dirty + 1)
      else
        var clean2 := CleanPass(marks1, hand, 0);
        if clean2 < n then Scan(At(n, hand, clean2), marks1, 2 * n + clean2 + 1)
        else Scan(hand, marks1, 3 * n + 1)
  }

  // ---------------------------------------------------------------- what CLOCK-M promises

  /** Every frame is some number of steps, less than a turn, after the hand. */
  lemma AtCovers(n: nat, hand: nat, f: nat) returns (j: nat)
    requires hand < n && f < n
    ensures j < n && At(n, hand, j) == f
  {
    j := if f >= hand then f - hand else f + n - hand;
  }

  /** `v` is the first frame from the hand that satisfies `p`. */
  ghost predicate FirstFrom(marks: seq<Mark>, hand: nat, v: nat, p: Mark -> bool)
    requires hand < |marks|
  {
    exists j :: 0 <= j < |marks| && v == At(|marks|, hand, j) && p(marks[v])
      && forall i :: 0 <= i < j ==> !p(marks[At(|marks|, hand, i)])
  }

  /** The victim, the use bits left behind and the cost, without reference to the passes. */
  lemma ClockMChoice(marks: seq<Mark>, hand: nat)
    requires hand < |marks|
    ensures var s := ClockM(marks, hand);
      && s.victim < |marks| && |s.marks| == |marks| && 1 <= s.inspections <= 3 * |marks| + 1
      && (forall f :: 0 <= f < |marks| ==> s.marks[f].modificado == marks[f].modificado)
    ensures var s := ClockM(marks, hand);
      if exists f :: 0 <= f < |marks| && CleanUnused(marks[f]) then
        s.marks == marks && FirstFrom(marks, hand, s.victim, CleanUnused)
      else if exists f :: 0 <= f < |marks| && DirtyUnused(marks[f]) then
        && FirstFrom(marks, hand, s.victim, DirtyUnused)
        && exists j :: 0 <= j < |marks| && s.victim == At(|marks|, hand, j) && s.marks == Cleared(marks, hand, j)
      else
        && (forall f :: 0 <= f < |marks| ==> s.marks[f] == marks[f].(uso := false))
        && if exists f :: 0 <= f < |marks| && !marks[f].modificado then
             FirstFrom(marks, hand, s.victim, Clean)
           else s.victim == hand
  {
    var n := |marks|;
    var clean := CleanPass(marks, hand, 0);
    if clean == n {
      NoneFrom(marks, hand, CleanUnused);
      var dirty := DirtyPass(marks, hand, 0);
      if dirty == n {
        NoneFrom(marks, hand, DirtyUnused);
        SecondRound(marks, hand);
      } else {
        ClearedKeepsModified(marks, hand, dirty);
      }
    }
  }

  lemma NoneFrom(marks: seq<Mark>, hand: nat, p: Mark -> bool)
    requires hand < |marks|
    requires forall i :: 0 <= i < |marks| ==> !p(marks[At(|marks|, hand, i)])
    ensures forall f :: 0 <= f < |marks| ==> !p(marks[f])
  {
    forall f | 0 <= f < |marks|
      ensures !p(marks[f])
    {
      var j := AtCovers(|marks|, hand, f);
    }
  }

  lemma ClearedKeepsModified(marks: seq<Mark>, hand: nat, k: nat)
    requires hand < |marks| && k <= |marks|
    ensures forall f :: 0 <= f < |marks| ==> Cleared(marks, hand, k)[f].modificado == marks[f].modificado
    ensures k == |marks| ==> forall f :: 0 <= f < |marks| ==> Cleared(marks, hand, k)[f] == marks[f].(uso := false)
  {
    forall f | 0 <= f < |marks|
      ensures Cleared(marks, hand, k)[f].modificado == marks[f].modificado
      ensures k == |marks| ==> Cleared(marks, hand, k)[f] == marks[f].(uso := false)
    {
      var j := AtCovers(|marks|, hand, f);
    }
  }

  /** Nothing unused: after the first round all use bits are clear, and the second finds the
      first clean frame or, failing that, stops where it started. */
  lemma SecondRound(marks: seq<Mark>, hand: nat)
    requires hand < |marks| && CleanPass(marks, hand, 0) == |marks| && DirtyPass(marks, hand, 0) == |marks|
    ensures var s := ClockM(marks, hand);
      && (forall f :: 0 <= f < |marks| ==> s.marks[f] == marks[f].(uso := false))
      && if exists f :: 0 <= f < |marks| && !marks[f].modificado then
           FirstFrom(marks, hand, s.victim, Clean)
         else s.victim == hand
  {
    var n := |marks|;
    var marks1 := Cleared(marks, hand, n);
    ClearedKeepsModified(marks, hand, n);
    var clean := CleanPass(marks1, hand, 0);
    if clean == n {
      NoneFrom(marks1, hand, CleanUnused);
      assert forall f :: 0 <= f < n ==> !CleanUnused(marks1[f]);
    } else {
      assert !marks[At(n, hand, clean)].modificado;
      assert forall i :: 0 <= i < clean ==> marks[At(n, hand, i)].modificado;
    }
  }

  // ---------------------------------------------------------------- LRU

  /** The first frame with the least time. */
  function Oldest(times: seq<int>, i: nat, best: nat): (f: nat)
    requires best < i <= |times|
    requires forall j :: 0 <= j < i ==> times[best] <= times[j]
    requires forall j :: 0 <= j < best ==> times[best] < times[j]
    ensures f < |times|
    ensures forall j :: 0 <= j < |times| ==> times[f] <= times[j]
    ensures forall j :: 0 <= j < f ==> times[f] < times[j]
    decreases |times| - i
  {
    if i == |times| then best
    else Oldest(times, i + 1, if times[i] < times[best] then i else best)
  }
}
