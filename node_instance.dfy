/**
 * The interval free list of an instanced mesh (GLTFModel/NodeInstance.js).
 *
 * `avaliableIndexs` is a list of inclusive gaps `[start, end]` of free instance
 * indices.  `removeAvaliableIndex` and `addAvaliableIndex` rebuild the list in one
 * left-to-right pass with a flag; `addAvaliableIndex` then merges overlapping or
 * adjacent gaps in a second pass.  The passes are specified by functions defined on
 * list prefixes, so that the loops' invariants are "the pass over the first `i` gaps".
 */
module FreeList {

  /** An inclusive interval `[start, end]` of free indices. */
  datatype Gap = Gap(start: int, end: int)

  /** Whether index `k` lies in gap `g`. */
  predicate InGap(g: Gap, k: int)
  {
    g.start <= k <= g.end
  }

  /** Whether index `k` is free according to the gap list. */
  predicate Covers(gaps: seq<Gap>, k: int)
  {
    gaps != [] && (Covers(gaps[..|gaps| - 1], k) || InGap(gaps[|gaps| - 1], k))
  }

  function Last(gaps: seq<Gap>): Gap
    requires gaps != []
  {
    gaps[|gaps| - 1]
  }

  /** Every gap is non-empty and each one ends before the next one starts. */
  predicate Ordered(gaps: seq<Gap>)
  {
    (forall i :: 0 <= i < |gaps| ==> gaps[i].start <= gaps[i].end) &&
    (forall i, j :: 0 <= i < j < |gaps| ==> gaps[i].end < gaps[j].start)
  }

  /** Ordered, and moreover no two gaps touch (`end + 1 < next start`). */
  predicate Separated(gaps: seq<Gap>)
  {
    Ordered(gaps) && (forall i, j :: 0 <= i < j < |gaps| ==> gaps[i].end + 1 < gaps[j].start)
  }

  /** Every gap is non-empty and the starts never decrease (what the merge pass needs). */
  predicate StartsSorted(gaps: seq<Gap>)
  {
    (forall i :: 0 <= i < |gaps| ==> gaps[i].start <= gaps[i].end) &&
    (forall i, j :: 0 <= i < j < |gaps| ==> gaps[i].start <= gaps[j].start)
  }

  /** The state of a rebuilding pass: the gaps pushed so far and the flag. */
  datatype Pass = Pass(gaps: seq<Gap>, done: bool)

  /** The gaps one iteration of `removeAvaliableIndex`'s loop pushes, in order. */
  function RemovePieces(g: Gap, n: int, taken: bool): seq<Gap>
  {
    if n < g.start then
      (if !taken then [Gap(n, n)] else []) + [g]
    else if n <= g.end then
      (if n > g.start then [Gap(g.start, n - 1)] else []) + (if n < g.end then [Gap(n + 1, g.end)] else [])
    else
      [g]
  }

  /** One iteration of `removeAvaliableIndex`'s loop: the flag is set once `n` is placed or split out. */
  function RemoveStep(p: Pass, g: Gap, n: int): Pass
  {
    Pass(p.gaps + RemovePieces(g, n, p.done), p.done || n < g.start || n <= g.end)
  }

  /** `removeAvaliableIndex`'s loop over the given gaps. */
  function RemovePass(gaps: seq<Gap>, n: int): Pass
  {
    if gaps == [] then Pass([], false)
    else RemoveStep(RemovePass(gaps[..|gaps| - 1], n), Last(gaps), n)
  }

  /** `removeAvaliableIndex(n)`: the new gap list. */
  function RemoveAvailable(gaps: seq<Gap>, n: int): seq<Gap>
  {
    var p := RemovePass(gaps, n);
    if !p.done then p.gaps + [Gap(n, n)] else p.gaps
  }

  /** The gaps one iteration of `addAvaliableIndex`'s first loop pushes, in order. */
  function AddPieces(g: Gap, n: int, added: bool): seq<Gap>
  {
    if n < g.start - 1 then
      (if !added then [Gap(n, n)] else []) + [g]
    else if n == g.start - 1 then
      [Gap(n, g.end)]
    else if g.start <= n <= g.end then
      [g]
    else if n == g.end + 1 then
      [Gap(g.start, n)]
    else
      [g]
  }

  /** One iteration of `addAvaliableIndex`'s first loop: only the last branch leaves the flag alone. */
  function AddStep(p: Pass, g: Gap, n: int): Pass
  {
    Pass(p.gaps + AddPieces(g, n, p.done), p.done || n < g.start || n <= g.end + 1)
  }

  /** `addAvaliableIndex`'s first loop over the given gaps. */
  function AddPass(gaps: seq<Gap>, n: int): Pass
  {
    if gaps == [] then Pass([], false)
    else AddStep(AddPass(gaps[..|gaps| - 1], n), Last(gaps), n)
  }

  /** `updatedGaps` of `addAvaliableIndex(n)`: never empty. */
  function Inserted(gaps: seq<Gap>, n: int): (u: seq<Gap>)
    ensures u != []
  {
    var p := AddPass(gaps, n);
    if !p.done then p.gaps + [Gap(n, n)] else (AddPassNonEmpty(gaps, n); p.gaps)
  }

  /** The merge pass's state: the gaps already emitted and the current gap. */
  datatype Merging = Merging(out: seq<Gap>, current: Gap)

  /** One iteration of the merge loop. */
  function MergeStep(m: Merging, next: Gap): Merging
  {
    if m.current.end + 1 >= next.start then
      Merging(m.out, Gap(m.current.start, if m.current.end >= next.end then m.current.end else next.end))
    else
      Merging(m.out + [m.current], next)
  }

  /** The merge loop over `u[1..]`, started from `u[0]`. */
  function MergePass(u: seq<Gap>): Merging
    requires u != []
  {
    if |u| == 1 then Merging([], u[0]) else MergeStep(MergePass(u[..|u| - 1]), Last(u))
  }

  function Merged(u: seq<Gap>): seq<Gap>
    requires u != []
  {
    var m := MergePass(u);
    m.out + [m.current]
  }

  /** `addAvaliableIndex(n)`: the new gap list. */
  function AddAvailable(gaps: seq<Gap>, n: int): seq<Gap>
  {
    Merged(Inserted(gaps, n))
  }

  // ---------------------------------------------------------------------------
  // Facts about `Covers` and the order predicates
  // ---------------------------------------------------------------------------

  lemma {:induction false} CoversAppend(a: seq<Gap>, b: seq<Gap>, k: int)
    ensures Covers(a + b, k) <==> Covers(a, k) || Covers(b, k)
  {
    if b == [] {
      assert a + b == a;
    } else {
      assert (a + b)[..|a + b| - 1] == a + b[..|b| - 1];
      CoversAppend(a, b[..|b| - 1], k);
    }
  }

  lemma CoversOne(g: Gap, k: int)
    ensures Covers([g], k) <==> InGap(g, k)
  {
    assert [g][..0] == [];
  }

  lemma OrderedSnoc(a: seq<Gap>, g: Gap)
    ensures Ordered(a + [g]) <==> Ordered(a) && g.start <= g.end && (a != [] ==> Last(a).end < g.start)
  {
    var s := a + [g];
    assert forall i :: 0 <= i < |a| ==> s[i] == a[i];
    assert s[|a|] == g;
    if a != [] {
      assert s[|a| - 1] == Last(a);
    }
  }

  lemma SeparatedSnoc(a: seq<Gap>, g: Gap)
    ensures Separated(a + [g]) <==> Separated(a) && g.start <= g.end && (a != [] ==> Last(a).end + 1 < g.start)
  {
    OrderedSnoc(a, g);
    var s := a + [g];
    assert forall i :: 0 <= i < |a| ==> s[i] == a[i];
    assert s[|a|] == g;
    if a != [] {
      assert s[|a| - 1] == Last(a);
    }
  }

  lemma StartsSortedSnoc(a: seq<Gap>, g: Gap)
    ensures StartsSorted(a + [g]) <==> StartsSorted(a) && g.start <= g.end && (a != [] ==> Last(a).start <= g.start)
  {
    var s := a + [g];
    assert forall i :: 0 <= i < |a| ==> s[i] == a[i];
    assert s[|a|] == g;
    if a != [] {
      assert s[|a| - 1] == Last(a);
    }
  }

  /** In an ordered list every free index lies between the first start and the last end. */
  lemma {:induction false} FreeBounds(gaps: seq<Gap>, k: int)
    requires Ordered(gaps) && Covers(gaps, k)
    ensures gaps[0].start <= k <= Last(gaps).end
  {
    var front := gaps[..|gaps| - 1];
    assert gaps == front + [Last(gaps)];
    OrderedSnoc(front, Last(gaps));
    if !InGap(Last(gaps), k) {
      FreeBounds(front, k);
      assert front[0] == gaps[0];
    }
  }

  // ---------------------------------------------------------------------------
  // removeAvaliableIndex
  // ---------------------------------------------------------------------------

  /** Concatenating two ordered lists whose boundary is in order gives an ordered list. */
  lemma OrderedConcat(a: seq<Gap>, b: seq<Gap>)
    requires Ordered(a) && Ordered(b)
    requires a != [] && b != [] ==> Last(a).end < b[0].start
    ensures Ordered(a + b)
  {
    var s := a + b;
    forall i, j | 0 <= i < j < |s| ensures s[i].end < s[j].start {
      if i < |a| <= j {
        assert s[i] == a[i] && s[j] == b[j - |a|];
        assert a[i].end <= Last(a).end;
        assert b[0].start <= b[j - |a|].start;
      }
    }
  }

  /** Same for start order. */
  lemma StartsSortedConcat(a: seq<Gap>, b: seq<Gap>)
    requires StartsSorted(a) && StartsSorted(b)
    requires a != [] && b != [] ==> Last(a).start <= b[0].start
    ensures StartsSorted(a + b)
  {
    var s := a + b;
    forall i, j | 0 <= i < j < |s| ensures s[i].start <= s[j].start {
      if i < |a| <= j {
        assert s[i] == a[i] && s[j] == b[j - |a|];
        assert a[i].start <= Last(a).start;
        assert b[0].start <= b[j - |a|].start;
      }
    }
  }

  lemma LastConcat(a: seq<Gap>, b: seq<Gap>)
    requires a + b != []
    ensures Last(a + b) == if b == [] then Last(a) else Last(b)
  {
  }

  /** The pieces one iteration of the removal loop pushes are ordered and stay left of `g.end`. */
  lemma RemovePiecesShape(g: Gap, n: int, taken: bool)
    requires g.start <= g.end
    ensures var pieces := RemovePieces(g, n, taken);
      && Ordered(pieces)
      && (pieces != [] ==> Last(pieces).end <= g.end
                           && (g.start <= pieces[0].start || (!taken && pieces[0].start == n && n < g.start)))
  {
    if n < g.start && !taken {
      assert RemovePieces(g, n, taken) == [Gap(n, n), g];
    } else if g.start < n < g.end {
      assert RemovePieces(g, n, taken) == [Gap(g.start, n - 1), Gap(n + 1, g.end)];
    }
  }

  /** The indices the pieces of one removal iteration free: those of `g` but `n`, plus `n` when it is placed. */
  lemma RemovePiecesCovers(g: Gap, n: int, taken: bool, k: int)
    requires g.start <= g.end
    ensures Covers(RemovePieces(g, n, taken), k) <==> (InGap(g, k) && k != n) || (k == n && n < g.start && !taken)
  {
    var lo, hi := Gap(g.start, n - 1), Gap(n + 1, g.end);
    if n < g.start {
      CoversOne(g, k);
      if !taken {
        assert RemovePieces(g, n, taken) == [Gap(n, n)] + [g];
        CoversAppend([Gap(n, n)], [g], k);
        CoversOne(Gap(n, n), k);
      }
    } else if n <= g.end {
      if n > g.start && n < g.end {
        assert RemovePieces(g, n, taken) == [lo] + [hi];
        CoversAppend([lo], [hi], k);
        CoversOne(lo, k);
        CoversOne(hi, k);
      } else if n > g.start {
        assert RemovePieces(g, n, taken) == [lo];
        CoversOne(lo, k);
      } else if n < g.end {
        assert RemovePieces(g, n, taken) == [hi];
        CoversOne(hi, k);
      } else {
        assert RemovePieces(g, n, taken) == [];
      }
    } else {
      CoversOne(g, k);
    }
  }

  /** What the removal pass's flag records, over an ordered input. */
  lemma {:induction false} RemovePassFlag(gaps: seq<Gap>, n: int)
    requires Ordered(gaps)
    ensures var p := RemovePass(gaps, n);
      && (!p.done ==> p.gaps == gaps && (gaps != [] ==> Last(gaps).end < n))
      && (p.done ==> gaps != [] && (Covers(gaps, n) || n < Last(gaps).start))
  {
    if gaps != [] {
      var front, g := gaps[..|gaps| - 1], Last(gaps);
      var p := RemovePass(front, n);
      assert Ordered(front) && g.start <= g.end && (front != [] ==> Last(front).start <= Last(front).end < g.start) by {
        assert gaps == front + [g];
        OrderedSnoc(front, g);
      }
      RemovePassFlag(front, n);
      assert !p.done && n > g.end && n >= g.start ==> RemovePieces(g, n, p.done) == [g];
      assert gaps == front + [g];
      assert Covers(gaps, n) <==> Covers(front, n) || InGap(g, n);
    }
  }

  /** One iteration of the removal loop keeps the pushed gaps ordered. */
  lemma RemoveStepShape(p: Pass, g: Gap, n: int)
    requires Ordered(p.gaps) && g.start <= g.end
    requires p.gaps != [] ==> Last(p.gaps).end < g.start
    requires !p.done && p.gaps != [] ==> Last(p.gaps).end < n
    ensures var q := RemoveStep(p, g, n);
      Ordered(q.gaps) && (q.gaps != [] ==> Last(q.gaps).end <= g.end)
  {
    var pieces := RemovePieces(g, n, p.done);
    RemovePiecesShape(g, n, p.done);
    OrderedConcat(p.gaps, pieces);
    if p.gaps + pieces != [] {
      LastConcat(p.gaps, pieces);
    }
  }

  /** The removal pass keeps the list ordered, over an ordered input. */
  lemma {:induction false} RemovePassShape(gaps: seq<Gap>, n: int)
    requires Ordered(gaps)
    ensures var p := RemovePass(gaps, n);
      && Ordered(p.gaps)
      && (p.gaps != [] ==> gaps != [] && Last(p.gaps).end <= Last(gaps).end)
  {
    if gaps != [] {
      var front, g := gaps[..|gaps| - 1], Last(gaps);
      assert Ordered(front) && g.start <= g.end && (front != [] ==> Last(front).end < g.start) by {
        assert gaps == front + [g];
        OrderedSnoc(front, g);
      }
      RemovePassShape(front, n);
      RemovePassFlag(front, n);
      RemoveStepShape(RemovePass(front, n), g, n);
    }
  }

  /** Which indices the removal pass leaves free, over an ordered input. */
  lemma {:induction false} RemovePassCovers(gaps: seq<Gap>, n: int, k: int)
    requires Ordered(gaps)
    ensures var p := RemovePass(gaps, n);
      Covers(p.gaps, k) <==> if k == n then p.done && !Covers(gaps, n) else Covers(gaps, k)
  {
    if gaps != [] {
      var front, g := gaps[..|gaps| - 1], Last(gaps);
      var p := RemovePass(front, n);
      var pieces := RemovePieces(g, n, p.done);
      assert Ordered(front) && g.start <= g.end by {
        assert gaps == front + [g];
        OrderedSnoc(front, g);
      }
      assert Covers(RemovePass(gaps, n).gaps, k) <==> Covers(p.gaps, k) || Covers(pieces, k) by {
        CoversAppend(p.gaps, pieces, k);
      }
      assert Covers(pieces, k) <==> (InGap(g, k) && k != n) || (k == n && n < g.start && !p.done) by {
        RemovePiecesCovers(g, n, p.done, k);
      }
      assert Covers(front, n) ==> n < g.start by {
        if Covers(front, n) {
          OrderedSnoc(front, g);
          FreeBounds(front, n);
        }
      }
      assert p.done ==> Covers(front, n) || n < g.start by {
        RemovePassFlag(front, n);
        OrderedSnoc(front, g);
      }
      assert !p.done ==> !Covers(front, n) by {
        RemovePassFlag(front, n);
        if Covers(front, n) {
          FreeBounds(front, n);
        }
      }
      assert Covers(gaps, k) <==> Covers(front, k) || InGap(g, k);
      assert Covers(gaps, n) <==> Covers(front, n) || InGap(g, n);
      RemovePassCovers(front, n, k);
    }
  }

  /** `removeAvaliableIndex(n)` keeps an ordered list ordered. */
  lemma RemoveKeepsOrder(gaps: seq<Gap>, n: int)
    requires Ordered(gaps)
    ensures Ordered(RemoveAvailable(gaps, n))
  {
    RemovePassShape(gaps, n);
    RemovePassFlag(gaps, n);
    var p := RemovePass(gaps, n);
    if !p.done {
      OrderedSnoc(p.gaps, Gap(n, n));
    }
  }

  /** `removeAvaliableIndex(n)` flips the status of `n` and keeps that of every other index. */
  lemma RemoveTogglesAt(gaps: seq<Gap>, n: int, k: int)
    requires Ordered(gaps)
    ensures Covers(RemoveAvailable(gaps, n), k) <==> if k == n then !Covers(gaps, n) else Covers(gaps, k)
  {
    RemovePassFlag(gaps, n);
    RemovePassCovers(gaps, n, k);
    var p := RemovePass(gaps, n);
    if !p.done {
      if Covers(gaps, n) {
        FreeBounds(gaps, n);
      }
      CoversAppend(p.gaps, [Gap(n, n)], k);
      CoversOne(Gap(n, n), k);
    }
  }

  /**
   * `removeAvaliableIndex(n)` toggles `n`: a free `n` becomes taken and a taken `n`
   * becomes free (the singleton `[n, n]` is inserted); every other index keeps its
   * status, and the list stays ordered.
   */
  lemma RemoveToggles(gaps: seq<Gap>, n: int)
    requires Ordered(gaps)
    ensures Ordered(RemoveAvailable(gaps, n))
    ensures forall k :: k != n ==> (Covers(RemoveAvailable(gaps, n), k) <==> Covers(gaps, k))
    ensures Covers(RemoveAvailable(gaps, n), n) <==> !Covers(gaps, n)
  {
    RemoveKeepsOrder(gaps, n);
    forall k ensures Covers(RemoveAvailable(gaps, n), k) <==> if k == n then !Covers(gaps, n) else Covers(gaps, k) {
      RemoveTogglesAt(gaps, n, k);
    }
  }

  // ---------------------------------------------------------------------------
  // addAvaliableIndex
  // ---------------------------------------------------------------------------

  lemma {:induction false} AddPassNonEmpty(gaps: seq<Gap>, n: int)
    ensures AddPass(gaps, n).done ==> AddPass(gaps, n).gaps != []
  {
    if gaps != [] {
      AddPassNonEmpty(gaps[..|gaps| - 1], n);
    }
  }

  /** What one iteration of the first adding loop pushes, for a non-empty gap `g`. */
  lemma AddPiecesFacts(g: Gap, n: int, added: bool, k: int)
    requires g.start <= g.end
    ensures var pieces := AddPieces(g, n, added);
      && StartsSorted(pieces)
      && pieces != []
      && Last(pieces).start <= g.end
      && (g.start - 1 <= pieces[0].start || (!added && pieces[0].start == n))
      && (Covers(pieces, k) <==>
            InGap(g, k) || (k == n && (n < g.start || n <= g.end + 1) && !(added && n < g.start - 1)))
  {
    CoversOne(g, k);
    if n < g.start - 1 {
      if !added {
        assert AddPieces(g, n, added) == [Gap(n, n)] + [g];
        CoversAppend([Gap(n, n)], [g], k);
        CoversOne(Gap(n, n), k);
      }
    } else if n == g.start - 1 {
      CoversOne(Gap(n, g.end), k);
    } else if g.start <= n <= g.end {
    } else if n == g.end + 1 {
      CoversOne(Gap(g.start, n), k);
    }
  }

  /** The first pass of `addAvaliableIndex` keeps starts in order, over an ordered input. */
  lemma {:induction false} AddPassShape(gaps: seq<Gap>, n: int)
    requires Ordered(gaps)
    ensures var p := AddPass(gaps, n);
      && StartsSorted(p.gaps)
      && (p.gaps != [] ==> gaps != [] && Last(p.gaps).start <= Last(gaps).end)
      && (!p.done ==> gaps != [] ==> Last(gaps).end + 1 < n)
  {
    if gaps != [] {
      var front, g := gaps[..|gaps| - 1], Last(gaps);
      assert gaps == front + [g];
      OrderedSnoc(front, g);
      AddPassShape(front, n);
      var p := AddPass(front, n);
      var pieces := AddPieces(g, n, p.done);
      AddPiecesFacts(g, n, p.done, n);
      StartsSortedConcat(p.gaps, pieces);
      LastConcat(p.gaps, pieces);
    }
  }

  /** The first pass of `addAvaliableIndex` frees `n` once it has been placed, and nothing else. */
  lemma {:induction false} AddPassCovers(gaps: seq<Gap>, n: int, k: int)
    requires Ordered(gaps)
    ensures var p := AddPass(gaps, n);
      Covers(p.gaps, k) <==> Covers(gaps, k) || (p.done && k == n)
  {
    if gaps != [] {
      var front, g := gaps[..|gaps| - 1], Last(gaps);
      var p := AddPass(front, n);
      var pieces := AddPieces(g, n, p.done);
      assert Ordered(front) && g.start <= g.end by {
        assert gaps == front + [g];
        OrderedSnoc(front, g);
      }
      assert Covers(AddPass(gaps, n).gaps, k) <==> Covers(p.gaps, k) || Covers(pieces, k) by {
        CoversAppend(p.gaps, pieces, k);
      }
      assert Covers(pieces, k) <==>
               InGap(g, k) || (k == n && (n < g.start || n <= g.end + 1) && !(p.done && n < g.start - 1)) by {
        AddPiecesFacts(g, n, p.done, k);
      }
      assert Covers(gaps, k) <==> Covers(front, k) || InGap(g, k);
      AddPassCovers(front, n, k);
    }
  }

  /** The merge pass keeps gaps separated, over a start-sorted input. */
  lemma {:induction false} MergePassShape(u: seq<Gap>)
    requires u != [] && StartsSorted(u)
    ensures var m := MergePass(u);
      Separated(m.out + [m.current]) && m.current.start <= Last(u).start
  {
    if |u| == 1 {
      SeparatedSnoc([], u[0]);
      assert [] + [u[0]] == [u[0]];
    } else {
      var front, next := u[..|u| - 1], Last(u);
      assert u == front + [next];
      StartsSortedSnoc(front, next);
      MergePassShape(front);
      var m := MergePass(front);
      SeparatedSnoc(m.out, m.current);
      if m.current.end + 1 >= next.start {
        SeparatedSnoc(m.out, MergeStep(m, next).current);
      } else {
        SeparatedSnoc(m.out + [m.current], next);
      }
    }
  }

  /** The merge pass frees exactly the indices its input frees. */
  lemma {:induction false} MergePassCovers(u: seq<Gap>, k: int)
    requires u != [] && StartsSorted(u)
    ensures var m := MergePass(u);
      Covers(m.out + [m.current], k) <==> Covers(u, k)
  {
    if |u| == 1 {
      assert [] + [u[0]] == [u[0]] == u;
    } else {
      var front, next := u[..|u| - 1], Last(u);
      assert u == front + [next];
      StartsSortedSnoc(front, next);
      MergePassCovers(front, k);
      MergePassShape(front);
      var m := MergePass(front);
      var m' := MergeStep(m, next);
      CoversAppend(m.out, [m.current], k);
      CoversOne(m.current, k);
      if m.current.end + 1 >= next.start {
        CoversAppend(m'.out, [m'.current], k);
        CoversOne(m'.current, k);
      } else {
        CoversAppend(m.out + [m.current], [next], k);
        assert m'.out + [m'.current] == (m.out + [m.current]) + [next];
      }
      CoversOne(next, k);
    }
  }

  /** `addAvaliableIndex(n)` leaves no two gaps overlapping or adjacent. */
  lemma AddSeparates(gaps: seq<Gap>, n: int)
    requires Ordered(gaps)
    ensures Separated(AddAvailable(gaps, n))
  {
    AddPassShape(gaps, n);
    var p := AddPass(gaps, n);
    if !p.done {
      StartsSortedSnoc(p.gaps, Gap(n, n));
    }
    MergePassShape(Inserted(gaps, n));
  }

  /** `addAvaliableIndex(n)` frees `n` and keeps the status of every other index. */
  lemma AddFreesAt(gaps: seq<Gap>, n: int, k: int)
    requires Ordered(gaps)
    ensures Covers(AddAvailable(gaps, n), k) <==> Covers(gaps, k) || k == n
  {
    AddPassShape(gaps, n);
    AddPassCovers(gaps, n, k);
    var p := AddPass(gaps, n);
    if !p.done {
      StartsSortedSnoc(p.gaps, Gap(n, n));
      CoversAppend(p.gaps, [Gap(n, n)], k);
      CoversOne(Gap(n, n), k);
    }
    MergePassCovers(Inserted(gaps, n), k);
  }

  /**
   * `addAvaliableIndex(n)` on an ordered list: afterwards `n` is free, every other
   * index keeps its status, and the gaps are sorted with no two overlapping or adjacent.
   */
  lemma AddFrees(gaps: seq<Gap>, n: int)
    requires Ordered(gaps)
    ensures forall k :: Covers(AddAvailable(gaps, n), k) <==> Covers(gaps, k) || k == n
    ensures Separated(AddAvailable(gaps, n))
  {
    AddSeparates(gaps, n);
    forall k ensures Covers(AddAvailable(gaps, n), k) <==> Covers(gaps, k) || k == n {
      AddFreesAt(gaps, n, k);
    }
  }

  /** Adding an index that is already free leaves the free set as it was. */
  lemma AddOfFreeIndexKeepsSet(gaps: seq<Gap>, n: int)
    requires Ordered(gaps) && Covers(gaps, n)
    ensures forall k :: Covers(AddAvailable(gaps, n), k) <==> Covers(gaps, k)
  {
    AddFrees(gaps, n);
  }

  /** Taking a free index and then giving it back restores the original free set. */
  lemma RemoveThenAddRestores(gaps: seq<Gap>, n: int)
    requires Ordered(gaps) && Covers(gaps, n)
    ensures forall k :: Covers(AddAvailable(RemoveAvailable(gaps, n), n), k) <==> Covers(gaps, k)
  {
    RemoveToggles(gaps, n);
    AddFrees(RemoveAvailable(gaps, n), n);
  }

  /** On an ordered list the first gap's start is the smallest free index. */
  lemma FirstStartIsSmallestFree(gaps: seq<Gap>)
    requires Ordered(gaps) && gaps != []
    ensures Covers(gaps, gaps[0].start)
    ensures forall k :: Covers(gaps, k) ==> gaps[0].start <= k
  {
    assert gaps == [gaps[0]] + gaps[1..];
    CoversAppend([gaps[0]], gaps[1..], gaps[0].start);
    CoversOne(gaps[0], gaps[0].start);
    forall k | Covers(gaps, k) ensures gaps[0].start <= k {
      FreeBounds(gaps, k);
    }
  }

  /** The initial list `[[0, maxInstance]]` frees `0 .. maxInstance`, both bounds included. */
  lemma InitialFreeSet(maxInstance: nat)
    ensures Ordered([Gap(0, maxInstance)])
    ensures forall k :: Covers([Gap(0, maxInstance)], k) <==> 0 <= k <= maxInstance
  {
    forall k ensures Covers([Gap(0, maxInstance)], k) <==> 0 <= k <= maxInstance {
      CoversOne(Gap(0, maxInstance), k);
    }
  }

  /** The first loop of `addAvaliableIndex`: `numberToAdd` is placed or glued onto a neighbour. */
  method InsertIndex(gaps: seq<Gap>, numberToAdd: int) returns (updatedGaps: seq<Gap>)
    ensures updatedGaps == Inserted(gaps, numberToAdd)
  {
    updatedGaps := [];
    var numberAdded := false;
    for i := 0 to |gaps|
      invariant Pass(updatedGaps, numberAdded) == AddPass(gaps[..i], numberToAdd)
    {
      assert gaps[..i + 1][..i] == gaps[..i];
      var g := gaps[i];
      ghost var before := Pass(updatedGaps, numberAdded);
      assert AddPass(gaps[..i + 1], numberToAdd) == AddStep(before, g, numberToAdd);
      if numberToAdd < g.start - 1 {
        if !numberAdded {
          updatedGaps := updatedGaps + [Gap(numberToAdd, numberToAdd)];
          numberAdded := true;
        }
        updatedGaps := updatedGaps + [g];
        assert updatedGaps == before.gaps + AddPieces(g, numberToAdd, before.done);
      } else if numberToAdd == g.start - 1 {
        updatedGaps := updatedGaps + [Gap(numberToAdd, g.end)];
        numberAdded := true;
      } else if numberToAdd >= g.start && numberToAdd <= g.end {
        updatedGaps := updatedGaps + [g];
        numberAdded := true;
      } else if numberToAdd == g.end + 1 {
        updatedGaps := updatedGaps + [Gap(g.start, numberToAdd)];
        numberAdded := true;
      } else {
        updatedGaps := updatedGaps + [g];
      }
    }
    assert gaps[..|gaps|] == gaps;
    if !numberAdded {
      updatedGaps := updatedGaps + [Gap(numberToAdd, numberToAdd)];
    }
    AddPassNonEmpty(gaps, numberToAdd);
  }

  /** The second loop of `addAvaliableIndex`: overlapping or adjacent gaps are merged. */
  method MergeGaps(updatedGaps: seq<Gap>) returns (mergedGaps: seq<Gap>)
    requires updatedGaps != []
    ensures mergedGaps == Merged(updatedGaps)
  {
    mergedGaps := [];
    var currentStart, currentEnd := updatedGaps[0].start, updatedGaps[0].end;
    for i := 1 to |updatedGaps|
      invariant Merging(mergedGaps, Gap(currentStart, currentEnd)) == MergePass(updatedGaps[..i])
    {
      assert updatedGaps[..i + 1][..i] == updatedGaps[..i];
      var next := updatedGaps[i];
      assert MergePass(updatedGaps[..i + 1]) == MergeStep(Merging(mergedGaps, Gap(currentStart, currentEnd)), next);
      if currentEnd + 1 >= next.start {
        currentEnd := if currentEnd >= next.end then currentEnd else next.end;
      } else {
        mergedGaps := mergedGaps + [Gap(currentStart, currentEnd)];
        currentStart, currentEnd := next.start, next.end;
      }
    }
    assert updatedGaps[..|updatedGaps|] == updatedGaps;
    mergedGaps := mergedGaps + [Gap(currentStart, currentEnd)];
  }

  // ---------------------------------------------------------------------------
  // The object
  // ---------------------------------------------------------------------------

  class NodeInstance {
    const maxInstance: nat
    var avaliableIndexs: seq<Gap>

    predicate Valid()
      reads this
    {
      Ordered(avaliableIndexs)
    }

    constructor (maxInstance: nat)
      ensures this.maxInstance == maxInstance
      ensures avaliableIndexs == [Gap(0, maxInstance)]
      ensures Valid()
    {
      this.maxInstance := maxInstance;
      avaliableIndexs := [Gap(0, maxInstance)];
    }

    /** `removeAvaliableIndex(takenNumber)`. */
    method RemoveAvaliableIndex(takenNumber: int)
      modifies this`avaliableIndexs
      ensures avaliableIndexs == RemoveAvailable(old(avaliableIndexs), takenNumber)
      ensures old(Valid()) ==> Valid()
    {
      var gaps := avaliableIndexs;
      var updatedGaps: seq<Gap> := [];
      var numberTaken := false;
      for i := 0 to |gaps|
        invariant Pass(updatedGaps, numberTaken) == RemovePass(gaps[..i], takenNumber)
      {
        assert gaps[..i + 1][..i] == gaps[..i];
        var g := gaps[i];
        ghost var before := Pass(updatedGaps, numberTaken);
        assert RemovePass(gaps[..i + 1], takenNumber) == RemoveStep(before, g, takenNumber);
        if takenNumber < g.start {
          if !numberTaken {
            updatedGaps := updatedGaps + [Gap(takenNumber, takenNumber)];
            numberTaken := true;
          }
          updatedGaps := updatedGaps + [g];
          assert updatedGaps == before.gaps + RemovePieces(g, takenNumber, before.done);
        } else if takenNumber >= g.start && takenNumber <= g.end {
          if takenNumber > g.start {
            updatedGaps := updatedGaps + [Gap(g.start, takenNumber - 1)];
          }
          if takenNumber < g.end {
            updatedGaps := updatedGaps + [Gap(takenNumber + 1, g.end)];
          }
          numberTaken := true;
          assert updatedGaps == before.gaps + RemovePieces(g, takenNumber, before.done);
        } else {
          updatedGaps := updatedGaps + [g];
        }
      }
      assert gaps[..|gaps|] == gaps;
      if !numberTaken {
        updatedGaps := updatedGaps + [Gap(takenNumber, takenNumber)];
      }
      avaliableIndexs := updatedGaps;
      if Ordered(gaps) {
        RemoveKeepsOrder(gaps, takenNumber);
      }
    }

    /** `addAvaliableIndex(numberToAdd)`. */
    method AddAvaliableIndex(numberToAdd: int)
      modifies this`avaliableIndexs
      ensures avaliableIndexs == AddAvailable(old(avaliableIndexs), numberToAdd)
      ensures old(Valid()) ==> Valid()
    {
      var gaps := avaliableIndexs;
      var updatedGaps := InsertIndex(gaps, numberToAdd);
      var mergedGaps := MergeGaps(updatedGaps);
      avaliableIndexs := mergedGaps;
      if Ordered(gaps) {
        AddSeparates(gaps, numberToAdd);
      }
    }

    /**
     * The allocation part of `addInstanceToSence`: the smallest free index is taken.
     * An empty free list makes the source throw, so it is excluded here.
     */
    method AddInstanceToSence() returns (index: int)
      requires avaliableIndexs != []
      modifies this`avaliableIndexs
      ensures index == old(avaliableIndexs)[0].start
      ensures avaliableIndexs == RemoveAvailable(old(avaliableIndexs), index)
      ensures old(Valid()) ==> Valid()
    {
      index := avaliableIndexs[0].start;
      RemoveAvaliableIndex(index);
    }

    /** The allocation part of `removeInstanceFromSence({ index })`: the index is freed. */
    method RemoveInstanceFromSence(index: int)
      modifies this`avaliableIndexs
      ensures avaliableIndexs == AddAvailable(old(avaliableIndexs), index)
      ensures old(Valid()) ==> Valid()
    {
      AddAvaliableIndex(index);
    }
  }

  /**
   * What `addInstanceToSence` promises on an ordered list: the index it takes is the
   * smallest free one, and afterwards that index is taken and nothing else changed.
   */
  lemma AllocationTakesSmallest(gaps: seq<Gap>)
    requires Ordered(gaps) && gaps != []
    ensures forall k :: Covers(gaps, k) ==> gaps[0].start <= k
    ensures forall k :: Covers(RemoveAvailable(gaps, gaps[0].start), k) <==> Covers(gaps, k) && k != gaps[0].start
  {
    FirstStartIsSmallestFree(gaps);
    RemoveToggles(gaps, gaps[0].start);
  }
}
