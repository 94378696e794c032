/**
 * Ordering and replay of draw calls in Manager::call_render
 * (src/manager.hpp): the stable sort by descending depth, and the drawing
 * loop that can stop at a depth cutoff and resume on the next call.
 */
module RenderOrder {
  import opened Component
  import opened Wrappers
  import opened ManagerCalls

  /** Farther objects first: depths never increase along the sequence. */
  ghost predicate SortedByDepth(s: seq<DrawCall>)
  {
    forall i :: 0 <= i < |s| - 1 ==> s[i].depth >= s[i + 1].depth
  }

  /** Along a depth-sorted sequence every later call is at most as deep as every earlier one. */
  lemma {:induction false} SortedByDepthPairwise(s: seq<DrawCall>, i: nat, j: nat)
    requires SortedByDepth(s) && i <= j < |s|
    ensures s[i].depth >= s[j].depth
    decreases j - i
  {
    if i < j {
      SortedByDepthPairwise(s, i + 1, j);
    }
  }

  /** The draw calls of one depth, in sequence order. */
  function AtDepth(s: seq<DrawCall>, d: int): (r: seq<DrawCall>)
    ensures |r| <= |s|
  {
    if s == [] then [] else (if s[0].depth == d then [s[0]] else []) + AtDepth(s[1..], d)
  }

  /** Places x before the first element that is not strictly deeper than x. */
  function InsertByDepth(x: DrawCall, t: seq<DrawCall>): (r: seq<DrawCall>)
  {
    if t == [] || t[0].depth <= x.depth then [x] + t else [t[0]] + InsertByDepth(x, t[1..])
  }

  /**
   * std::stable_sort with comparator `a.depth > b.depth`: an insertion sort
   * that keeps calls of equal depth in collection order.
   */
  function SortByDepth(s: seq<DrawCall>): (r: seq<DrawCall>)
  {
    if s == [] then [] else InsertByDepth(s[0], SortByDepth(s[1..]))
  }

  lemma {:induction false} InsertByDepthKeepsElements(x: DrawCall, t: seq<DrawCall>)
    ensures multiset(InsertByDepth(x, t)) == multiset{x} + multiset(t)
  {
    if t != [] && t[0].depth > x.depth {
      InsertByDepthKeepsElements(x, t[1..]);
      assert t == [t[0]] + t[1..];
    }
  }

  lemma {:induction false} InsertByDepthKeepsDepthRuns(x: DrawCall, t: seq<DrawCall>, d: int)
    ensures AtDepth(InsertByDepth(x, t), d) == (if x.depth == d then [x] else []) + AtDepth(t, d)
  {
    if t != [] && t[0].depth > x.depth {
      var u := InsertByDepth(x, t[1..]);
      InsertByDepthKeepsDepthRuns(x, t[1..], d);
      var r := [t[0]] + u;
      assert r[0] == t[0] && r[1..] == u;
      assert AtDepth(r, d) == (if t[0].depth == d then [t[0]] else []) + AtDepth(u, d);
      assert AtDepth(t, d) == (if t[0].depth == d then [t[0]] else []) + AtDepth(t[1..], d);
      if x.depth == d {
        assert t[0].depth != d;
      }
    } else {
      var r := [x] + t;
      assert r[0] == x && r[1..] == t;
      assert AtDepth(r, d) == (if x.depth == d then [x] else []) + AtDepth(t, d);
    }
  }

  lemma InsertByDepthFront(x: DrawCall, t: seq<DrawCall>)
    ensures |InsertByDepth(x, t)| == |t| + 1
    ensures InsertByDepth(x, t)[0] == x || (t != [] && InsertByDepth(x, t)[0] == t[0])
  {
  }

  lemma {:induction false} InsertByDepthSorted(x: DrawCall, t: seq<DrawCall>)
    requires SortedByDepth(t)
    ensures SortedByDepth(InsertByDepth(x, t))
  {
    if t != [] && t[0].depth > x.depth {
      var u := InsertByDepth(x, t[1..]);
      assert SortedByDepth(t[1..]) by {
        forall i | 0 <= i < |t[1..]| - 1 ensures t[1..][i].depth >= t[1..][i + 1].depth {
          assert t[1..][i] == t[i + 1] && t[1..][i + 1] == t[i + 2];
        }
      }
      InsertByDepthSorted(x, t[1..]);
      InsertByDepthFront(x, t[1..]);
      var r := [t[0]] + u;
      assert r[0] == t[0];
      forall i | 0 <= i < |r| - 1 ensures r[i].depth >= r[i + 1].depth {
        if i > 0 { assert r[i] == u[i - 1] && r[i + 1] == u[i]; }
        else { assert r[1] == u[0]; }
      }
    } else {
      var r := [x] + t;
      forall i | 0 <= i < |r| - 1 ensures r[i].depth >= r[i + 1].depth {
        if i > 0 { assert r[i] == t[i - 1] && r[i + 1] == t[i]; }
      }
    }
  }

  lemma InsertByDepthProperties(x: DrawCall, t: seq<DrawCall>)
    requires SortedByDepth(t)
    ensures SortedByDepth(InsertByDepth(x, t))
    ensures multiset(InsertByDepth(x, t)) == multiset{x} + multiset(t)
    ensures forall d :: AtDepth(InsertByDepth(x, t), d) == (if x.depth == d then [x] else []) + AtDepth(t, d)
  {
    InsertByDepthSorted(x, t);
    InsertByDepthKeepsElements(x, t);
    forall d ensures AtDepth(InsertByDepth(x, t), d) == (if x.depth == d then [x] else []) + AtDepth(t, d) {
      InsertByDepthKeepsDepthRuns(x, t, d);
    }
  }

  /** The sort orders by descending depth, is a permutation, and is stable. */
  lemma {:induction false} SortByDepthProperties(s: seq<DrawCall>)
    ensures SortedByDepth(SortByDepth(s))
    ensures multiset(SortByDepth(s)) == multiset(s)
    ensures forall d :: AtDepth(SortByDepth(s), d) == AtDepth(s, d)
  {
    if s != [] {
      SortByDepthProperties(s[1..]);
      InsertByDepthProperties(s[0], SortByDepth(s[1..]));
      assert s == [s[0]] + s[1..];
      forall d ensures AtDepth(SortByDepth(s), d) == AtDepth(s, d) {
        assert AtDepth(s, d) == (if s[0].depth == d then [s[0]] else []) + AtDepth(s[1..], d);
      }
    }
  }

  /**
   * Where a render pass starts: at the index the previous pass stopped, unless
   * that index reaches `size - 1` in size_t arithmetic (which is the largest
   * size_t when there are no draw calls), in which case at 0.
   */
  function StartIndex(lastIndex: nat, size: nat): (start: nat)
    ensures start == 0 || start == lastIndex
    ensures size > 0 && lastIndex < size - 1 ==> start == lastIndex
    ensures size > 0 && lastIndex >= size - 1 ==> start == 0
  {
    var sizeMinusOne := if size == 0 then U64 - 1 else size - 1;
    if lastIndex >= sizeMinusOne then 0 else lastIndex
  }

  /** The result of the drawing loop: what it drew and the last index it stored, if it ran. */
  datatype Pass = Pass(drawn: seq<DrawCall>, lastIndex: Option<nat>)

  /** The drawing loop from index i: each visited index is stored, and a call shallower than the cutoff stops it. */
  function DrawFrom(s: seq<DrawCall>, i: nat, until: int): (p: Pass)
    decreases |s| - i
  {
    if i >= |s| then Pass([], None)
    else if s[i].depth < until then Pass([], Some(i))
    else
      var rest := DrawFrom(s, i + 1, until);
      Pass([s[i]] + rest.drawn, if rest.lastIndex.None? then Some(i) else rest.lastIndex)
  }

  /**
   * A pass draws a contiguous run from its start, every drawn call at or
   * below the cutoff; if it stops early, the stored index is the first call
   * it did not draw, which is shallower than the cutoff.
   */
  lemma {:induction false} DrawFromRun(s: seq<DrawCall>, i: nat, until: int)
    requires i <= |s|
    ensures var p := DrawFrom(s, i, until);
            && i + |p.drawn| <= |s| && p.drawn == s[i..i + |p.drawn|]
            && (forall c :: c in p.drawn ==> c.depth >= until)
            && (i + |p.drawn| < |s| ==> s[i + |p.drawn|].depth < until && p.lastIndex == Some(i + |p.drawn|))
            && (i + |p.drawn| == |s| ==> p.lastIndex == if i < |s| then Some(|s| - 1) else None)
    decreases |s| - i
  {
    if i < |s| && s[i].depth >= until {
      DrawFromRun(s, i + 1, until);
    }
  }

  /** Splitting a pass at an index it reaches: the calls before it are drawn, then the pass goes on from there. */
  lemma {:induction false} DrawFromSkip(s: seq<DrawCall>, j: nat, i: nat, until: int)
    requires j <= i <= |s|
    requires forall m :: j <= m < i ==> s[m].depth >= until
    ensures DrawFrom(s, j, until).drawn == s[j..i] + DrawFrom(s, i, until).drawn
    ensures DrawFrom(s, j, until).lastIndex ==
              if DrawFrom(s, i, until).lastIndex.Some? then DrawFrom(s, i, until).lastIndex
              else if j < i then Some(i - 1) else None
    decreases i - j
  {
    if j < i {
      DrawFromSkip(s, j + 1, i, until);
      assert s[j..i] == [s[j]] + s[j + 1..i];
    }
  }

  /** With no cutoff (the default argument) every call from the start index is drawn. */
  lemma NoCutoffDrawsAll(s: seq<DrawCall>, i: nat)
    requires i <= |s|
    ensures DrawFrom(s, i, NEG_INF_DEPTH).drawn == s[i..]
  {
    DrawFromRun(s, i, NEG_INF_DEPTH);
  }

  /** On depth-sorted calls, a pass with a cutoff from index 0 draws exactly the calls at or below the cutoff. */
  lemma CutoffDrawsDeepCalls(s: seq<DrawCall>, until: int)
    requires SortedByDepth(s)
    ensures forall c :: c in DrawFrom(s, 0, until).drawn <==> c in s && c.depth >= until
  {
    DrawFromRun(s, 0, until);
    var n := |DrawFrom(s, 0, until).drawn|;
    forall c | c in s && c.depth >= until ensures c in DrawFrom(s, 0, until).drawn {
      var j :| 0 <= j < |s| && s[j] == c;
      if n < |s| && j >= n {
        SortedByDepthPairwise(s, n, j);
      }
      assert j < n;
      assert s[..n][j] == c;
    }
  }

  /**
   * Resuming: a cutoff pass that stopped before the last call leaves the next
   * default pass to draw exactly the remainder, so together they draw every
   * call once, in order.
   */
  lemma ResumeCompletesPass(s: seq<DrawCall>, until: int)
    requires DrawFrom(s, 0, until).lastIndex.Some?
    requires DrawFrom(s, 0, until).lastIndex.value < |s| - 1
    ensures var first := DrawFrom(s, 0, until);
            first.drawn + DrawFrom(s, StartIndex(first.lastIndex.value, |s|), NEG_INF_DEPTH).drawn == s
  {
    DrawFromRun(s, 0, until);
    var first := DrawFrom(s, 0, until);
    NoCutoffDrawsAll(s, first.lastIndex.value);
    assert s[..|first.drawn|] + s[|first.drawn|..] == s;
  }

  /**
   * The restart rule at `size - 1`: a cutoff pass that stops at the very last
   * call makes the next default pass start again from 0, so the calls the
   * first pass drew are drawn a second time.
   */
  lemma StopAtLastRedraws()
    ensures var s := [DrawCall(5, 0, 0), DrawCall(-20, 0, 1)];
            var first := DrawFrom(s, 0, -10);
            && first.drawn == [DrawCall(5, 0, 0)]
            && first.lastIndex == Some(1)
            && DrawFrom(s, StartIndex(1, 2), NEG_INF_DEPTH).drawn == s
  {
    var s := [DrawCall(5, 0, 0), DrawCall(-20, 0, 1)];
    assert DrawFrom(s, 1, -10) == Pass([], Some(1));
    assert DrawFrom(s, 2, NEG_INF_DEPTH) == Pass([], None);
    assert DrawFrom(s, 1, NEG_INF_DEPTH).drawn == [DrawCall(-20, 0, 1)];
  }
}
