/**
 * The ordered, duplicate-free list of template directories kept by both
 * versions of the view manager, as values.
 *
 * `AddPath` and `AddEach` follow the code step by step (one `addPath` per
 * element, in loop order); `Dedup`, `FilterOut` and `Reverse` are the
 * independent reference definitions the characterisation lemmas relate them to.
 */
module PathList {

  predicate NoDuplicates(s: seq<string>) {
    forall i, j :: 0 <= i < j < |s| ==> s[i] != s[j]
  }

  /** `addPath($path, $prepend)` on the list `ps`. */
  function AddPath(ps: seq<string>, p: string, prepend: bool): (r: seq<string>)
    ensures p in r
    ensures p in ps ==> r == ps
    ensures NoDuplicates(ps) ==> NoDuplicates(r)
  {
    if p in ps then ps else if prepend then [p] + ps else ps + [p]
  }

  /** One `addPath($q, $prepend)` per element of `qs`, first to last. */
  function AddEach(ps: seq<string>, qs: seq<string>, prepend: bool): (r: seq<string>)
    ensures forall x :: x in r <==> x in ps || x in qs
    ensures NoDuplicates(ps) ==> NoDuplicates(r)
    decreases |qs|
  {
    if qs == [] then ps
    else AddPath(AddEach(ps, qs[..|qs| - 1], prepend), qs[|qs| - 1], prepend)
  }

  /** One more loop step: the fold over `qs[..i + 1]` is one `addPath` after the fold over `qs[..i]`. */
  lemma AddEachStep(ps: seq<string>, qs: seq<string>, i: nat, prepend: bool)
    requires i < |qs|
    ensures AddEach(ps, qs[..i + 1], prepend) == AddPath(AddEach(ps, qs[..i], prepend), qs[i], prepend)
  {
    assert qs[..i + 1][..i] == qs[..i];
  }

  /** `array_reverse` */
  function Reverse(s: seq<string>): (r: seq<string>)
    ensures |r| == |s|
    ensures forall i :: 0 <= i < |s| ==> r[i] == s[|s| - 1 - i]
    decreases |s|
  {
    if s == [] then [] else [s[|s| - 1]] + Reverse(s[..|s| - 1])
  }

  /** `addPaths($qs, $prepend)`: the prepending branch walks the reversed list. */
  function AddPaths(ps: seq<string>, qs: seq<string>, prepend: bool): (r: seq<string>)
    ensures forall x :: x in r <==> x in ps || x in qs
    ensures NoDuplicates(ps) ==> NoDuplicates(r)
  {
    if prepend then
      ReverseMembers(qs);
      AddEach(ps, Reverse(qs), true)
    else AddEach(ps, qs, false)
  }

  /** The elements of `s` that are not in `e`, in order. */
  function FilterOut(s: seq<string>, e: seq<string>): seq<string>
    decreases |s|
  {
    if s == [] then []
    else FilterOut(s[..|s| - 1], e) + (if s[|s| - 1] in e then [] else [s[|s| - 1]])
  }

  /** `s` with every repeated element removed, keeping its first occurrence. */
  function Dedup(s: seq<string>): seq<string>
    decreases |s|
  {
    if s == [] then []
    else if s[|s| - 1] in s[..|s| - 1] then Dedup(s[..|s| - 1])
    else Dedup(s[..|s| - 1]) + [s[|s| - 1]]
  }

  // ---------------------------------------------------------------------
  // Facts about the reference definitions

  lemma NoDuplicatesSnoc(a: seq<string>, x: string)
    ensures NoDuplicates(a + [x]) <==> NoDuplicates(a) && x !in a
  {
    var s := a + [x];
    assert forall i :: 0 <= i < |a| ==> s[i] == a[i];
    if x in a {
      var k :| 0 <= k < |a| && a[k] == x;
      assert s[k] == s[|a|];
      assert !NoDuplicates(s);
    }
  }

  lemma {:induction false} ReverseHas(s: seq<string>, x: string)
    ensures x in Reverse(s) <==> x in s
    decreases |s|
  {
    if s != [] {
      assert s == s[..|s| - 1] + [s[|s| - 1]];
      ReverseHas(s[..|s| - 1], x);
    }
  }

  lemma {:induction false} FilterOutHas(s: seq<string>, e: seq<string>, x: string)
    ensures x in FilterOut(s, e) <==> x in s && x !in e
    decreases |s|
  {
    if s != [] {
      assert s == s[..|s| - 1] + [s[|s| - 1]];
      FilterOutHas(s[..|s| - 1], e, x);
    }
  }

  lemma {:induction false} DedupHas(s: seq<string>, x: string)
    ensures x in Dedup(s) <==> x in s
    decreases |s|
  {
    if s != [] {
      assert s == s[..|s| - 1] + [s[|s| - 1]];
      DedupHas(s[..|s| - 1], x);
    }
  }

  lemma ReverseReverse(s: seq<string>)
    ensures Reverse(Reverse(s)) == s
  {
    var r := Reverse(s);
    assert forall i :: 0 <= i < |s| ==> Reverse(r)[i] == r[|s| - 1 - i] == s[i];
  }

  lemma ReverseMembers(s: seq<string>)
    ensures forall x :: x in Reverse(s) <==> x in s
  {
    forall x ensures x in Reverse(s) <==> x in s {
      ReverseHas(s, x);
    }
  }

  lemma ReverseDistinct(s: seq<string>)
    requires NoDuplicates(s)
    ensures NoDuplicates(Reverse(s))
  {
    var r := Reverse(s);
    forall i, j | 0 <= i < j < |r| ensures r[i] != r[j] {
      assert r[i] == s[|s| - 1 - i] && r[j] == s[|s| - 1 - j];
    }
  }

  lemma {:induction false} FilterOutMembers(s: seq<string>, e: seq<string>)
    ensures forall x :: x in FilterOut(s, e) <==> x in s && x !in e
    ensures NoDuplicates(s) ==> NoDuplicates(FilterOut(s, e))
    decreases |s|
  {
    if s != [] {
      var init, x := s[..|s| - 1], s[|s| - 1];
      assert s == init + [x];
      FilterOutMembers(init, e);
      if NoDuplicates(s) {
        NoDuplicatesSnoc(init, x);
        if x !in e {
          NoDuplicatesSnoc(FilterOut(init, e), x);
        }
      }
    }
  }

  lemma {:induction false} FilterOutConcat(a: seq<string>, b: seq<string>, e: seq<string>)
    ensures FilterOut(a + b, e) == FilterOut(a, e) + FilterOut(b, e)
    decreases |b|
  {
    if b == [] {
      assert a + b == a;
    } else {
      var init := b[..|b| - 1];
      assert (a + b)[..|a + b| - 1] == a + init;
      FilterOutConcat(a, init, e);
    }
  }

  /** Filtering keeps a list none of whose elements is excluded. */
  lemma {:induction false} FilterOutNone(s: seq<string>, e: seq<string>)
    requires forall x :: x in s ==> x !in e
    ensures FilterOut(s, e) == s
    decreases |s|
  {
    if s != [] {
      FilterOutNone(s[..|s| - 1], e);
    }
  }

  /** Filtering empties a list all of whose elements are excluded. */
  lemma {:induction false} FilterOutAll(s: seq<string>, e: seq<string>)
    requires forall x :: x in s ==> x in e
    ensures FilterOut(s, e) == []
    decreases |s|
  {
    if s != [] {
      FilterOutAll(s[..|s| - 1], e);
    }
  }

  lemma {:induction false} FilterOutReverse(s: seq<string>, e: seq<string>)
    ensures FilterOut(Reverse(s), e) == Reverse(FilterOut(s, e))
    decreases |s|
  {
    if s != [] {
      var init, x := s[..|s| - 1], s[|s| - 1];
      FilterOutReverse(init, e);
      FilterOutConcat([x], Reverse(init), e);
      assert FilterOut([x], e) == (if x in e then [] else [x]) by {
        assert [x][..0] == [];
      }
      var f := FilterOut(init, e);
      if x in e {
        assert FilterOut(s, e) == f + [] == f;
        assert FilterOut([x], e) == [];
        assert FilterOut(Reverse(s), e) == [] + Reverse(f);
      } else {
        assert FilterOut(s, e) == f + [x];
        assert (f + [x])[..|f|] == f;
        assert Reverse(f + [x]) == [x] + Reverse(f);
        assert FilterOut(Reverse(s), e) == [x] + Reverse(f);
      }
    }
  }

  /** `Dedup` keeps every element once and only the elements of its input. */
  lemma {:induction false} DedupMembers(s: seq<string>)
    ensures forall x :: x in Dedup(s) <==> x in s
    ensures NoDuplicates(Dedup(s))
    decreases |s|
  {
    if s != [] {
      var init, x := s[..|s| - 1], s[|s| - 1];
      assert s == init + [x];
      DedupMembers(init);
      if x !in init {
        NoDuplicatesSnoc(Dedup(init), x);
      }
    }
  }

  /** A list without repetitions is its own `Dedup`. */
  lemma {:induction false} DedupOfDistinct(s: seq<string>)
    requires NoDuplicates(s)
    ensures Dedup(s) == s
    decreases |s|
  {
    if s != [] {
      var init, x := s[..|s| - 1], s[|s| - 1];
      assert s == init + [x];
      NoDuplicatesSnoc(init, x);
      DedupOfDistinct(init);
    }
  }

  /** Removing repetitions twice is removing them once. */
  lemma DedupIdempotent(s: seq<string>)
    ensures Dedup(Dedup(s)) == Dedup(s)
  {
    DedupMembers(s);
    DedupOfDistinct(Dedup(s));
  }

  // ---------------------------------------------------------------------
  // What `addPaths` computes

  /**
   * Appending: the existing list stays as it is, followed by the new paths in
   * the order of their first occurrence in the input.
   */
  lemma {:induction false} AppendEachIs(e: seq<string>, qs: seq<string>)
    ensures AddEach(e, qs, false) == e + Dedup(FilterOut(qs, e))
    decreases |qs|
  {
    if qs == [] {
      assert e + [] == e;
    } else {
      AppendEachIs(e, qs[..|qs| - 1]);
      AppendStep(e, qs);
    }
  }

  lemma AppendStep(e: seq<string>, qs: seq<string>)
    requires qs != []
    requires AddEach(e, qs[..|qs| - 1], false) == e + Dedup(FilterOut(qs[..|qs| - 1], e))
    ensures AddEach(e, qs, false) == e + Dedup(FilterOut(qs, e))
  {
    var x, d := qs[|qs| - 1], Dedup(FilterOut(qs[..|qs| - 1], e));
    var prev := AddEach(e, qs[..|qs| - 1], false);
    assert AddEach(e, qs, false) == AddPath(prev, x, false);
    NewTail(qs, e);
    if x in e || x in d {
      assert x in prev;
    } else {
      assert x !in prev;
      SnocAssoc(e, d, x);
    }
  }

  lemma SnocAssoc(a: seq<string>, b: seq<string>, x: string)
    ensures (a + b) + [x] == a + (b + [x])
  {
  }

  /**
   * Prepending element by element: the existing list stays as it is, preceded
   * by the new paths, the one added last first.
   */
  lemma {:induction false} PrependEachIs(e: seq<string>, qs: seq<string>)
    ensures AddEach(e, qs, true) == Reverse(Dedup(FilterOut(qs, e))) + e
    decreases |qs|
  {
    if qs != [] {
      var init, x := qs[..|qs| - 1], qs[|qs| - 1];
      var prev := AddEach(e, init, true);
      var d := Dedup(FilterOut(init, e));
      PrependEachIs(e, init);
      NewTail(qs, e);
      ReverseHas(d, x);
      if x !in e && x !in d {
        ReverseSnoc(d, x);
        assert x !in prev;
      }
    }
  }

  lemma ReverseSnoc(s: seq<string>, x: string)
    ensures Reverse(s + [x]) == [x] + Reverse(s)
  {
    assert (s + [x])[..|s|] == s;
  }

  /**
   * The step both folds share: the new paths of `qs` are those of all but its
   * last element `x`, followed by `x` when `x` is neither existing nor
   * already new.
   */
  lemma NewTail(qs: seq<string>, e: seq<string>)
    requires qs != []
    ensures var x, d := qs[|qs| - 1], Dedup(FilterOut(qs[..|qs| - 1], e));
      Dedup(FilterOut(qs, e)) == if x in e || x in d then d else d + [x]
  {
    var init, x := qs[..|qs| - 1], qs[|qs| - 1];
    var f := FilterOut(init, e);
    FilterOutHas(init, e, x);
    DedupHas(f, x);
    if x in e {
      assert FilterOut(qs, e) == f + [] == f;
    } else {
      assert FilterOut(qs, e) == f + [x];
      assert (f + [x])[..|f|] == f;
    }
  }

  /**
   * `addPaths($qs, false)`: the new paths follow the existing ones, each once,
   * in the order in which they first occur in `qs`.
   */
  lemma AddPathsAppend(e: seq<string>, qs: seq<string>)
    ensures AddPaths(e, qs, false) == e + Dedup(FilterOut(qs, e))
  {
    AppendEachIs(e, qs);
  }

  /**
   * `addPaths($qs, true)`: the new paths precede the existing ones, each once.
   * Because the input is reversed before prepending, a path that `qs` repeats
   * takes the position of its LAST occurrence.
   */
  lemma AddPathsPrepend(e: seq<string>, qs: seq<string>)
    ensures AddPaths(e, qs, true) == Reverse(Dedup(Reverse(FilterOut(qs, e)))) + e
  {
    PrependEachIs(e, Reverse(qs));
    FilterOutReverse(qs, e);
  }

  /**
   * For an input without repetitions, prepending puts the new paths in front
   * in their own relative order, and appending puts them behind in that order.
   */
  lemma AddPathsDistinct(e: seq<string>, qs: seq<string>)
    requires NoDuplicates(qs)
    ensures AddPaths(e, qs, true) == FilterOut(qs, e) + e
    ensures AddPaths(e, qs, false) == e + FilterOut(qs, e)
  {
    var f := FilterOut(qs, e);
    FilterOutMembers(qs, e);
    ReverseReverse(f);
    ReverseDistinct(f);
    DedupOfDistinct(Reverse(f));
    DedupOfDistinct(f);
    AddPathsPrepend(e, qs);
    AddPathsAppend(e, qs);
  }

  /**
   * `replacePaths($qs)` clears the list and then calls `addPaths($qs)` once per
   * element of `qs`; the first call leaves `Dedup(qs)`, which every later call
   * keeps as it is.
   */
  lemma ReplaceStep(qs: seq<string>)
    ensures AddPaths([], qs, false) == Dedup(qs)
    ensures AddPaths(Dedup(qs), qs, false) == Dedup(qs)
  {
    AddPathsAppend([], qs);
    FilterOutNone(qs, []);
    AddPathsAppend(Dedup(qs), qs);
    DedupMembers(qs);
    FilterOutAll(qs, Dedup(qs));
    assert Dedup(qs) + [] == Dedup(qs);
  }

  // ---------------------------------------------------------------------
  // What `removePath` computes

  /** The index of the first occurrence of `p`, `|s|` when there is none. */
  function IndexOf(s: seq<string>, p: string): (k: nat)
    ensures k <= |s|
    ensures k < |s| ==> s[k] == p
    ensures forall i :: 0 <= i < k ==> s[i] != p
    ensures k == |s| <==> p !in s
    decreases |s|
  {
    if s == [] then 0 else if s[0] == p then 0 else 1 + IndexOf(s[1..], p)
  }

  lemma FilterOutSplit(s: seq<string>, k: nat, e: seq<string>)
    requires k <= |s|
    ensures FilterOut(s, e) == FilterOut(s[..k], e) + FilterOut(s[k..], e)
  {
    assert s[..k] + s[k..] == s;
    FilterOutConcat(s[..k], s[k..], e);
  }

  lemma FilterOutOne(p: string)
    ensures FilterOut([p], [p]) == []
  {
    assert [p][..0] == [];
  }

  /**
   * Deleting the (single) occurrence of `p` from a list without repetitions
   * leaves the other elements, in their order, and nothing equal to `p`.
   */
  lemma RemoveAt(s: seq<string>, p: string)
    requires NoDuplicates(s)
    ensures var k := IndexOf(s, p);
      (if k < |s| then s[..k] + s[k + 1..] else s) == FilterOut(s, [p])
  {
    var k := IndexOf(s, p);
    if k < |s| {
      var a, b := s[..k], s[k + 1..];
      assert p !in b by {
        forall j | 0 <= j < |b| ensures b[j] != p {
          assert b[j] == s[k + 1 + j];
        }
      }
      var t := s[k..];
      assert t[..1] == [p] && t[1..] == b;
      FilterOutSplit(s, k, [p]);
      FilterOutSplit(t, 1, [p]);
      FilterOutOne(p);
      FilterOutNone(a, [p]);
      FilterOutNone(b, [p]);
      calc {
        FilterOut(s, [p]);
        FilterOut(a, [p]) + FilterOut(t, [p]);
        a + (FilterOut([p], [p]) + FilterOut(b, [p]));
        a + ([] + b);
        { assert [] + b == b; }
        a + b;
      }
    } else {
      FilterOutNone(s, [p]);
    }
  }

  /** What is left after `removePath($p)`: every other path, and not `p`. */
  lemma RemoveMembers(s: seq<string>, p: string)
    requires NoDuplicates(s)
    ensures p !in FilterOut(s, [p]) && NoDuplicates(FilterOut(s, [p]))
    ensures forall q :: q in FilterOut(s, [p]) <==> q in s && q != p
  {
    FilterOutMembers(s, [p]);
  }
}
