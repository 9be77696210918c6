/** `simplifyDepList` (blade3/cc.py): remove duplicates from a dependency list,
    keeping every value at its LAST occurrence. A two-pass static linker only
    resolves symbols against archives that come later on the command line, so an
    archive has to stay after every consumer that needs it. */
module Dedup {

  predicate NoDup<T(==)>(s: seq<T>) {
    forall i, j :: 0 <= i < j < |s| ==> s[i] != s[j]
  }

  /** Reference definition: a position is kept exactly when no equal value follows it. */
  function KeepLast<T(==,!new)>(s: seq<T>): (r: seq<T>)
    ensures |r| <= |s|
    ensures forall x :: x in r <==> x in s
    ensures NoDup(r)
  {
    if |s| == 0 then []
    else if s[0] in s[1..] then KeepLast(s[1..])
    else [s[0]] + KeepLast(s[1..])
  }

  function Reverse<T>(s: seq<T>): (r: seq<T>)
    ensures |r| == |s|
    ensures forall k :: 0 <= k < |s| ==> r[k] == s[|s| - 1 - k]
  {
    if |s| == 0 then [] else Reverse(s[1..]) + [s[0]]
  }

  /** The algorithm as the source writes it: reverse a copy, keep the first
      occurrence of each value while scanning it, and reverse the kept values. */
  method SimplifyDepList<T(==,!new)>(depList: seq<T>) returns (res: seq<T>)
    ensures res == KeepLast(depList)
    ensures NoDup(res) && |res| <= |depList|
    ensures forall x :: x in res <==> x in depList
  {
    var n := |depList|;
    var cp := Reverse(depList);
    var r: set<T> := {};
    var kept: seq<T> := [];
    var i := 0;
    while i < n
      invariant 0 <= i <= n
      invariant Reverse(kept) == KeepLast(depList[n - i..])
      invariant forall x :: x in r <==> x in depList[n - i..]
    {
      var a := cp[i];
      assert a == depList[n - i - 1];
      assert depList[n - i - 1..] == [a] + depList[n - i..];
      if a !in r {
        ghost var before := kept;
        kept := kept + [a];
        assert Reverse(kept) == [a] + Reverse(before);
      }
      r := r + {a};
      i := i + 1;
    }
    assert depList[n - i..] == depList;
    res := Reverse(kept);
  }

  /** Index of the last occurrence of `x`, or -1. */
  function LastIdx<T(==,!new)>(s: seq<T>, x: T): (r: int)
    ensures -1 <= r < |s|
    ensures r >= 0 ==> s[r] == x
    ensures forall k :: r < k < |s| ==> s[k] != x
    ensures x in s <==> r >= 0
  {
    if |s| == 0 then -1
    else if s[|s| - 1] == x then |s| - 1
    else
      assert s == s[..|s| - 1] + [s[|s| - 1]];
      LastIdx(s[..|s| - 1], x)
  }

  /** `u` and `v` both occur in `s`, and the last `u` comes before the last `v`. */
  predicate LastBefore<T(==,!new)>(u: T, v: T, s: seq<T>) {
    u in s && v in s && LastIdx(s, u) < LastIdx(s, v)
  }

  lemma LastIdxCons<T(!new)>(a: T, t: seq<T>, x: T)
    ensures LastIdx([a] + t, x) == if x in t then 1 + LastIdx(t, x) else if x == a then 0 else -1
  {
    LastIdxConcat([a], t, x);
    assert [a][..0] == [];
  }

  lemma LastIdxConcat<T(!new)>(s: seq<T>, t: seq<T>, x: T)
    ensures LastIdx(s + t, x) == if x in t then |s| + LastIdx(t, x) else LastIdx(s, x)
  {
    var st := s + t;
    if x in t {
      var k := LastIdx(t, x);
      assert st[|s| + k] == x;
      assert forall j :: |s| + k < j < |st| ==> st[j] == t[j - |s|];
    } else {
      assert forall j :: |s| <= j < |st| ==> st[j] == t[j - |s|];
      if x in s {
        var k := LastIdx(s, x);
        assert st[k] == x;
      }
    }
  }

  /** On a list without duplicates the last occurrence is the only one. */
  lemma NoDupIndex<T(!new)>(s: seq<T>, k: int)
    requires NoDup(s) && 0 <= k < |s|
    ensures LastIdx(s, s[k]) == k
  {
  }

  /** KeepLast orders the kept values as their last occurrences are ordered in the input. */
  lemma {:induction false} KeepLastPreservesOrder<T(!new)>(s: seq<T>, u: T, v: T)
    ensures LastBefore(u, v, KeepLast(s)) <==> LastBefore(u, v, s)
    decreases |s|
  {
    if |s| > 0 {
      var a, t := s[0], s[1..];
      assert s == [a] + t;
      LastIdxCons(a, t, u);
      LastIdxCons(a, t, v);
      KeepLastPreservesOrder(t, u, v);
      if a !in t {
        var k := KeepLast(t);
        assert KeepLast(s) == [a] + k;
        LastIdxCons(a, k, u);
        LastIdxCons(a, k, v);
      }
    }
  }

  lemma {:induction false} KeepLastOfNoDup<T(!new)>(s: seq<T>)
    requires NoDup(s)
    ensures KeepLast(s) == s
    decreases |s|
  {
    if |s| > 0 {
      assert s[0] !in s[1..];
      KeepLastOfNoDup(s[1..]);
    }
  }

  /** Applying the deduplication twice is the same as applying it once. */
  lemma KeepLastIdempotent<T(!new)>(s: seq<T>)
    ensures KeepLast(KeepLast(s)) == KeepLast(s)
  {
    KeepLastOfNoDup(KeepLast(s));
  }

  /** A worked example of `simplifyDepList` (blade3/cc.py:23-36): A B C A D B
      becomes C A D B (one letter per library). */
  lemma KeepLastExample()
    ensures KeepLast("ABCADB") == "CADB"
  {
    KeepLastOfNoDup("CADB");
    assert "ABCADB"[1..] == "BCADB" && "BCADB"[2] == 'A';
    assert "BCADB"[1..] == "CADB" && "CADB"[3] == 'B';
  }

  /** Facts about the last occurrence in a concatenation, used for link order. */
  lemma LastBeforeConcat<T(!new)>(s: seq<T>, t: seq<T>, u: T, v: T)
    ensures u in t ==> (LastBefore(u, v, s + t) <==> LastBefore(u, v, t))
    ensures u !in t && u in s && v in t ==> LastBefore(u, v, s + t)
  {
    LastIdxConcat(s, t, u);
    LastIdxConcat(s, t, v);
  }
}
