/** Python's ordering of byte strings and `sorted(set(xs))`, which the compile
    command uses to print each group of user flags (blade3/cc.py `compileTool`). */
module StrOrder {

  /** Lexicographic "less than" on strings: a proper prefix comes first. */
  predicate Lt(a: string, b: string) {
    if |a| == 0 then |b| > 0
    else if |b| == 0 then false
    else if a[0] == b[0] then Lt(a[1..], b[1..])
    else a[0] < b[0]
  }

  lemma {:induction false} LtIrreflexive(a: string)
    ensures !Lt(a, a)
  {
    if |a| > 0 {
      LtIrreflexive(a[1..]);
    }
  }

  lemma {:induction false} LtTransitive(a: string, b: string, c: string)
    requires Lt(a, b) && Lt(b, c)
    ensures Lt(a, c)
  {
    if |a| > 0 && |b| > 0 && |c| > 0 && a[0] == b[0] && b[0] == c[0] {
      LtTransitive(a[1..], b[1..], c[1..]);
    }
  }

  lemma {:induction false} LtTotal(a: string, b: string)
    requires a != b
    ensures Lt(a, b) || Lt(b, a)
  {
    if |a| > 0 && |b| > 0 && a[0] == b[0] {
      assert a == [a[0]] + a[1..] && b == [b[0]] + b[1..];
      LtTotal(a[1..], b[1..]);
    }
  }

  lemma {:induction false} LtAsymmetric(a: string, b: string)
    requires Lt(a, b)
    ensures !Lt(b, a)
  {
    if |a| > 0 && |b| > 0 && a[0] == b[0] {
      LtAsymmetric(a[1..], b[1..]);
    }
  }

  predicate StrictlySorted(s: seq<string>) {
    forall i, j :: 0 <= i < j < |s| ==> Lt(s[i], s[j])
  }

  /** Insert `x` into a strictly sorted list, dropping it when already present. */
  function Insert(x: string, s: seq<string>): (r: seq<string>)
    requires StrictlySorted(s)
    ensures StrictlySorted(r)
    ensures forall y :: y in r <==> y == x || y in s
  {
    if |s| == 0 then [x]
    else if x == s[0] then s
    else if Lt(x, s[0]) then
      assert forall j :: 0 <= j < |s| ==> Lt(x, s[j]) by {
        forall j | 0 <= j < |s| ensures Lt(x, s[j]) {
          if j > 0 { LtTransitive(x, s[0], s[j]); }
        }
      }
      [x] + s
    else
      LtTotal(x, s[0]);
      var rest := Insert(x, s[1..]);
      assert forall y :: y in rest ==> Lt(s[0], y);
      [s[0]] + rest
  }

  /** `sorted(set(s))`: the strictly increasing list of the distinct values of `s`. */
  function SortedSet(s: seq<string>): (r: seq<string>)
    ensures StrictlySorted(r)
    ensures forall y :: y in r <==> y in s
    ensures |r| <= |s|
  {
    if |s| == 0 then []
    else
      var rest := SortedSet(s[..|s| - 1]);
      assert s == s[..|s| - 1] + [s[|s| - 1]];
      InsertLength(s[|s| - 1], rest);
      Insert(s[|s| - 1], rest)
  }

  lemma {:induction false} InsertLength(x: string, s: seq<string>)
    requires StrictlySorted(s)
    ensures |Insert(x, s)| <= |s| + 1
  {
    if |s| > 0 && x != s[0] && !Lt(x, s[0]) {
      InsertLength(x, s[1..]);
    }
  }

  /** The first element of a strictly sorted list is below every other element. */
  lemma HeadIsLeast(s: seq<string>, x: string)
    requires StrictlySorted(s) && x in s
    ensures x == s[0] || Lt(s[0], x)
    ensures x in s[1..] <==> x != s[0]
  {
    var j :| 0 <= j < |s| && s[j] == x;
    if j > 0 {
      assert s[1..][j - 1] == x;
      LtIrreflexive(x);
    }
    if x == s[0] {
      LtIrreflexive(x);
    }
  }

  /** Elements after the head are strictly above it. */
  lemma TailMember(s: seq<string>, y: string)
    requires StrictlySorted(s) && |s| > 0 && y in s[1..]
    ensures Lt(s[0], y) && y != s[0]
  {
    var j :| 0 <= j < |s[1..]| && s[1..][j] == y;
    assert s[j + 1] == y;
    LtIrreflexive(y);
  }

  /** A set of strings has exactly one strictly sorted listing, so the result
      does not depend on how the sort is carried out. */
  lemma {:induction false} SortedListingUnique(a: seq<string>, b: seq<string>)
    requires StrictlySorted(a) && StrictlySorted(b)
    requires forall y :: y in a <==> y in b
    ensures a == b
  {
    assert |a| > 0 ==> a[0] in b;
    assert |b| > 0 ==> b[0] in a;
    if |a| > 0 && |b| > 0 {
      HeadIsLeast(a, b[0]);
      HeadIsLeast(b, a[0]);
      if a[0] != b[0] {
        LtAsymmetric(a[0], b[0]);
      }
      forall y | y in a[1..] ensures y in b[1..] {
        HeadIsLeast(b, y);
        TailMember(a, y);
      }
      forall y | y in b[1..] ensures y in a[1..] {
        HeadIsLeast(a, y);
        TailMember(b, y);
      }
      SortedListingUnique(a[1..], b[1..]);
      assert a == [a[0]] + a[1..] && b == [b[0]] + b[1..];
    }
  }
}
