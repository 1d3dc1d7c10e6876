/** Stable sorting by a total preorder, and the order of strings. */
module Sorting {

  /** Reflexive, transitive and total: what a comparator must be for a sort to make sense. */
  ghost predicate TotalPreorder<T(!new)>(le: (T, T) -> bool) {
    (forall x, y :: le(x, y) || le(y, x)) &&
    (forall x, y, z :: le(x, y) && le(y, z) ==> le(x, z))
  }

  ghost predicate SortedBy<T>(s: seq<T>, le: (T, T) -> bool) {
    forall i, j :: 0 <= i < j < |s| ==> le(s[i], s[j])
  }

  /** No two members of `s` tie. */
  ghost predicate NoTies<T>(s: seq<T>, le: (T, T) -> bool) {
    forall x, y :: x in s && y in s && le(x, y) && le(y, x) ==> x == y
  }

  function Insert<T>(x: T, s: seq<T>, le: (T, T) -> bool): (r: seq<T>)
    ensures |r| == |s| + 1
  {
    if s == [] || le(x, s[0]) then [x] + s else [s[0]] + Insert(x, s[1..], le)
  }

  function Sort<T>(s: seq<T>, le: (T, T) -> bool): (r: seq<T>)
    ensures |r| == |s|
  {
    if s == [] then [] else Insert(s[0], Sort(s[1..], le), le)
  }

  lemma {:induction false} InsertPermutes<T>(x: T, s: seq<T>, le: (T, T) -> bool)
    ensures multiset(Insert(x, s, le)) == multiset{x} + multiset(s)
  {
    if s != [] && !le(x, s[0]) {
      InsertPermutes(x, s[1..], le);
      assert s == [s[0]] + s[1..];
    }
  }

  lemma {:induction false} InsertSorts<T(!new)>(x: T, s: seq<T>, le: (T, T) -> bool)
    requires TotalPreorder(le) && SortedBy(s, le)
    ensures SortedBy(Insert(x, s, le), le)
  {
    if s != [] && !le(x, s[0]) {
      InsertSorts(x, s[1..], le);
      InsertMembers(x, s[1..], le);
      var rest := Insert(x, s[1..], le);
      forall k | 0 <= k < |rest| ensures le(s[0], rest[k]) {
        assert rest[k] in rest && le(s[0], x);
      }
      SortedCons(s[0], Insert(x, s[1..], le), le);
    } else {
      forall k | 0 <= k < |s| ensures le(x, s[k]) {
        if k > 0 {
          assert le(s[0], s[k]);
        }
      }
      SortedCons(x, s, le);
    }
  }

  lemma InsertMembers<T>(x: T, s: seq<T>, le: (T, T) -> bool)
    ensures forall y :: y in Insert(x, s, le) ==> y == x || y in s
  {
    var r := Insert(x, s, le);
    InsertPermutes(x, s, le);
    forall y | y in r ensures y == x || y in s {
      assert y in multiset(r);
    }
  }

  lemma SortedCons<T>(x: T, s: seq<T>, le: (T, T) -> bool)
    requires SortedBy(s, le) && forall k :: 0 <= k < |s| ==> le(x, s[k])
    ensures SortedBy([x] + s, le)
  {
  }

  lemma {:induction false} SortPermutes<T>(s: seq<T>, le: (T, T) -> bool)
    ensures multiset(Sort(s, le)) == multiset(s)
  {
    if s != [] {
      SortPermutes(s[1..], le);
      InsertPermutes(s[0], Sort(s[1..], le), le);
      assert s == [s[0]] + s[1..];
    }
  }

  lemma {:induction false} SortSorts<T(!new)>(s: seq<T>, le: (T, T) -> bool)
    requires TotalPreorder(le)
    ensures SortedBy(Sort(s, le), le)
  {
    if s != [] {
      SortSorts(s[1..], le);
      InsertSorts(s[0], Sort(s[1..], le), le);
    }
  }

  lemma SameMembers<T>(s: seq<T>, t: seq<T>)
    requires multiset(s) == multiset(t)
    ensures |s| == |t| && forall x :: x in s <==> x in t
  {
    assert |multiset(s)| == |s| && |multiset(t)| == |t|;
    forall x ensures x in s <==> x in t {
      assert x in s <==> x in multiset(s);
    }
  }

  lemma TailMembers<T>(s: seq<T>)
    requires s != []
    ensures multiset(s[1..]) == multiset(s) - multiset{s[0]}
  {
    assert s == [s[0]] + s[1..];
  }

  lemma SameHead<T>(s: seq<T>, t: seq<T>, le: (T, T) -> bool)
    requires multiset(s) == multiset(t) && SortedBy(s, le) && SortedBy(t, le) && NoTies(s, le) && s != []
    ensures t != [] && s[0] == t[0]
  {
    SameMembers(s, t);
    assert s[0] in t && t[0] in s;
    var i :| 0 <= i < |t| && t[i] == s[0];
    var j :| 0 <= j < |s| && s[j] == t[0];
  }

  lemma TailSorted<T>(s: seq<T>, le: (T, T) -> bool)
    requires s != [] && SortedBy(s, le)
    ensures SortedBy(s[1..], le) && (NoTies(s, le) ==> NoTies(s[1..], le))
  {
  }

  /** Without ties, a collection has one sorted arrangement. */
  lemma {:induction false} SortedUnique<T>(s: seq<T>, t: seq<T>, le: (T, T) -> bool)
    requires multiset(s) == multiset(t) && SortedBy(s, le) && SortedBy(t, le) && NoTies(s, le)
    ensures s == t
  {
    hide SortedBy, NoTies;
    if s == [] {
      SameMembers(s, t);
    } else {
      SameHead(s, t, le);
      SameTails(s, t);
      TailSorted(s, le);
      TailSorted(t, le);
      SortedUnique(s[1..], t[1..], le);
      SameFromHead(s, t);
    }
  }

  lemma SameTails<T>(s: seq<T>, t: seq<T>)
    requires s != [] && t != [] && s[0] == t[0] && multiset(s) == multiset(t)
    ensures multiset(s[1..]) == multiset(t[1..])
  {
    TailMembers(s);
    TailMembers(t);
  }

  lemma SameFromHead<T>(s: seq<T>, t: seq<T>)
    requires s != [] && t != [] && s[0] == t[0] && s[1..] == t[1..]
    ensures s == t
  {
    assert s == [s[0]] + s[1..] && t == [t[0]] + t[1..];
  }

  /** Sorting forgets the order the items came in. */
  lemma SortOfPermutation<T(!new)>(s: seq<T>, t: seq<T>, le: (T, T) -> bool)
    requires TotalPreorder(le) && multiset(s) == multiset(t) && NoTies(s, le)
    ensures Sort(s, le) == Sort(t, le)
  {
    SortPermutes(s, le);
    SortPermutes(t, le);
    SortSorts(s, le);
    SortSorts(t, le);
    SameMembers(s, Sort(s, le));
    SortedUnique(Sort(s, le), Sort(t, le), le);
  }

  // ----- The order of strings

  /** Lexicographic order by character. */
  predicate StringLe(x: string, y: string) {
    x == [] || (y != [] && (x[0] < y[0] || (x[0] == y[0] && StringLe(x[1..], y[1..]))))
  }

  /** A first place where the two differ, and there `x` has the lower character. */
  predicate LowerAt(x: string, y: string, n: nat) {
    n < |x| && n < |y| && x[..n] == y[..n] && x[n] < y[n]
  }

  /** A text goes before another when it begins it, or has the lower character where they first differ. */
  lemma {:induction false} StringLeIs(x: string, y: string)
    ensures StringLe(x, y) <==> (|x| <= |y| && y[..|x|] == x) || exists n: nat :: LowerAt(x, y, n)
  {
    if x != [] && y != [] {
      StringLeIs(x[1..], y[1..]);
      assert x[0] < y[0] ==> LowerAt(x, y, 0);
      assert forall n: nat :: LowerAt(x, y, n) && n > 0 ==> x[0] == y[0] by {
        forall n: nat | LowerAt(x, y, n) && n > 0 ensures x[0] == y[0] {
          assert x[..n][0] == y[..n][0];
        }
      }
      if x[0] == y[0] {
        BeginsLater(x, y);
        forall n: nat ensures LowerAt(x[1..], y[1..], n) <==> LowerAt(x, y, n + 1) {
          LowerLater(x, y, n);
        }
        if n: nat :| LowerAt(x, y, n) {
          assert n > 0 && LowerAt(x[1..], y[1..], n - 1);
        }
      }
    }
  }

  lemma BeginsLater(x: string, y: string)
    requires x != [] && y != [] && x[0] == y[0]
    ensures |x| <= |y| && y[..|x|] == x <==> |x[1..]| <= |y[1..]| && y[1..][..|x[1..]|] == x[1..]
  {
    assert x == [x[0]] + x[1..];
    if |x| <= |y| {
      assert y[..|x|] == [y[0]] + y[1..][..|x[1..]|];
    }
  }

  lemma LowerLater(x: string, y: string, n: nat)
    requires x != [] && y != [] && x[0] == y[0]
    ensures LowerAt(x[1..], y[1..], n) <==> LowerAt(x, y, n + 1)
  {
    if n + 1 < |x| && n + 1 < |y| {
      assert x[..n + 1] == [x[0]] + x[1..][..n] && y[..n + 1] == [y[0]] + y[1..][..n];
    }
  }

  lemma {:induction false} StringLeTotal(x: string, y: string)
    ensures StringLe(x, y) || StringLe(y, x)
    ensures StringLe(x, y) && StringLe(y, x) ==> x == y
  {
    if x != [] && y != [] {
      StringLeTotal(x[1..], y[1..]);
      assert x == [x[0]] + x[1..] && y == [y[0]] + y[1..];
    }
  }

  lemma {:induction false} StringLeTransitive(x: string, y: string, z: string)
    requires StringLe(x, y) && StringLe(y, z)
    ensures StringLe(x, z)
  {
    if x != [] && x[0] == y[0] && y[0] == z[0] {
      StringLeTransitive(x[1..], y[1..], z[1..]);
    }
  }

  lemma StringOrder()
    ensures TotalPreorder(StringLe)
    ensures forall x, y :: StringLe(x, y) && StringLe(y, x) ==> x == y
  {
    forall x, y
      ensures StringLe(x, y) || StringLe(y, x)
      ensures StringLe(x, y) && StringLe(y, x) ==> x == y
    {
      StringLeTotal(x, y);
    }
    forall x, y, z | StringLe(x, y) && StringLe(y, z) ensures StringLe(x, z) {
      StringLeTransitive(x, y, z);
    }
  }
}
