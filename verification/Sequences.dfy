/** Order-preserving filters over sequences: what the erase loops and std::remove compute. */
module Sequences {

  predicate Distinct<T(==)>(s: seq<T>) {
    forall i, j :: 0 <= i < j < |s| ==> s[i] != s[j]
  }

  function Elements<T(==)>(s: seq<T>): set<T> {
    set x | x in s
  }

  /** s with the entry at i erased. */
  function Dropped<T>(s: seq<T>, i: nat): seq<T>
    requires i < |s|
  {
    s[..i] + s[i + 1..]
  }

  lemma DroppedAt<T>(s: seq<T>, i: nat)
    requires i < |s|
    ensures |Dropped(s, i)| == |s| - 1
    ensures forall k :: 0 <= k < |s| - 1 ==> Dropped(s, i)[k] == s[if k < i then k else k + 1]
    ensures forall x :: x in Dropped(s, i) ==> x in s
    ensures forall x :: x in s && x != s[i] ==> x in Dropped(s, i)
  {
    forall x | x in s && x != s[i] ensures x in Dropped(s, i) {
      var k :| 0 <= k < |s| && s[k] == x;
      assert Dropped(s, i)[if k < i then k else k - 1] == x;
    }
  }

  lemma DistinctDropped<T>(s: seq<T>, i: nat)
    requires i < |s| && Distinct(s)
    ensures Distinct(Dropped(s, i)) && s[i] !in Dropped(s, i)
  {
    var t := Dropped(s, i);
    forall k | 0 <= k < |t| ensures t[k] == s[if k < i then k else k + 1] {
    }
  }

  lemma DistinctConcat<T>(s: seq<T>, t: seq<T>)
    requires Distinct(s) && Distinct(t) && forall x :: x in s ==> x !in t
    ensures Distinct(s + t)
  {
    forall i, j | 0 <= i < j < |s + t| ensures (s + t)[i] != (s + t)[j] {
      if i < |s| <= j {
        assert s[i] in s && t[j - |s|] in t;
      }
    }
  }

  /** Every finite set can be listed without duplicates. */
  lemma {:induction false} Listing<T(!new)>(vs: set<T>) returns (s: seq<T>)
    ensures Distinct(s) && forall x :: x in s <==> x in vs
  {
    if vs == {} {
      s := [];
    } else {
      var v :| v in vs;
      var t := Listing(vs - {v});
      s := [v] + t;
      DistinctConcat([v], t);
    }
  }

  lemma {:induction false} DistinctSize<T>(s: seq<T>, vs: set<T>)
    requires Distinct(s) && forall x :: x in s ==> x in vs
    ensures |s| <= |vs|
  {
    if |s| == 0 {
    } else {
      DistinctSize(s[1..], vs - {s[0]});
    }
  }

  function Keep<T>(s: seq<T>, p: T -> bool): (r: seq<T>) {
    if s == [] then []
    else (if p(s[0]) then [s[0]] else []) + Keep(s[1..], p)
  }

  lemma {:induction false} KeepMembers<T(!new)>(s: seq<T>, p: T -> bool)
    ensures forall x :: x in Keep(s, p) <==> x in s && p(x)
  {
    if s == [] {
    } else {
      KeepMembers(s[1..], p);
    }
  }

  /** x stands somewhere before y. */
  predicate Before<T(==)>(s: seq<T>, x: T, y: T) {
    exists k, l :: 0 <= k < l < |s| && s[k] == x && s[l] == y
  }

  /** What is kept stands in the order in which it stood. */
  lemma {:induction false} KeepInOrder<T(!new)>(s: seq<T>, p: T -> bool, i: nat, j: nat)
    requires i < j < |Keep(s, p)|
    ensures Before(s, Keep(s, p)[i], Keep(s, p)[j])
  {
    var rest := Keep(s[1..], p);
    if !p(s[0]) {
      KeepInOrder(s[1..], p, i, j);
      var k, l :| 0 <= k < l < |s| - 1 && s[1..][k] == rest[i] && s[1..][l] == rest[j];
      assert s[k + 1] == rest[i] && s[l + 1] == rest[j];
    } else if i > 0 {
      KeepInOrder(s[1..], p, i - 1, j - 1);
      var k, l :| 0 <= k < l < |s| - 1 && s[1..][k] == rest[i - 1] && s[1..][l] == rest[j - 1];
      assert s[k + 1] == rest[i - 1] && s[l + 1] == rest[j - 1];
    } else {
      KeepMembers(s[1..], p);
      assert rest[j - 1] in s[1..];
      var l :| 0 <= l < |s| - 1 && s[1..][l] == rest[j - 1];
      assert s[l + 1] == rest[j - 1] && 0 < l + 1;
    }
  }

  lemma {:induction false} KeepDistinct<T(!new)>(s: seq<T>, p: T -> bool)
    requires Distinct(s)
    ensures Distinct(Keep(s, p))
  {
    if s == [] {
    } else {
      KeepDistinct(s[1..], p);
      KeepMembers(s[1..], p);
    }
  }

  lemma KeepFirst<T>(x: T, s: seq<T>, p: T -> bool)
    ensures Keep([x] + s, p) == (if p(x) then [x] else []) + Keep(s, p)
  {
    assert ([x] + s)[1..] == s;
  }

  lemma {:induction false} KeepAppend<T>(s: seq<T>, t: seq<T>, p: T -> bool)
    ensures Keep(s + t, p) == Keep(s, p) + Keep(t, p)
  {
    if s == [] {
      assert s + t == t;
    } else {
      assert s + t == [s[0]] + (s[1..] + t);
      KeepAppend(s[1..], t, p);
      KeepFirst(s[0], s[1..] + t, p);
    }
  }

  lemma {:induction false} KeepAll<T(!new)>(s: seq<T>, p: T -> bool)
    requires forall x :: x in s ==> p(x)
    ensures Keep(s, p) == s
  {
    if s == [] {
    } else {
      KeepAll(s[1..], p);
    }
  }

  lemma {:induction false} KeepNone<T(!new)>(s: seq<T>, p: T -> bool)
    requires forall x :: x in s ==> !p(x)
    ensures Keep(s, p) == []
  {
    if s == [] {
    } else {
      KeepNone(s[1..], p);
    }
  }

  lemma {:induction false} KeepSame<T(!new)>(s: seq<T>, p: T -> bool, q: T -> bool)
    requires forall x :: x in s ==> p(x) == q(x)
    ensures Keep(s, p) == Keep(s, q)
  {
    if s == [] {
    } else {
      KeepSame(s[1..], p, q);
    }
  }

  /** Filtering twice is filtering once by the conjunction. */
  lemma {:induction false} KeepTwice<T(!new)>(s: seq<T>, p: T -> bool, q: T -> bool, r: T -> bool)
    requires forall x :: x in s ==> r(x) == (p(x) && q(x))
    ensures Keep(Keep(s, p), q) == Keep(s, r)
  {
    if s == [] {
    } else {
      KeepTwice(s[1..], p, q, r);
      if p(s[0]) {
        assert Keep(s, p)[1..] == Keep(s[1..], p);
      } else {
        assert Keep(s, p) == Keep(s[1..], p);
      }
    }
  }

  lemma {:induction false} KeepShrinks<T(!new)>(s: seq<T>, p: T -> bool)
    ensures |Keep(s, p)| <= |s|
    ensures forall x :: x in s && !p(x) ==> |Keep(s, p)| < |s|
  {
    if s == [] {
    } else {
      KeepShrinks(s[1..], p);
    }
  }

  /** Erasing one element that the filter drops does not change what the filter keeps. */
  lemma {:induction false} KeepErased<T>(s: seq<T>, i: nat, p: T -> bool)
    requires i < |s| && !p(s[i])
    ensures Keep(Dropped(s, i), p) == Keep(s, p)
  {
    if i == 0 {
      assert Dropped(s, 0) == s[1..];
    } else {
      KeepErased(s[1..], i - 1, p);
      assert Dropped(s, i) == [s[0]] + Dropped(s[1..], i - 1);
      KeepFirst(s[0], Dropped(s[1..], i - 1), p);
    }
  }
}
