/** sort.Slice by a numeric key: the result is ordered, and the order of equal keys is left open. */
module Sorting {
  ghost predicate SortedBy<T>(key: T -> nat, s: seq<T>) {
    forall i, j :: 0 <= i < j < |s| ==> key(s[i]) <= key(s[j])
  }

  /** Insert x before the first larger element. */
  method Insert<T>(key: T -> nat, s: seq<T>, x: T) returns (r: seq<T>)
    requires SortedBy(key, s)
    ensures SortedBy(key, r) && multiset(r) == multiset(s) + multiset{x}
  {
    var i := 0;
    while i < |s| && key(s[i]) <= key(x)
      invariant i <= |s|
      invariant forall j :: 0 <= j < i ==> key(s[j]) <= key(x)
    {
      i := i + 1;
    }
    r := s[..i] + [x] + s[i..];
    assert s == s[..i] + s[i..];
  }

  method Sort<T>(key: T -> nat, s: seq<T>) returns (r: seq<T>)
    ensures SortedBy(key, r) && multiset(r) == multiset(s)
  {
    r := [];
    for i := 0 to |s|
      invariant SortedBy(key, r) && multiset(r) == multiset(s[..i])
    {
      assert s[..i + 1] == s[..i] + [s[i]];
      r := Insert(key, r, s[i]);
    }
    assert s[..|s|] == s;
  }

  // ---- Sequences without repeats -----------------------------------------------------------------

  ghost predicate NoRepeats<T(!new)>(s: seq<T>) {
    forall i, j :: 0 <= i < j < |s| ==> s[i] != s[j]
  }

  lemma NoRepeatsAppend<T(!new)>(a: seq<T>, b: seq<T>)
    requires NoRepeats(a) && NoRepeats(b) && forall e :: e in a ==> e !in b
    ensures NoRepeats(a + b)
  {
    forall i, j | 0 <= i < j < |a + b|
      ensures (a + b)[i] != (a + b)[j]
    {
      if i < |a| { assert (a + b)[i] in a; }
    }
  }

  lemma {:induction false} RepeatCount<T(!new)>(s: seq<T>, e: T)
    requires NoRepeats(s)
    ensures multiset(s)[e] == if e in s then 1 else 0
  {
    if s != [] {
      var rest, last := s[..|s| - 1], s[|s| - 1];
      assert s == rest + [last];
      RepeatCount(rest, e);
    }
  }

  lemma CountTwice<T(!new)>(s: seq<T>, i: nat, j: nat)
    requires i < j < |s| && s[i] == s[j]
    ensures multiset(s)[s[i]] >= 2
  {
    var a, b := s[..j], s[j..];
    assert s == a + b;
    assert a[i] in a && b[0] in b;
  }

  lemma PermutationNoRepeats<T(!new)>(a: seq<T>, b: seq<T>)
    requires NoRepeats(a) && multiset(a) == multiset(b)
    ensures NoRepeats(b)
  {
    forall i, j | 0 <= i < j < |b|
      ensures b[i] != b[j]
    {
      RepeatCount(a, b[i]);
      if b[i] == b[j] { CountTwice(b, i, j); }
    }
  }

  lemma PermutationMember<T>(a: seq<T>, b: seq<T>, e: T)
    requires multiset(a) == multiset(b)
    ensures e in a <==> e in b
  {
    assert e in a <==> e in multiset(a);
    assert e in b <==> e in multiset(b);
  }

  // ---- Lists of distinct numbers below a bound -----------------------------------------------------

  function Below(n: nat): (r: set<nat>)
    ensures |r| == n && forall x: nat :: x in r <==> x < n
  {
    if n == 0 then {} else Below(n - 1) + {n - 1}
  }

  lemma {:induction false} MembersSize(list: seq<nat>)
    requires NoRepeats(list)
    ensures |set i | 0 <= i < |list| :: list[i]| == |list|
  {
    if list != [] {
      var init, last := list[..|list| - 1], list[|list| - 1];
      MembersSize(init);
      assert (set i | 0 <= i < |list| :: list[i]) == (set i | 0 <= i < |init| :: init[i]) + {last};
    }
  }

  lemma {:induction false} SubsetSize(a: set<nat>, b: set<nat>)
    requires a <= b
    ensures |a| <= |b|
    decreases a
  {
    if a != {} {
      var x :| x in a;
      SubsetSize(a - {x}, b - {x});
    }
  }

  lemma BelowBound(list: seq<nat>, n: nat)
    requires NoRepeats(list) && forall i :: 0 <= i < |list| ==> list[i] < n
    ensures |list| <= n
  {
    MembersSize(list);
    SubsetSize(set i | 0 <= i < |list| :: list[i], Below(n));
  }

  // ---- Concatenation ---------------------------------------------------------------------------------

  lemma ConcatAssoc<T>(a: seq<T>, b: seq<T>, c: seq<T>)
    ensures (a + b) + c == a + (b + c)
  {}
}
