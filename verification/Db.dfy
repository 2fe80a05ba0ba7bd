/** The key-value database as the stores use it: a map from byte keys to bytes, scanned in byte order. */
module Db {
  import opened Hashes
  import opened Bytes
  import opened TokenIndex

  // ---- Byte order ----------------------------------------------------------------------------------

  predicate Less(a: Data, b: Data) {
    b != [] && (a == [] || a[0] < b[0] || (a[0] == b[0] && Less(a[1..], b[1..])))
  }

  lemma {:induction false} LessIrreflexive(a: Data)
    ensures !Less(a, a)
  {
    if a != [] { LessIrreflexive(a[1..]); }
  }

  lemma {:induction false} LessTransitive(a: Data, b: Data, c: Data)
    requires Less(a, b) && Less(b, c)
    ensures Less(a, c)
  {
    if a != [] && a[0] == b[0] == c[0] { LessTransitive(a[1..], b[1..], c[1..]); }
  }

  lemma {:induction false} LessTotal(a: Data, b: Data)
    ensures Less(a, b) || a == b || Less(b, a)
  {
    if a != [] && b != [] && a[0] == b[0] {
      LessTotal(a[1..], b[1..]);
      assert a == [a[0]] + a[1..] && b == [b[0]] + b[1..];
    }
  }

  lemma LessAsymmetric(a: Data, b: Data)
    requires Less(a, b)
    ensures !Less(b, a) && a != b
  {
    LessIrreflexive(a);
    if Less(b, a) { LessTransitive(a, b, a); }
  }

  lemma {:induction false} LessPrefix(p: Data, a: Data, b: Data)
    ensures Less(p + a, p + b) <==> Less(a, b)
  {
    if p == [] {
      assert p + a == a && p + b == b;
    } else {
      assert (p + a)[1..] == p[1..] + a && (p + b)[1..] == p[1..] + b;
      LessPrefix(p[1..], a, b);
    }
  }

  lemma {:induction false} LessSnoc(a: Data, x: Byte, b: Data, y: Byte)
    requires |a| == |b|
    ensures Less(a + [x], b + [y]) <==> Less(a, b) || (a == b && x < y)
  {
    if a == [] {
      assert a + [x] == [x] && b + [y] == [y];
    } else {
      assert (a + [x])[1..] == a[1..] + [x] && (b + [y])[1..] == b[1..] + [y];
      LessSnoc(a[1..], x, b[1..], y);
      assert a == [a[0]] + a[1..] && b == [b[0]] + b[1..];
    }
  }

  /** a and b agree on the first n bytes, and there a ends first or has the lower byte. */
  predicate PartsAt(a: Data, b: Data, n: nat) {
    n <= |a| && n < |b| && a[..n] == b[..n] && (n == |a| || a[n] < b[n])
  }

  lemma PartsEarly(a: Data, b: Data, n: nat)
    requires a != [] && b != [] && a[0] != b[0]
    ensures PartsAt(a, b, n) ==> n == 0
  {
    if 0 < n <= |a| && n <= |b| { assert a[..n][0] == a[0] && b[..n][0] == b[0]; }
  }

  lemma PartsLater(a: Data, b: Data, n: nat)
    requires a != [] && b != [] && a[0] == b[0]
    ensures PartsAt(a[1..], b[1..], n) <==> PartsAt(a, b, n + 1)
  {
    if n < |a| && n < |b| {
      assert a[..n + 1] == [a[0]] + a[1..][..n] && b[..n + 1] == [b[0]] + b[1..][..n];
      assert a[1..][..n] == a[..n + 1][1..] && b[1..][..n] == b[..n + 1][1..];
    }
  }

  /** Byte order: decided at the first place where the keys part. */
  lemma {:induction false} LessIff(a: Data, b: Data)
    ensures Less(a, b) <==> exists n: nat :: PartsAt(a, b, n)
  {
    if a == [] || b == [] {
      if b != [] { assert PartsAt(a, b, 0); }
    } else if a[0] != b[0] {
      if a[0] < b[0] { assert PartsAt(a, b, 0); }
      if n: nat :| PartsAt(a, b, n) { PartsEarly(a, b, n); }
    } else {
      LessIff(a[1..], b[1..]);
      if n: nat :| PartsAt(a[1..], b[1..], n) { PartsLater(a, b, n); }
      if n: nat :| PartsAt(a, b, n) {
        assert n > 0;
        PartsLater(a, b, n - 1);
      }
    }
  }

  /** Big-endian keys sort as their numbers do. */
  lemma {:induction false} BigEndianOrder(a: nat, b: nat, n: nat)
    requires a < Pow256(n) && b < Pow256(n)
    ensures Less(BE(a, n), BE(b, n)) <==> a < b
    ensures BE(a, n) == BE(b, n) <==> a == b
  {
    if n > 0 {
      BigEndianOrder(a / 256, b / 256, n - 1);
      LessSnoc(BE(a / 256, n - 1), a % 256, BE(b / 256, n - 1), b % 256);
      var s, t := BE(a, n), BE(b, n);
      assert s[..n - 1] == BE(a / 256, n - 1) && s[n - 1] == a % 256;
      assert t[..n - 1] == BE(b / 256, n - 1) && t[n - 1] == b % 256;
      assert a == 256 * (a / 256) + a % 256 && b == 256 * (b / 256) + b % 256;
    }
  }

  /** compareKeys: the sign says which key comes first. */
  method CompareKeys(a: Data, b: Data) returns (r: int)
    ensures r == (if Less(a, b) then -1 else if a == b then 0 else 1)
    ensures r == 1 ==> Less(b, a)
  {
    LessTotal(a, b);
    var minLen := if |b| < |a| then |b| else |a|;
    for i := 0 to minLen
      invariant a[..i] == b[..i]
    {
      assert a == a[..i] + a[i..] && b == b[..i] + b[i..];
      LessPrefix(a[..i], a[i..], b[i..]);
      LessPrefix(a[..i], b[i..], a[i..]);
      if a[i] < b[i] {
        LessAsymmetric(a, b);
        return -1;
      }
      if a[i] > b[i] {
        LessAsymmetric(b, a);
        return 1;
      }
    }
    assert a == a[..minLen] + a[minLen..] && b == b[..minLen] + b[minLen..];
    LessPrefix(a[..minLen], a[minLen..], b[minLen..]);
    if |a| < |b| {
      LessAsymmetric(a, b);
      return -1;
    }
    if |a| > |b| {
      LessPrefix(a[..minLen], b[minLen..], a[minLen..]);
      LessAsymmetric(b, a);
      return 1;
    }
    LessIrreflexive(a);
    r := 0;
  }

  // ---- Ordered scans -------------------------------------------------------------------------------

  ghost predicate AscendingKeys(keys: seq<Data>) {
    forall i, j :: 0 <= i < j < |keys| ==> Less(keys[i], keys[j])
  }

  /** keys are those under prefix at or after `from`, in byte order. */
  ghost predicate ScanOf(kv: map<Data, Data>, prefix: Data, from: Data, keys: seq<Data>) {
    AscendingKeys(keys) && forall k :: k in keys <==> k in kv && prefix <= k && !Less(k, from)
  }

  lemma AscendingTail(keys: seq<Data>)
    requires AscendingKeys(keys) && keys != []
    ensures AscendingKeys(keys[1..])
    ensures forall k :: k in keys[1..] <==> k in keys && k != keys[0]
  {
    forall k
      ensures k in keys[1..] <==> k in keys && k != keys[0]
    {
      if k in keys && k != keys[0] {
        var i :| 0 <= i < |keys| && keys[i] == k;
        assert keys[1..][i - 1] == k;
      }
      LessIrreflexive(keys[0]);
    }
  }

  lemma FirstIsLeast(a: seq<Data>, b: seq<Data>)
    requires AscendingKeys(a) && AscendingKeys(b) && a != [] && b != []
    requires forall k :: k in a <==> k in b
    ensures a[0] == b[0]
  {
    assert a[0] in b && b[0] in a;
    var i :| 0 <= i < |a| && a[i] == b[0];
    var j :| 0 <= j < |b| && b[j] == a[0];
    if i > 0 && j > 0 { LessAsymmetric(a[0], b[0]); }
  }

  lemma SomeKey(b: seq<Data>)
    requires b != []
    ensures exists k :: k in b
  {
    assert b[0] in b;
  }

  /** A set of keys has one ascending listing. */
  lemma {:induction false} AscendingUnique(a: seq<Data>, b: seq<Data>)
    requires AscendingKeys(a) && AscendingKeys(b) && forall k :: k in a <==> k in b
    ensures a == b
  {
    if a == [] {
      if b != [] { SomeKey(b); }
    } else {
      assert a[0] in a && b != [];
      FirstIsLeast(a, b);
      AscendingTail(a);
      AscendingTail(b);
      AscendingUnique(a[1..], b[1..]);
      assert a == [a[0]] + a[1..] && b == [b[0]] + b[1..];
    }
  }

  lemma InsertedAscending(keys: seq<Data>, key: Data, at: nat)
    requires AscendingKeys(keys) && key !in keys && at <= |keys|
    requires forall j :: 0 <= j < at ==> Less(keys[j], key)
    requires at < |keys| ==> !Less(keys[at], key)
    ensures AscendingKeys(keys[..at] + [key] + keys[at..])
  {
    forall j | at <= j < |keys|
      ensures Less(key, keys[j])
    {
      LessTotal(key, keys[at]);
      assert key != keys[at];
      if j > at { LessTransitive(key, keys[at], keys[j]); }
    }
    var r := keys[..at] + [key] + keys[at..];
    assert forall i :: 0 <= i < at ==> r[i] == keys[i];
    assert forall i :: at < i < |r| ==> r[i] == keys[i - 1];
  }

  method InsertKey(keys: seq<Data>, key: Data) returns (r: seq<Data>)
    requires AscendingKeys(keys) && key !in keys
    ensures AscendingKeys(r) && forall k :: k in r <==> k in keys || k == key
  {
    var i := 0;
    while i < |keys| && Less(keys[i], key)
      invariant 0 <= i <= |keys|
      invariant forall j :: 0 <= j < i ==> Less(keys[j], key)
    {
      i := i + 1;
    }
    r := keys[..i] + [key] + keys[i..];
    InsertedAscending(keys, key, i);
    assert keys == keys[..i] + keys[i..];
  }

  /** Every set of keys has an ascending listing. */
  lemma {:induction false} KeysSorted(s: set<Data>) returns (keys: seq<Data>)
    ensures AscendingKeys(keys) && forall k :: k in keys <==> k in s
    decreases |s|
  {
    keys := [];
    if s != {} {
      var key :| key in s;
      var rest := KeysSorted(s - {key});
      var at := 0;
      while at < |rest| && Less(rest[at], key)
        invariant 0 <= at <= |rest|
        invariant forall j :: 0 <= j < at ==> Less(rest[j], key)
      {
        at := at + 1;
      }
      InsertedAscending(rest, key, at);
      keys := rest[..at] + [key] + rest[at..];
      assert rest == rest[..at] + rest[at..];
      assert forall k :: k in keys <==> k in rest || k == key;
    }
  }

  lemma ScanExists(kv: map<Data, Data>, prefix: Data, from: Data)
    ensures exists keys :: ScanOf(kv, prefix, from, keys)
  {
    var keys := KeysSorted(set k | k in kv && prefix <= k && !Less(k, from));
    assert ScanOf(kv, prefix, from, keys);
  }

  lemma ScanUnique(kv: map<Data, Data>, prefix: Data, from: Data, a: seq<Data>, b: seq<Data>)
    requires ScanOf(kv, prefix, from, a) && ScanOf(kv, prefix, from, b)
    ensures a == b
  {
    AscendingUnique(a, b);
  }

  class DB {
    var kv: map<Data, Data>

    constructor ()
      ensures kv == map[]
    {
      kv := map[];
    }

    method Set(key: Data, val: Data)
      modifies this
      ensures kv == old(kv)[key := val]
    {
      kv := kv[key := val];
    }

    method Get(key: Data) returns (r: Option<Data>)
      ensures r == if key in kv then Some(kv[key]) else None
    {
      r := if key in kv then Some(kv[key]) else None;
    }

    /** The keys an iterator over the prefix visits from a seek to `from`. */
    method Scan(prefix: Data, from: Data) returns (keys: seq<Data>)
      ensures ScanOf(kv, prefix, from, keys)
    {
      hide Less;
      var all := Keys(kv);
      keys := [];
      for i := 0 to |all|
        invariant AscendingKeys(keys)
        invariant forall k :: k in keys <==> k in all[..i] && prefix <= k && !Less(k, from)
      {
        assert all[..i + 1] == all[..i] + [all[i]];
        if prefix <= all[i] && !Less(all[i], from) {
          assert all[i] !in all[..i];
          keys := InsertKey(keys, all[i]);
        }
      }
      assert all[..|all|] == all;
    }
  }
}
