/** The disk-backed txid list and its write buffer, against a plain sequence. */
module TxidList {
  import opened Hashes
  import opened Bytes
  import opened Db

  const PREFIX := 'x' as int as Byte

  /** Indices are int64; the list can grow to one short of 2^63 entries. */
  const MAX_LEN := 0x8000_0000_0000_0000

  /** 'x', then the index, eight bytes big-endian. */
  function MakeKey(index: nat): (key: Data)
    ensures |key| == 9 && key[0] == PREFIX
  {
    [PREFIX] + BE(index, 8)
  }

  /** Byte by byte: 120, then the index with the highest byte first. */
  lemma KeyBytes(index: nat, j: nat)
    requires j < 8
    ensures |MakeKey(index)| == 9 && MakeKey(index)[0] == 120 && MakeKey(index)[1 + j] == (index / Pow256(7 - j)) % 256
  {
    BEAt(index, 8, j);
  }

  lemma KeyOrder(i: nat, j: nat)
    requires i < U64 && j < U64
    ensures Less(MakeKey(i), MakeKey(j)) <==> i < j
    ensures MakeKey(i) == MakeKey(j) <==> i == j
  {
    Widths();
    BigEndianOrder(i, j, 8);
    LessPrefix([PREFIX], BE(i, 8), BE(j, 8));
    assert MakeKey(i)[1..] == BE(i, 8) && MakeKey(j)[1..] == BE(j, 8);
  }

  // ---- What the database holds ---------------------------------------------------------------------

  predicate Ours(k: Data) {
    [PREFIX] <= k
  }

  /** The list's keys are exactly those of indices 0 to |s| - 1, and their values the hashes of s. */
  ghost predicate Holds(kv: map<Data, Data>, s: seq<Hash>) {
    && |s| < MAX_LEN
    && (forall i :: 0 <= i < |s| ==> MakeKey(i) in kv && kv[MakeKey(i)] == s[i].bytes)
    && (forall k :: k in kv && Ours(k) ==> exists i :: 0 <= i < |s| && k == MakeKey(i))
  }

  lemma KeysOurs(i: nat)
    ensures Ours(MakeKey(i))
  {}

  lemma HoldsAppend(kv: map<Data, Data>, s: seq<Hash>, h: Hash)
    requires Holds(kv, s) && |s| + 1 < MAX_LEN
    ensures Holds(kv[MakeKey(|s|) := h.bytes], s + [h])
  {
    hide MakeKey, Ours;
    var after := kv[MakeKey(|s|) := h.bytes];
    forall i | 0 <= i < |s|
      ensures MakeKey(i) != MakeKey(|s|)
    {
      KeyOrder(i, |s|);
    }
    forall k | k in after && Ours(k)
      ensures exists i :: 0 <= i < |s| + 1 && k == MakeKey(i)
    {
      if k != MakeKey(|s|) {
        var i :| 0 <= i < |s| && k == MakeKey(i);
      }
    }
  }

  lemma HoldsSet(kv: map<Data, Data>, s: seq<Hash>, index: nat, h: Hash)
    requires Holds(kv, s) && index < |s|
    ensures Holds(kv[MakeKey(index) := h.bytes], s[index := h])
  {
    hide MakeKey, Ours;
    forall i | 0 <= i < |s| && i != index
      ensures MakeKey(i) != MakeKey(index)
    {
      KeyOrder(i, index);
    }
  }

  /** Writing keys of other stores leaves the list as it is. */
  lemma HoldsOther(kv: map<Data, Data>, s: seq<Hash>, key: Data, val: Data)
    requires Holds(kv, s) && !Ours(key)
    ensures Holds(kv[key := val], s)
  {
    forall i | 0 <= i < |s|
      ensures MakeKey(i) != key
    {
      KeysOurs(i);
    }
  }

  // ---- Scans ---------------------------------------------------------------------------------------

  function Range(start: nat, end: nat): (keys: seq<Data>)
    requires start <= end
    ensures |keys| == end - start
  {
    seq(end - start, i requires 0 <= i < end - start => MakeKey(start + i))
  }

  lemma RangeMember(kv: map<Data, Data>, s: seq<Hash>, start: nat, k: Data)
    requires Holds(kv, s) && start <= |s|
    ensures k in Range(start, |s|) <==> k in kv && Ours(k) && !Less(k, MakeKey(start))
  {
    hide MakeKey, Less;
    var range := Range(start, |s|);
    if k in range {
      var i :| 0 <= i < |range| && range[i] == k;
      KeyOrder(start + i, start);
      KeysOurs(start + i);
    }
    if k in kv && Ours(k) && !Less(k, MakeKey(start)) {
      var i: nat :| i < |s| && k == MakeKey(i);
      KeyOrder(i, start);
      assert range[i - start] == k;
    }
  }

  /** An iterator from index start visits the remaining indices in numeric order. */
  lemma ScanRange(kv: map<Data, Data>, s: seq<Hash>, start: nat, keys: seq<Data>)
    requires Holds(kv, s) && start <= |s| && ScanOf(kv, [PREFIX], MakeKey(start), keys)
    ensures keys == Range(start, |s|)
  {
    var range := Range(start, |s|);
    forall i, j | 0 <= i < j < |range|
      ensures Less(range[i], range[j])
    {
      KeyOrder(start + i, start + j);
    }
    forall k
      ensures k in range <==> k in keys
    {
      RangeMember(kv, s, start, k);
    }
    AscendingUnique(keys, range);
  }

  /** The i-th key visited from `start` is before the end key exactly when its index is before the end. */
  lemma Visited(kv: map<Data, Data>, s: seq<Hash>, start: nat, keys: seq<Data>, i: nat, end: nat)
    requires Holds(kv, s) && start <= end <= |s| && keys == Range(start, |s|) && i < |keys|
    ensures |keys| == |s| - start && keys[i] in kv && kv[keys[i]] == s[start + i].bytes
    ensures Less(keys[i], MakeKey(end)) <==> start + i < end
  {
    hide MakeKey, Less;
    assert keys[i] == MakeKey(start + i);
    KeyOrder(start + i, end);
  }

  lemma SliceSnoc(s: seq<Hash>, lo: nat, at: nat)
    requires lo <= at < |s|
    ensures s[lo..at + 1] == s[lo..at] + [s[at]] && Hash(s[at].bytes) == s[at]
  {}

  lemma AfterPrefix(k: Data)
    requires Ours(k)
    ensures !Less(k, [PREFIX])
  {
    assert k[0] == PREFIX;
    assert !Less(k[1..], []);
    assert [PREFIX][1..] == [];
  }

  lemma ScanAll(kv: map<Data, Data>, s: seq<Hash>, keys: seq<Data>)
    requires Holds(kv, s) && ScanOf(kv, [PREFIX], [PREFIX], keys)
    ensures keys == Range(0, |s|)
  {
    var range := Range(0, |s|);
    forall i, j | 0 <= i < j < |range|
      ensures Less(range[i], range[j])
    {
      KeyOrder(i, j);
    }
    forall k
      ensures k in range <==> k in keys
    {
      if k in range {
        var i :| 0 <= i < |s| && k == MakeKey(i);
        KeysOurs(i);
        AfterPrefix(k);
      }
      if k in keys {
        var i: nat :| i < |s| && k == MakeKey(i);
        assert range[i] == k;
      }
    }
    AscendingUnique(keys, range);
  }

  // ---- The list on disk ----------------------------------------------------------------------------

  /** The hashes of s at the indices from start up to, but not at, end: whatever of that range there is. */
  function Between(s: seq<Hash>, start: int, end: int): seq<Hash> {
    if s == [] then []
    else
      var last := |s| - 1;
      Between(s[..last], start, end) + (if start <= last < end then [s[last]] else [])
  }

  /** The range with both ends clamped. */
  ghost function Clamped(s: seq<Hash>, start: int, end: int): seq<Hash> {
    var lo, hi := if start < 0 then 0 else start, if end > |s| then |s| else end;
    if lo >= hi then [] else s[lo..hi]
  }

  lemma ClampedSnoc(init: seq<Hash>, last: Hash, start: int, end: int)
    ensures start <= |init| < end ==> Clamped(init + [last], start, end) == Clamped(init, start, end) + [last]
    ensures !(start <= |init| < end) ==> Clamped(init + [last], start, end) == Clamped(init, start, end)
  {
    var s, lo := init + [last], if start < 0 then 0 else start;
    if start <= |init| < end {
      assert s[lo..] == init[lo..] + [last];
      assert init[|init|..] == [];
    } else if lo < end <= |init| {
      assert s[lo..end] == init[lo..end];
    }
  }

  lemma {:induction false} BetweenClamped(s: seq<Hash>, start: int, end: int)
    ensures Between(s, start, end) == Clamped(s, start, end)
  {
    if s != [] {
      var init, last := s[..|s| - 1], s[|s| - 1];
      assert s == init + [last];
      BetweenClamped(init, start, end);
      ClampedSnoc(init, last, start, end);
      hide Clamped;
    }
  }

  /** The half-open range, clamped at both ends; an empty or inverted range gives nothing. */
  lemma BetweenIs(s: seq<Hash>, start: int, end: int)
    ensures 0 <= start <= end <= |s| ==> Between(s, start, end) == s[start..end]
    ensures start < 0 ==> Between(s, start, end) == Between(s, 0, end)
    ensures end > |s| ==> Between(s, start, end) == Between(s, start, |s|)
    ensures start >= end ==> Between(s, start, end) == []
  {
    BetweenClamped(s, start, end);
    BetweenClamped(s, 0, end);
    BetweenClamped(s, start, |s|);
    hide Between;
  }

  class TxidList {
    const db: DB
    var len: nat
    /** The hashes on disk, in index order. */
    ghost var contents: seq<Hash>

    ghost predicate Valid()
      reads this, db
    {
      len == |contents| && Holds(db.kv, contents)
    }

    /** Opening counts the keys under the prefix. `s` is what an earlier list left in the database. */
    constructor (db: DB, ghost s: seq<Hash>)
      requires Holds(db.kv, s)
      ensures Valid() && contents == s && this.db == db
    {
      var keys := db.Scan([PREFIX], [PREFIX]);
      ScanAll(db.kv, s, keys);
      this.db := db;
      len := |keys|;
      contents := s;
    }

    method Append(h: Hash)
      requires Valid() && |contents| + 1 < MAX_LEN
      modifies this, db
      ensures Valid() && contents == old(contents) + [h]
    {
      HoldsAppend(db.kv, contents, h);
      hide Holds;
      db.Set(MakeKey(len), h.bytes);
      len := len + 1;
      contents := contents + [h];
    }

    method Get(index: int) returns (r: Option<Hash>)
      requires Valid()
      ensures r == if 0 <= index < |contents| then Some(contents[index]) else None
    {
      if index >= len || index < 0 {
        return None;
      }
      var val := db.Get(MakeKey(index));
      assert MakeKey(index) in db.kv && db.kv[MakeKey(index)] == contents[index].bytes;
      r := Some(Hash(val.value));
    }

    method Set(index: int, h: Hash) returns (ok: bool)
      requires Valid()
      modifies this`contents, db
      ensures Valid() && ok == (0 <= index < |old(contents)|)
      ensures contents == if ok then old(contents)[index := h] else old(contents)
    {
      if index >= len || index < 0 {
        return false;
      }
      HoldsSet(db.kv, contents, index, h);
      hide Holds;
      db.Set(MakeKey(index), h.bytes);
      contents := contents[index := h];
      ok := true;
    }

    /** The iterator's loop: hashes from index lo until the end key. */
    method ReadUntil(keys: seq<Data>, ghost lo: nat, hi: nat) returns (result: seq<Hash>)
      requires Valid() && lo <= hi <= |contents| && keys == Range(lo, |contents|)
      ensures result == contents[lo..hi]
    {
      var endKey := MakeKey(hi);
      assert Holds(db.kv, contents);
      hide *;
      result := [];
      var i := 0;
      while i < |keys|
        invariant 0 <= i <= hi - lo && result == contents[lo..lo + i]
      {
        Visited(db.kv, contents, lo, keys, i, hi);
        var c := CompareKeys(keys[i], endKey);
        if c >= 0 {
          break;
        }
        var val := db.Get(keys[i]);
        SliceSnoc(contents, lo, lo + i);
        result := result + [Hash(val.value)];
        i := i + 1;
      }
    }

    method Slice(start: int, end: int) returns (result: seq<Hash>)
      requires Valid()
      ensures result == Between(contents, start, end)
      ensures 0 <= start <= end <= |contents| ==> result == contents[start..end]
    {
      BetweenClamped(contents, start, end);
      hide Between;
      var lo := if start < 0 then 0 else start;
      var hi := if end > len then len else end;
      if lo >= hi {
        return [];
      }
      var keys := db.Scan([PREFIX], MakeKey(lo));
      ScanRange(db.kv, contents, lo, keys);
      result := ReadUntil(keys, lo, hi);
    }

    method Len() returns (n: nat)
      requires Valid()
      ensures n == |contents|
    {
      n := len;
    }
  }

  // ---- The write buffer ----------------------------------------------------------------------------

  lemma FlushStep(kv: map<Data, Data>, s: seq<Hash>, buf: seq<Hash>, i: nat)
    requires i < |buf| && Holds(kv, s + buf[..i]) && |s| + |buf| < MAX_LEN
    ensures Holds(kv[MakeKey(|s| + i) := buf[i].bytes], s + buf[..i + 1])
  {
    hide Holds, MakeKey;
    assert s + buf[..i + 1] == (s + buf[..i]) + [buf[i]];
    HoldsAppend(kv, s + buf[..i], buf[i]);
  }

  class BufferedTxidList {
    const inner: TxidList
    var buf: seq<Hash>
    const bufSize: nat

    /** Disk, then buffer: the sequence the list stands for. */
    ghost function Contents(): seq<Hash>
      reads this, inner
    {
      inner.contents + buf
    }

    /** Between calls the buffer is never full. */
    ghost predicate Valid()
      reads this, inner, inner.db
    {
      inner.Valid() && |buf| < bufSize && |Contents()| < MAX_LEN
    }

    constructor (db: DB, bufSize: int, ghost s: seq<Hash>)
      requires Holds(db.kv, s)
      ensures Valid() && Contents() == s && buf == [] && fresh(inner) && inner.db == db
      ensures this.bufSize == if bufSize <= 0 then 1000 else bufSize
    {
      this.bufSize := if bufSize <= 0 then 1000 else bufSize;
      inner := new TxidList(db, s);
      buf := [];
    }

    method FlushLocked()
      requires inner.Valid() && 0 < bufSize && |Contents()| < MAX_LEN
      modifies this, inner, inner.db
      ensures Valid() && buf == [] && Contents() == old(Contents())
    {
      hide Holds, MakeKey;
      if |buf| == 0 {
        return;
      }
      var baseIdx := inner.len;
      assert inner.contents + buf[..0] == inner.contents;
      for i := 0 to |buf|
        invariant buf == old(buf) && inner.contents == old(inner.contents) && inner.len == baseIdx == |inner.contents|
        invariant Holds(inner.db.kv, inner.contents + buf[..i])
      {
        FlushStep(inner.db.kv, inner.contents, buf, i);
        inner.db.Set(MakeKey(baseIdx + i), buf[i].bytes);
      }
      assert buf[..|buf|] == buf;
      inner.len := inner.len + |buf|;
      inner.contents := inner.contents + buf;
      buf := [];
      assert Contents() == old(Contents());
    }

    method Append(h: Hash)
      requires Valid() && |Contents()| + 1 < MAX_LEN
      modifies this, inner, inner.db
      ensures Valid() && Contents() == old(Contents()) + [h]
    {
      hide Holds;
      buf := buf + [h];
      assert Contents() == old(Contents()) + [h];
      if |buf| >= bufSize {
        FlushLocked();
      }
    }

    method Flush()
      requires Valid()
      modifies this, inner, inner.db
      ensures Valid() && buf == [] && Contents() == old(Contents())
    {
      FlushLocked();
    }

    method Get(index: int) returns (r: Option<Hash>)
      requires Valid()
      ensures r == if 0 <= index < |Contents()| then Some(Contents()[index]) else None
    {
      var diskLen := inner.len;
      if index >= diskLen && index < diskLen + |buf| {
        return Some(buf[index - diskLen]);
      }
      r := inner.Get(index);
    }

    method Set(index: int, h: Hash) returns (ok: bool)
      requires Valid()
      modifies this, inner, inner.db
      ensures Valid() && ok == (0 <= index < |old(Contents())|)
      ensures Contents() == if ok then old(Contents())[index := h] else old(Contents())
    {
      hide Holds;
      var diskLen := inner.len;
      if index >= diskLen && index < diskLen + |buf| {
        buf := buf[index - diskLen := h];
        assert Contents() == old(Contents())[index := h];
        return true;
      }
      ok := inner.Set(index, h);
      assert ok ==> Contents() == old(Contents())[index := h];
    }

    /** Flushes first, so that the scan sees every entry. */
    method Slice(start: int, end: int) returns (result: seq<Hash>)
      requires Valid()
      modifies this, inner, inner.db
      ensures Valid() && Contents() == old(Contents()) && result == Between(Contents(), start, end)
      ensures 0 <= start <= end <= |Contents()| ==> result == Contents()[start..end]
    {
      FlushLocked();
      result := inner.Slice(start, end);
      assert Contents() == inner.contents;
    }

    method Len() returns (n: nat)
      requires Valid()
      ensures n == |Contents()|
    {
      n := inner.len + |buf|;
    }
  }

  /** Reopening after a flush recovers the whole list, its length included. */
  method Reopen(list: BufferedTxidList, bufSize: int) returns (again: BufferedTxidList)
    requires list.Valid()
    modifies list, list.inner, list.inner.db
    ensures fresh(again) && again.Valid() && again.Contents() == old(list.Contents())
  {
    list.Flush();
    assert list.Contents() == list.inner.contents;
    again := new BufferedTxidList(list.inner.db, bufSize, list.inner.contents);
  }

  // ---- Any run of calls ----------------------------------------------------------------------------

  datatype Call = Append(h: Hash) | Set(index: int, h: Hash) | Get(index: int) | Slice(start: int, end: int) | Flush | Len

  datatype Answer = Done | Accepted(ok: bool) | Found(r: Option<Hash>) | Part(s: seq<Hash>) | Count(n: nat)

  /** What a plain sequence does with one call. */
  function Plain(s: seq<Hash>, c: Call): (seq<Hash>, Answer) {
    match c
    case Append(h) => (s + [h], Done)
    case Set(i, h) => if 0 <= i < |s| then (s[i := h], Accepted(true)) else (s, Accepted(false))
    case Get(i) => (s, Found(if 0 <= i < |s| then Some(s[i]) else None))
    case Slice(lo, hi) => (s, Part(Between(s, lo, hi)))
    case Flush => (s, Done)
    case Len => (s, Count(|s|))
  }

  /** The sequence after a run of calls, and their answers. */
  function PlainRun(s: seq<Hash>, calls: seq<Call>): (seq<Hash>, seq<Answer>) {
    if calls == [] then (s, [])
    else
      var (before, answers) := PlainRun(s, calls[..|calls| - 1]);
      var (after, answer) := Plain(before, calls[|calls| - 1]);
      (after, answers + [answer])
  }

  lemma {:induction false} PlainRunGrowth(s: seq<Hash>, calls: seq<Call>)
    ensures |PlainRun(s, calls).0| <= |s| + |calls|
  {
    if calls != [] { PlainRunGrowth(s, calls[..|calls| - 1]); }
  }

  method Perform(list: BufferedTxidList, c: Call) returns (answer: Answer)
    requires list.Valid() && |list.Contents()| + 1 < MAX_LEN
    modifies list, list.inner, list.inner.db
    ensures list.Valid() && (list.Contents(), answer) == Plain(old(list.Contents()), c)
  {
    match c
    case Append(h) =>
      list.Append(h);
      answer := Done;
    case Set(i, h) =>
      var ok := list.Set(i, h);
      answer := Accepted(ok);
    case Get(i) =>
      var r := list.Get(i);
      answer := Found(r);
    case Slice(lo, hi) =>
      var s := list.Slice(lo, hi);
      answer := Part(s);
    case Flush =>
      list.Flush();
      answer := Done;
    case Len =>
      var n := list.Len();
      answer := Count(n);
  }

  /** Over any run of calls the buffered list answers as a plain sequence does, and ends as it does. */
  method PerformAll(list: BufferedTxidList, calls: seq<Call>) returns (answers: seq<Answer>)
    requires list.Valid() && |list.Contents()| + |calls| + 1 < MAX_LEN
    modifies list, list.inner, list.inner.db
    ensures list.Valid() && (list.Contents(), answers) == PlainRun(old(list.Contents()), calls)
  {
    hide Plain;
    answers := [];
    ghost var s := list.Contents();
    for i := 0 to |calls|
      invariant list.Valid() && (list.Contents(), answers) == PlainRun(s, calls[..i])
    {
      PlainRunGrowth(s, calls[..i]);
      assert calls[..i + 1][..i] == calls[..i];
      var answer := Perform(list, calls[i]);
      answers := answers + [answer];
    }
    assert calls[..|calls|] == calls;
  }
}
