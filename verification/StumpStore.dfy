/** The stump store in memory and on disk: both answer from the same log of appends. */
module StumpStore {
  import opened Hashes
  import opened Bytes
  import opened Sorting
  import opened Encoding
  import opened Db
  import opened TokenIndex
  import TxidList

  // ---- The log both stores stand for ---------------------------------------------------------------

  type Log = seq<(Hash, Entry)>

  /** The entries appended under a key, in append order. */
  function Listed(log: Log, key: Hash): seq<Entry> {
    if log == [] then []
    else
      var last := log[|log| - 1];
      Listed(log[..|log| - 1], key) + (if last.0 == key then [last.1] else [])
  }

  function Tagged(key: Hash, entries: seq<Entry>): (r: Log)
    ensures |r| == |entries|
  {
    seq(|entries|, i requires 0 <= i < |entries| => (key, entries[i]))
  }

  lemma ListedSnoc(log: Log, key: Hash, e: Entry, other: Hash)
    ensures Listed(log + [(key, e)], other) == if other == key then Listed(log, other) + [e] else Listed(log, other)
  {
    assert (log + [(key, e)])[..|log|] == log;
    assert Listed(log, other) + [] == Listed(log, other);
  }

  lemma TaggedSnoc(log: Log, key: Hash, entries: seq<Entry>, e: Entry)
    ensures log + Tagged(key, entries + [e]) == log + Tagged(key, entries) + [(key, e)]
  {
    assert Tagged(key, entries + [e]) == Tagged(key, entries) + [(key, e)];
    assert log + (Tagged(key, entries) + [(key, e)]) == log + Tagged(key, entries) + [(key, e)];
  }

  lemma NothingTagged(log: Log, key: Hash)
    ensures log + Tagged(key, []) == log
  {}

  lemma {:induction false} ListedTagged(log: Log, key: Hash, entries: seq<Entry>, other: Hash)
    ensures Listed(log + Tagged(key, entries), other) ==
            if other == key then Listed(log, other) + entries else Listed(log, other)
  {
    hide Tagged, Listed;
    if entries == [] {
      NothingTagged(log, key);
      assert Listed(log, other) + entries == Listed(log, other);
    } else {
      var init, last := entries[..|entries| - 1], entries[|entries| - 1];
      assert entries == init + [last];
      ListedTagged(log, key, init, other);
      TaggedSnoc(log, key, init, last);
      ListedSnoc(log + Tagged(key, init), key, last, other);
      ConcatAssoc(Listed(log, other), init, [last]);
    }
  }

  // ---- In memory -----------------------------------------------------------------------------------

  /** A key has a list when something was appended under it, and its list is what was appended. */
  ghost predicate Reflects(entries: map<Hash, seq<Entry>>, log: Log) {
    forall key :: if Listed(log, key) == [] then key !in entries else key in entries && entries[key] == Listed(log, key)
  }

  lemma ReflectsBatch(entries: map<Hash, seq<Entry>>, log: Log, key: Hash, batch: seq<Entry>)
    requires Reflects(entries, log)
    ensures batch == [] ==> Reflects(entries, log + Tagged(key, batch))
    ensures batch != [] ==>
      var list := if key in entries then entries[key] else [];
      Reflects(entries[key := list + batch], log + Tagged(key, batch))
  {
    hide Listed, Tagged;
    var list := if key in entries then entries[key] else [];
    forall other
      ensures Listed(log + Tagged(key, batch), other) == if other == key then Listed(log, other) + batch else Listed(log, other)
    {
      ListedTagged(log, key, batch, other);
    }
    assert list == Listed(log, key);
    if batch == [] { assert list + batch == list; }
  }

  class Store {
    var entries: map<Hash, seq<Entry>>
    ghost var log: Log

    ghost predicate Valid()
      reads this
    {
      Reflects(entries, log)
    }

    constructor ()
      ensures Valid() && log == []
    {
      entries := map[];
      log := [];
    }

    method Append(key: Hash, e: Entry)
      requires Valid()
      modifies this
      ensures Valid() && log == old(log) + [(key, e)]
    {
      ReflectsBatch(entries, log, key, [e]);
      assert Tagged(key, [e]) == [(key, e)];
      hide Listed, Tagged, Reflects;
      var list := if key in entries then entries[key] else [];
      entries := entries[key := list + [e]];
      log := log + [(key, e)];
    }

    method AppendBatch(key: Hash, batch: seq<Entry>)
      requires Valid()
      modifies this
      ensures Valid() && log == old(log) + Tagged(key, batch)
    {
      ReflectsBatch(entries, log, key, batch);
      hide Listed, Tagged, Reflects;
      log := log + Tagged(key, batch);
      if |batch| == 0 {
        return;
      }
      var list := if key in entries then entries[key] else [];
      entries := entries[key := list + batch];
    }

    method Get(key: Hash) returns (r: seq<Entry>)
      requires Valid()
      ensures r == Listed(log, key)
    {
      hide Listed;
      r := if key in entries then entries[key] else [];
    }
  }

  // ---- Database keys -------------------------------------------------------------------------------

  const STUMP_PREFIX := 's' as int as Byte

  function PrefixKey(key: Hash): (k: Data)
    ensures |k| == 33
  {
    [STUMP_PREFIX] + key.bytes
  }

  /** 's', the key, then the sequence number, eight bytes big-endian. */
  function DBKey(key: Hash, seqNo: nat): (k: Data)
    ensures |k| == 41
  {
    PrefixKey(key) + BE(seqNo, 8)
  }

  /** Byte by byte: 115, the key in its own order, then the number with the highest byte first. */
  lemma DBKeyBytes(key: Hash, seqNo: nat, j: nat)
    requires j < 8
    ensures |DBKey(key, seqNo)| == 41 && DBKey(key, seqNo)[0] == 115 && DBKey(key, seqNo)[1..33] == key.bytes
    ensures DBKey(key, seqNo)[33 + j] == (seqNo / Pow256(7 - j)) % 256
  {
    BEAt(seqNo, 8, j);
    hide BE;
    assert DBKey(key, seqNo)[33 + j] == BE(seqNo, 8)[j];
  }

  lemma DBKeyOrder(key: Hash, a: nat, b: nat)
    requires a < U64 && b < U64
    ensures Less(DBKey(key, a), DBKey(key, b)) <==> a < b
  {
    Widths();
    BigEndianOrder(a, b, 8);
    LessPrefix(PrefixKey(key), BE(a, 8), BE(b, 8));
  }

  lemma DBKeyDistinct(key: Hash, a: nat, other: Hash, b: nat)
    requires a < U64 && b < U64
    ensures DBKey(key, a) == DBKey(other, b) <==> key == other && a == b
  {
    Widths();
    BigEndianOrder(a, b, 8);
    var k, l := DBKey(key, a), DBKey(other, b);
    hide BE;
    assert k[1..33] == key.bytes && l[1..33] == other.bytes && k[33..] == BE(a, 8) && l[33..] == BE(b, 8);
  }

  /** Only its own keys lie under a key's prefix. */
  lemma UnderPrefix(key: Hash, other: Hash, seqNo: nat)
    ensures PrefixKey(key) <= DBKey(other, seqNo) <==> key == other
  {
    hide BE;
    assert DBKey(other, seqNo)[..33] == PrefixKey(other);
    assert PrefixKey(key)[1..] == key.bytes && PrefixKey(other)[1..] == other.bytes;
  }

  lemma {:induction false} NotBeforePrefix(p: Data, rest: Data)
    ensures !Less(p + rest, p)
  {
    if p != [] {
      assert (p + rest)[1..] == p[1..] + rest;
      NotBeforePrefix(p[1..], rest);
    }
  }

  // ---- On disk -------------------------------------------------------------------------------------

  predicate Ours(k: Data) {
    [STUMP_PREFIX] <= k
  }

  /** What is stored under each sequence number, by key: one entry a number until a store is reopened. */
  type Slots = seq<map<Hash, Entry>>

  predicate FilledAt(slots: Slots, i: nat, key: Hash) {
    i < |slots| && key in slots[i]
  }

  predicate StoredAt(kv: map<Data, Data>, key: Hash, i: nat, e: Entry) {
    DBKey(key, i + 1) in kv && kv[DBKey(key, i + 1)] == EntryBytes(e)
  }

  /** The stump keys are exactly the filled slots, numbered from 1, and hold their entries. */
  ghost predicate Stores(kv: map<Data, Data>, slots: Slots) {
    && |slots| < U64
    && (forall i: nat, key :: FilledAt(slots, i, key) ==> StoredAt(kv, key, i, slots[i][key]))
    && (forall k :: k in kv && Ours(k) ==> exists i: nat, key :: FilledAt(slots, i, key) && k == DBKey(key, i + 1))
  }

  function WriteSlot(slots: Slots, n: nat, key: Hash, e: Entry): (r: Slots)
    requires n <= |slots|
    ensures |r| == if n == |slots| then n + 1 else |slots|
  {
    if n == |slots| then slots + [map[key := e]] else slots[n := slots[n][key := e]]
  }

  lemma WriteSlotFills(slots: Slots, n: nat, key: Hash, e: Entry, i: nat, other: Hash)
    requires n <= |slots|
    ensures FilledAt(WriteSlot(slots, n, key, e), i, other) <==> FilledAt(slots, i, other) || (i == n && other == key)
    ensures i == n && other == key ==> WriteSlot(slots, n, key, e)[i][other] == e
    ensures FilledAt(slots, i, other) && !(i == n && other == key) ==>
      WriteSlot(slots, n, key, e)[i][other] == slots[i][other]
  {}

  lemma StumpKey(key: Hash, seqNo: nat)
    ensures Ours(DBKey(key, seqNo))
  {}

  lemma FilledFacts(slots: Slots, i: nat, key: Hash)
    requires FilledAt(slots, i, key)
    ensures i < |slots| && key in slots[i]
  {}

  lemma StoresWrite(kv: map<Data, Data>, slots: Slots, n: nat, key: Hash, e: Entry)
    requires Stores(kv, slots) && n <= |slots| && n + 1 < U64
    ensures Stores(kv[DBKey(key, n + 1) := EntryBytes(e)], WriteSlot(slots, n, key, e))
  {
    hide DBKey, Ours, EntryBytes, FilledAt, WriteSlot;
    var after, more := kv[DBKey(key, n + 1) := EntryBytes(e)], WriteSlot(slots, n, key, e);
    forall i: nat, other | FilledAt(more, i, other)
      ensures i < |more| && other in more[i] && StoredAt(after, other, i, more[i][other])
    {
      FilledFacts(more, i, other);
      WriteSlotFills(slots, n, key, e, i, other);
      if FilledAt(slots, i, other) { FilledFacts(slots, i, other); }
      DBKeyDistinct(other, i + 1, key, n + 1);
    }
    forall k | k in after && Ours(k)
      ensures exists i: nat, other :: FilledAt(more, i, other) && k == DBKey(other, i + 1)
    {
      if k == DBKey(key, n + 1) {
        WriteSlotFills(slots, n, key, e, n, key);
        assert FilledAt(more, n, key);
      } else {
        var i: nat, other :| FilledAt(slots, i, other) && k == DBKey(other, i + 1);
        WriteSlotFills(slots, n, key, e, i, other);
        assert FilledAt(more, i, other);
      }
    }
  }

  // ---- A run of writes -----------------------------------------------------------------------------

  /** The database after the entries of added are written under the numbers that follow n. */
  function WriteAll(kv: map<Data, Data>, added: Log, n: nat): map<Data, Data> {
    if added == [] then kv
    else
      var last := added[|added| - 1];
      WriteAll(kv, added[..|added| - 1], n)[DBKey(last.0, n + |added|) := EntryBytes(last.1)]
  }

  predicate Written(kv: map<Data, Data>, x: (Hash, Entry), number: nat) {
    DBKey(x.0, number) in kv && kv[DBKey(x.0, number)] == EntryBytes(x.1)
  }

  lemma WrittenBefore(kv: map<Data, Data>, x: (Hash, Entry), i: nat, y: (Hash, Entry), j: nat)
    requires Written(kv, x, i) && i != j && i < U64 && j < U64
    ensures Written(kv[DBKey(y.0, j) := EntryBytes(y.1)], x, i)
  {
    DBKeyDistinct(x.0, i, y.0, j);
    hide DBKey, EntryBytes;
  }

  /** Entry m of the run is under its key and number n + m + 1. */
  lemma {:induction false} WriteAllHolds(kv: map<Data, Data>, added: Log, n: nat, m: nat)
    requires n + |added| < U64 && m < |added|
    ensures Written(WriteAll(kv, added, n), added[m], n + m + 1)
  {
    hide DBKey, EntryBytes;
    var init, last := added[..|added| - 1], |added| - 1;
    if m < last {
      WriteAllHolds(kv, init, n, m);
      WrittenBefore(WriteAll(kv, init, n), added[m], n + m + 1, added[last], n + |added|);
    }
  }

  /** Nothing else is touched. */
  lemma {:induction false} WriteAllElsewhere(kv: map<Data, Data>, added: Log, n: nat, k: Data)
    requires forall m :: 0 <= m < |added| ==> k != DBKey(added[m].0, n + m + 1)
    ensures k in WriteAll(kv, added, n) <==> k in kv
    ensures k in kv ==> WriteAll(kv, added, n)[k] == kv[k]
  {
    hide DBKey, EntryBytes;
    if added != [] {
      var last := |added| - 1;
      WriteAllElsewhere(kv, added[..last], n, k);
      assert k != DBKey(added[last].0, n + last + 1);
    }
  }

  lemma WriteAllSnoc(kv: map<Data, Data>, added: Log, n: nat, key: Hash, e: Entry)
    ensures WriteAll(kv, added + [(key, e)], n) == WriteAll(kv, added, n)[DBKey(key, n + |added| + 1) := EntryBytes(e)]
  {
    assert (added + [(key, e)])[..|added|] == added;
  }

  lemma NothingWritten(kv: map<Data, Data>, n: nat, log: Log)
    ensures WriteAll(kv, [], n) == kv && log + [] == log
  {}

  lemma {:induction false} WriteAllAppend(kv: map<Data, Data>, a: Log, b: Log, n: nat)
    ensures WriteAll(WriteAll(kv, a, n), b, n + |a|) == WriteAll(kv, a + b, n)
  {
    hide *;
    if b == [] {
      NothingWritten(WriteAll(kv, a, n), n + |a|, a);
    } else {
      var init, last := b[..|b| - 1], b[|b| - 1];
      assert b == init + [last];
      WriteAllAppend(kv, a, init, n);
      ConcatAssoc(a, init, [last]);
      WriteAllSnoc(WriteAll(kv, a, n), init, n + |a|, last.0, last.1);
      WriteAllSnoc(kv, a + init, n, last.0, last.1);
    }
  }

  function WriteSlots(slots: Slots, added: Log, n: nat): (r: Slots)
    requires n <= |slots|
    ensures |r| == if n + |added| > |slots| then n + |added| else |slots|
  {
    if added == [] then slots
    else
      var init, last := added[..|added| - 1], added[|added| - 1];
      WriteSlot(WriteSlots(slots, init, n), n + |init|, last.0, last.1)
  }

  lemma {:induction false} StoresWriteAll(kv: map<Data, Data>, slots: Slots, added: Log, n: nat)
    requires Stores(kv, slots) && n <= |slots| && n + |added| < U64
    ensures Stores(WriteAll(kv, added, n), WriteSlots(slots, added, n))
  {
    hide Stores, DBKey, EntryBytes, WriteSlot;
    if added != [] {
      var init, last := added[..|added| - 1], added[|added| - 1];
      StoresWriteAll(kv, slots, init, n);
      StoresWrite(WriteAll(kv, init, n), WriteSlots(slots, init, n), n + |init|, last.0, last.1);
    }
  }

  lemma NotTxidKey(key: Hash, seqNo: nat)
    ensures !TxidList.Ours(DBKey(key, seqNo))
  {
    assert DBKey(key, seqNo)[0] == STUMP_PREFIX && [TxidList.PREFIX][0] == TxidList.PREFIX;
  }

  /** Stump writes leave a txid list in the same database as it was. */
  lemma {:induction false} TxidsUntouched(kv: map<Data, Data>, txids: seq<Hash>, added: Log, n: nat)
    requires TxidList.Holds(kv, txids)
    ensures TxidList.Holds(WriteAll(kv, added, n), txids)
  {
    hide TxidList.Holds, EntryBytes, BE;
    if added != [] {
      var init, last := added[..|added| - 1], added[|added| - 1];
      TxidsUntouched(kv, txids, init, n);
      NotTxidKey(last.0, n + |added|);
      TxidList.HoldsOther(WriteAll(kv, init, n), txids, DBKey(last.0, n + |added|), EntryBytes(last.1));
    }
  }

  /** The slots of a log: entry i alone under number i + 1. */
  function SlotsOf(log: Log): (r: Slots)
    ensures |r| == |log|
  {
    seq(|log|, i requires 0 <= i < |log| => map[log[i].0 := log[i].1])
  }

  ghost predicate Holds(kv: map<Data, Data>, log: Log) {
    Stores(kv, SlotsOf(log))
  }

  lemma {:induction false} SlotsOfAppend(log: Log, added: Log)
    ensures WriteSlots(SlotsOf(log), added, |log|) == SlotsOf(log + added)
  {
    if added == [] {
      assert log + added == log;
    } else {
      var init, last := added[..|added| - 1], added[|added| - 1];
      SlotsOfAppend(log, init);
      assert log + added == (log + init) + [last];
      assert SlotsOf(log + init) + [map[last.0 := last.1]] == SlotsOf(log + added);
    }
  }

  /** A counter that stands at the length of the log extends it. */
  lemma HoldsWriteAll(kv: map<Data, Data>, log: Log, added: Log)
    requires Holds(kv, log) && |log| + |added| < U64
    ensures Holds(WriteAll(kv, added, |log|), log + added)
  {
    hide Stores, WriteAll, SlotsOf, WriteSlots;
    StoresWriteAll(kv, SlotsOf(log), added, |log|);
    SlotsOfAppend(log, added);
  }

  // ---- Scans ---------------------------------------------------------------------------------------

  /** A key's entries in the order of their numbers. */
  function ByKey(slots: Slots, key: Hash): seq<Entry> {
    if slots == [] then []
    else
      var last := slots[|slots| - 1];
      ByKey(slots[..|slots| - 1], key) + (if key in last then [last[key]] else [])
  }

  lemma {:induction false} ByKeyOfLog(log: Log, key: Hash)
    ensures ByKey(SlotsOf(log), key) == Listed(log, key)
  {
    if log != [] {
      var init := log[..|log| - 1];
      ByKeyOfLog(init, key);
      assert SlotsOf(log)[..|log| - 1] == SlotsOf(init);
    }
  }

  /** The database keys of a key's entries, in the order of their numbers. */
  function Places(slots: Slots, key: Hash): seq<Data> {
    if slots == [] then []
    else Places(slots[..|slots| - 1], key) + (if key in slots[|slots| - 1] then [DBKey(key, |slots|)] else [])
  }

  lemma FilledInit(slots: Slots, i: nat, key: Hash)
    requires slots != []
    ensures FilledAt(slots, i, key) <==>
      FilledAt(slots[..|slots| - 1], i, key) || (i == |slots| - 1 && key in slots[|slots| - 1])
  {}

  lemma {:induction false} PlacesMember(slots: Slots, key: Hash, k: Data)
    ensures k in Places(slots, key) <==> exists i: nat :: FilledAt(slots, i, key) && k == DBKey(key, i + 1)
  {
    hide DBKey;
    if slots != [] {
      var init, n := slots[..|slots| - 1], |slots| - 1;
      PlacesMember(init, key, k);
      if k in Places(init, key) {
        var i: nat :| FilledAt(init, i, key) && k == DBKey(key, i + 1);
        FilledInit(slots, i, key);
      }
      if key in slots[n] && k == DBKey(key, n + 1) {
        assert FilledAt(slots, n, key);
      }
      if i: nat :| FilledAt(slots, i, key) && k == DBKey(key, i + 1) {
        FilledInit(slots, i, key);
      }
    }
  }

  lemma {:induction false} PlacesAscending(slots: Slots, key: Hash)
    requires |slots| < U64
    ensures AscendingKeys(Places(slots, key))
  {
    hide DBKey;
    if slots != [] {
      var init := slots[..|slots| - 1];
      PlacesAscending(init, key);
      forall j | 0 <= j < |Places(init, key)|
        ensures Less(Places(init, key)[j], DBKey(key, |slots|))
      {
        var k := Places(init, key)[j];
        PlacesMember(init, key, k);
        var i: nat :| FilledAt(init, i, key) && k == DBKey(key, i + 1);
        DBKeyOrder(key, i + 1, |slots|);
      }
    }
  }

  lemma PrefixOurs(key: Hash, k: Data)
    requires PrefixKey(key) <= k
    ensures Ours(k)
  {}

  lemma UnderPlaces(kv: map<Data, Data>, slots: Slots, key: Hash, k: Data)
    requires Stores(kv, slots)
    ensures k in Places(slots, key) <==> k in kv && PrefixKey(key) <= k && !Less(k, PrefixKey(key))
  {
    hide EntryBytes, Places, Less, FilledAt;
    PlacesMember(slots, key, k);
    if k in Places(slots, key) {
      var i: nat :| FilledAt(slots, i, key) && k == DBKey(key, i + 1);
      FilledFacts(slots, i, key);
      assert StoredAt(kv, key, i, slots[i][key]);
      UnderPrefix(key, key, i + 1);
      NotBeforePrefix(PrefixKey(key), BE(i + 1, 8));
    }
    if k in kv && PrefixKey(key) <= k {
      PrefixOurs(key, k);
      hide DBKey;
      var i: nat, other :| FilledAt(slots, i, other) && k == DBKey(other, i + 1);
      UnderPrefix(key, other, i + 1);
    }
  }

  /** A prefix scan visits a key's entries in the order of their numbers. */
  lemma ScanPlaces(kv: map<Data, Data>, slots: Slots, key: Hash, keys: seq<Data>)
    requires Stores(kv, slots) && ScanOf(kv, PrefixKey(key), PrefixKey(key), keys)
    ensures keys == Places(slots, key)
  {
    assert |slots| < U64;
    hide Places, Less, PrefixKey, Stores;
    PlacesAscending(slots, key);
    forall k
      ensures k in keys <==> k in Places(slots, key)
    {
      UnderPlaces(kv, slots, key, k);
    }
    AscendingUnique(keys, Places(slots, key));
  }

  /** What a read of these keys gives; a value that does not parse is skipped. */
  function ReadKeys(kv: map<Data, Data>, keys: seq<Data>): seq<Entry>
    requires forall i :: 0 <= i < |keys| ==> keys[i] in kv
  {
    if keys == [] then []
    else
      var parsed := ParseEntry(kv[keys[|keys| - 1]]);
      ReadKeys(kv, keys[..|keys| - 1]) + (if parsed.Success? then [parsed.value] else [])
  }

  /** What entries come back as: whole when they fit, cut to four-byte fields when they do not. */
  function Reread(es: seq<Entry>): (r: seq<Entry>)
    ensures |r| == |es|
  {
    seq(|es|, i requires 0 <= i < |es| => Truncated(es[i]))
  }

  lemma RereadSnoc(es: seq<Entry>, e: Entry)
    ensures Reread(es + [e]) == Reread(es) + [Truncated(e)]
  {
    hide Truncated;
  }

  lemma ReadSnoc(kv: map<Data, Data>, keys: seq<Data>, k: Data, e: Entry)
    requires (forall i :: 0 <= i < |keys| ==> keys[i] in kv) && k in kv && ParseEntry(kv[k]) == Success(Truncated(e))
    ensures forall i :: 0 <= i < |keys + [k]| ==> (keys + [k])[i] in kv
    ensures ReadKeys(kv, keys + [k]) == ReadKeys(kv, keys) + [Truncated(e)]
  {
    hide ParseEntry, Truncated;
    assert (keys + [k])[..|keys|] == keys;
  }

  lemma {:induction false} ReadPlaces(kv: map<Data, Data>, slots: Slots, key: Hash, n: nat)
    requires Stores(kv, slots) && n <= |slots|
    ensures forall i :: 0 <= i < |Places(slots[..n], key)| ==> Places(slots[..n], key)[i] in kv
    ensures ReadKeys(kv, Places(slots[..n], key)) == Reread(ByKey(slots[..n], key))
  {
    hide DBKey, EntryBytes, ParseEntry, Truncated, Ours;
    if n > 0 {
      var init := slots[..n - 1];
      assert slots[..n][..n - 1] == init && slots[..n][n - 1] == slots[n - 1];
      ReadPlaces(kv, slots, key, n - 1);
      if key in slots[n - 1] {
        assert FilledAt(slots, n - 1, key) && StoredAt(kv, key, n - 1, slots[n - 1][key]);
        var e := slots[n - 1][key];
        EntryReads(e);
        RereadSnoc(ByKey(init, key), e);
        ReadSnoc(kv, Places(init, key), DBKey(key, n), e);
      } else {
        assert Places(init, key) + [] == Places(init, key) && ByKey(init, key) + [] == ByKey(init, key);
      }
    }
  }

  /** Whatever is stored under the key comes back by number, as it reads back. */
  lemma ScanReads(kv: map<Data, Data>, slots: Slots, key: Hash, keys: seq<Data>)
    requires Stores(kv, slots) && ScanOf(kv, PrefixKey(key), PrefixKey(key), keys)
    ensures forall i :: 0 <= i < |keys| ==> keys[i] in kv
    ensures ReadKeys(kv, keys) == Reread(ByKey(slots, key))
  {
    hide *;
    ScanPlaces(kv, slots, key, keys);
    assert slots[..|slots|] == slots;
    ReadPlaces(kv, slots, key, |slots|);
  }

  lemma ScannedKeys(kv: map<Data, Data>, key: Hash, keys: seq<Data>)
    requires ScanOf(kv, PrefixKey(key), PrefixKey(key), keys)
    ensures forall i :: 0 <= i < |keys| ==> keys[i] in kv
  {}

  /** What a database answers for a key: the values under its prefix, in byte order, that parse. */
  ghost function DiskAnswer(kv: map<Data, Data>, key: Hash): seq<Entry> {
    ScanExists(kv, PrefixKey(key), PrefixKey(key));
    var keys :| ScanOf(kv, PrefixKey(key), PrefixKey(key), keys);
    ScannedKeys(kv, key, keys);
    ReadKeys(kv, keys)
  }

  /** ... which is whatever is stored under the key, by number, as it reads back. */
  lemma DiskAnswers(kv: map<Data, Data>, slots: Slots, key: Hash)
    requires Stores(kv, slots)
    ensures DiskAnswer(kv, key) == Reread(ByKey(slots, key))
  {
    ScanExists(kv, PrefixKey(key), PrefixKey(key));
    var keys :| ScanOf(kv, PrefixKey(key), PrefixKey(key), keys) && DiskAnswer(kv, key) == (ScannedKeys(kv, key, keys); ReadKeys(kv, keys));
    hide Stores, ScanOf, ReadKeys, Reread, ByKey, PrefixKey;
    ScanReads(kv, slots, key, keys);
  }

  lemma LogAnswers(kv: map<Data, Data>, log: Log, key: Hash)
    requires Holds(kv, log)
    ensures DiskAnswer(kv, key) == Reread(Listed(log, key))
  {
    hide Stores, DiskAnswer, Reread, ByKey;
    DiskAnswers(kv, SlotsOf(log), key);
    ByKeyOfLog(log, key);
  }

  lemma AnswerIs(kv: map<Data, Data>, key: Hash, keys: seq<Data>)
    requires ScanOf(kv, PrefixKey(key), PrefixKey(key), keys)
    ensures forall i :: 0 <= i < |keys| ==> keys[i] in kv
    ensures DiskAnswer(kv, key) == ReadKeys(kv, keys)
  {
    ScannedKeys(kv, key, keys);
    forall other | ScanOf(kv, PrefixKey(key), PrefixKey(key), other)
      ensures other == keys
    {
      ScanUnique(kv, PrefixKey(key), PrefixKey(key), other, keys);
    }
    hide ScanOf, ReadKeys, PrefixKey;
  }

  lemma NothingRead(kv: map<Data, Data>)
    ensures ReadKeys(kv, []) == []
  {}

  lemma NextRead(kv: map<Data, Data>, keys: seq<Data>, i: nat)
    requires i < |keys| && forall j :: 0 <= j < |keys| ==> keys[j] in kv
    ensures var parsed := ParseEntry(kv[keys[i]]);
      ReadKeys(kv, keys[..i + 1]) == ReadKeys(kv, keys[..i]) + (if parsed.Success? then [parsed.value] else [])
    ensures ReadKeys(kv, keys[..i]) + [] == ReadKeys(kv, keys[..i])
  {
    hide ParseEntry;
    assert keys[..i + 1][..i] == keys[..i];
  }

  // ---- Sizes of a batch ----------------------------------------------------------------------------

  /** Entries in the lists of some keys of a batch. */
  ghost function Sizes(batch: map<Hash, seq<Entry>>, keys: set<Hash>): nat
    requires keys <= batch.Keys
    decreases |keys|
  {
    if keys == {} then 0
    else
      var k :| k in keys;
      |batch[k]| + Sizes(batch, keys - {k})
  }

  lemma {:induction false} SizesRemove(batch: map<Hash, seq<Entry>>, keys: set<Hash>, k: Hash)
    requires keys <= batch.Keys && k in keys
    ensures Sizes(batch, keys) == |batch[k]| + Sizes(batch, keys - {k})
    decreases |keys|
  {
    var first :| first in keys && Sizes(batch, keys) == |batch[first]| + Sizes(batch, keys - {first});
    if first != k {
      SizesRemove(batch, keys - {first}, k);
      SizesRemove(batch, keys - {k}, first);
      assert keys - {first} - {k} == keys - {k} - {first};
    }
  }

  lemma SizesStep(batch: map<Hash, seq<Entry>>, keys: set<Hash>, k: Hash)
    requires keys <= batch.Keys && k in batch && k !in keys
    ensures Sizes(batch, keys + {k}) == Sizes(batch, keys) + |batch[k]|
  {
    SizesRemove(batch, keys + {k}, k);
    assert keys + {k} - {k} == keys;
  }

  lemma {:induction false} SizesBelow(batch: map<Hash, seq<Entry>>, some: set<Hash>, all: set<Hash>)
    requires some <= all <= batch.Keys
    ensures Sizes(batch, some) <= Sizes(batch, all)
    decreases |all|
  {
    if some != all {
      var k :| k in all && k !in some;
      SizesRemove(batch, all, k);
      SizesBelow(batch, some, all - {k});
    }
  }

  /** added holds the batch's entries under the keys in done, and nothing else. */
  ghost predicate Added(added: Log, batch: map<Hash, seq<Entry>>, done: set<Hash>)
    requires done <= batch.Keys
  {
    forall key :: Listed(added, key) == if key in done then batch[key] else []
  }

  ghost predicate Visited(keys: seq<Hash>, i: nat, done: set<Hash>)
    requires i <= |keys|
  {
    forall k :: k in done <==> k in keys[..i]
  }

  lemma NextKey(keys: seq<Hash>, i: nat, done: set<Hash>)
    requires i < |keys| && NoRepeats(keys) && Visited(keys, i, done)
    ensures keys[i] in keys && keys[i] !in done && Visited(keys, i + 1, done + {keys[i]})
  {
    assert keys[..i + 1] == keys[..i] + [keys[i]];
  }

  lemma AllVisited(keys: seq<Hash>, done: set<Hash>, all: set<Hash>)
    requires Visited(keys, |keys|, done) && forall k :: k in keys <==> k in all
    ensures done == all
  {
    assert keys[..|keys|] == keys;
  }

  lemma AddedAll(added: Log, batch: map<Hash, seq<Entry>>)
    requires Added(added, batch, batch.Keys)
    ensures forall key :: Listed(added, key) == if key in batch then batch[key] else []
  {
    hide Listed;
  }

  lemma NothingAdded(batch: map<Hash, seq<Entry>>)
    ensures Added([], batch, {}) && Sizes(batch, {}) == 0
    ensures forall keys: seq<Hash> :: Visited(keys, 0, {})
  {}

  lemma AddedStep(added: Log, batch: map<Hash, seq<Entry>>, done: set<Hash>, key: Hash)
    requires done <= batch.Keys && key in batch && key !in done && Added(added, batch, done)
    ensures Added(added + Tagged(key, batch[key]), batch, done + {key})
    ensures |added + Tagged(key, batch[key])| == |added| + |batch[key]|
  {
    hide Listed, Tagged;
    forall other
      ensures Listed(added + Tagged(key, batch[key]), other) == if other in done + {key} then batch[other] else []
    {
      ListedTagged(added, key, batch[key], other);
      assert Listed(added, other) == if other in done then batch[other] else [];
      assert [] + batch[key] == batch[key];
    }
  }

  // ---- The store -----------------------------------------------------------------------------------

  /** `log` is what this object appended since it was opened, whatever the database held before. */
  class DiskStumpStore {
    const db: DB
    var seqNo: nat
    ghost var log: Log

    /** The database holds this log and no other stump: the store was opened over none. */
    ghost predicate Valid()
      reads this, db
    {
      seqNo == |log| && Holds(db.kv, log)
    }

    /** The counter starts at zero whatever the database holds: it is not restored on reopening. */
    constructor (db: DB)
      ensures this.db == db && seqNo == 0 && log == []
      ensures Holds(db.kv, []) ==> Valid()
    {
      this.db := db;
      seqNo := 0;
      log := [];
    }

    method Append(key: Hash, e: Entry)
      requires seqNo + 1 < U64
      modifies this, db
      ensures log == old(log) + [(key, e)] && seqNo == old(seqNo) + 1
      ensures db.kv == WriteAll(old(db.kv), [(key, e)], old(seqNo))
      ensures db.kv == old(db.kv)[DBKey(key, old(seqNo) + 1) := EntryBytes(e)]
      ensures old(Valid()) ==> Valid()
    {
      hide Holds, DBKey, EntryBytes;
      ghost var kv, n := db.kv, seqNo;
      seqNo := seqNo + 1;
      var val := MarshalEntry(e);
      db.Set(DBKey(key, seqNo), val);
      log := log + [(key, e)];
      assert [] + [(key, e)] == [(key, e)];
      WriteAllSnoc(kv, [], n, key, e);
      if old(Valid()) { HoldsWriteAll(kv, old(log), [(key, e)]); }
    }

    method AppendBatch(key: Hash, entries: seq<Entry>)
      requires seqNo + |entries| < U64
      modifies this, db
      ensures log == old(log) + Tagged(key, entries) && seqNo == old(seqNo) + |entries|
      ensures db.kv == WriteAll(old(db.kv), Tagged(key, entries), old(seqNo))
      ensures old(Valid()) ==> Valid()
    {
      hide Holds, WriteAll;
      ghost var kv, n := db.kv, seqNo;
      NothingTagged(log, key);
      NothingWritten(kv, n, log);
      assert entries[..0] == [] && Tagged(key, []) == [];
      if |entries| == 0 {
        assert entries == [];
        return;
      }
      for i := 0 to |entries|
        invariant log == old(log) + Tagged(key, entries[..i]) && seqNo == n + i
        invariant db.kv == WriteAll(kv, Tagged(key, entries[..i]), n)
        invariant old(Valid()) ==> Valid()
      {
        assert entries[..i + 1] == entries[..i] + [entries[i]];
        TaggedSnoc(old(log), key, entries[..i], entries[i]);
        assert Tagged(key, entries[..i + 1]) == Tagged(key, entries[..i]) + [(key, entries[i])];
        WriteAllAppend(kv, Tagged(key, entries[..i]), [(key, entries[i])], n);
        Append(key, entries[i]);
      }
      assert entries[..|entries|] == entries;
    }

    /** Several keys at once, visited in any order: `added` is what was written, in that order. */
    method AppendMultiKeyBatch(batch: map<Hash, seq<Entry>>) returns (ghost added: Log)
      requires seqNo + Sizes(batch, batch.Keys) < U64
      modifies this, db
      ensures log == old(log) + added && seqNo == old(seqNo) + |added| && |added| == Sizes(batch, batch.Keys)
      ensures forall key :: Listed(added, key) == if key in batch then batch[key] else []
      ensures db.kv == WriteAll(old(db.kv), added, old(seqNo))
      ensures old(Valid()) ==> Valid()
    {
      hide *;
      ghost var kv, n := db.kv, seqNo;
      var keys := Keys(batch);
      ghost var done: set<Hash> := {};
      added := [];
      NothingAdded(batch);
      NothingWritten(kv, n, log);
      for i := 0 to |keys|
        invariant done <= batch.Keys && Visited(keys, i, done)
        invariant Added(added, batch, done) && |added| == Sizes(batch, done)
        invariant log == old(log) + added && seqNo == n + |added| && db.kv == WriteAll(kv, added, n)
        invariant old(Valid()) ==> Valid()
      {
        NextKey(keys, i, done);
        SizesStep(batch, done, keys[i]);
        SizesBelow(batch, done + {keys[i]}, batch.Keys);
        ghost var more := Tagged(keys[i], batch[keys[i]]);
        AddedStep(added, batch, done, keys[i]);
        WriteAllAppend(kv, added, more, n);
        ConcatAssoc(old(log), added, more);
        AppendBatch(keys[i], batch[keys[i]]);
        added := added + more;
        done := done + {keys[i]};
      }
      AllVisited(keys, done, batch.Keys);
      AddedAll(added, batch);
    }

    lemma ValidHolds()
      requires Valid()
      ensures Holds(db.kv, log)
    {}

    /**
      A prefix scan that skips values that do not parse. A key's entries come back by number, so in append order
      when the store was opened over none.
     */
    method Get(key: Hash) returns (result: seq<Entry>)
      ensures result == DiskAnswer(db.kv, key)
      ensures Valid() ==> result == Reread(Listed(log, key))
    {
      hide *;
      var keys := db.Scan(PrefixKey(key), PrefixKey(key));
      AnswerIs(db.kv, key, keys);
      result := [];
      NothingRead(db.kv);
      for i := 0 to |keys|
        invariant result == ReadKeys(db.kv, keys[..i])
      {
        var val := db.Get(keys[i]);
        var e := UnmarshalEntry(val.value);
        NextRead(db.kv, keys, i);
        if e.Success? {
          result := result + [e.value];
        }
      }
      assert keys[..|keys|] == keys;
      if Valid() {
        ValidHolds();
        LogAnswers(db.kv, log, key);
      }
    }
  }

  // ---- Refinement ----------------------------------------------------------------------------------

  /** Every entry of the log can be stored whole. */
  predicate LogFits(log: Log) {
    forall i :: 0 <= i < |log| ==> EntryFits(log[i].1)
  }

  lemma {:induction false} ListedFits(log: Log, key: Hash)
    requires LogFits(log)
    ensures forall j :: 0 <= j < |Listed(log, key)| ==> EntryFits(Listed(log, key)[j])
  {
    if log != [] {
      var init := log[..|log| - 1];
      assert forall i :: 0 <= i < |init| ==> init[i] == log[i];
      ListedFits(init, key);
    }
  }

  lemma {:induction false} ListedHas(log: Log, i: nat)
    requires i < |log|
    ensures log[i].1 in Listed(log, log[i].0)
  {
    var init := log[..|log| - 1];
    if i < |init| {
      assert init[i] == log[i];
      ListedHas(init, i);
    }
  }

  lemma {:induction false} ListedFrom(log: Log, key: Hash, e: Entry)
    ensures e in Listed(log, key) <==> (key, e) in log
  {
    if log != [] {
      var init, last := log[..|log| - 1], log[|log| - 1];
      ListedFrom(init, key, e);
      assert log == init + [last];
    }
  }

  /** Reading back changes no key's list. */
  ghost predicate ReadsWhole(log: Log) {
    forall key: Hash :: Reread(Listed(log, key)) == Listed(log, key)
  }

  lemma RereadWhole(es: seq<Entry>)
    ensures Reread(es) == es <==> forall j :: 0 <= j < |es| ==> EntryFits(es[j])
  {
    hide Truncated, EntryFits;
    forall j | 0 <= j < |es|
      ensures Reread(es)[j] == es[j] <==> EntryFits(es[j])
    {
      TruncatedFacts(es[j]);
    }
  }

  /**
    The two stores answer alike for every key, after the same appends, exactly when every appended entry fits its
    four-byte fields.
   */
  lemma StoresAgree(log: Log)
    ensures ReadsWhole(log) <==> LogFits(log)
  {
    hide Reread, EntryFits, Listed;
    if LogFits(log) {
      forall key: Hash
        ensures Reread(Listed(log, key)) == Listed(log, key)
      {
        ListedFits(log, key);
        RereadWhole(Listed(log, key));
      }
    }
    if ReadsWhole(log) {
      forall i | 0 <= i < |log|
        ensures EntryFits(log[i].1)
      {
        var es := Listed(log, log[i].0);
        ListedHas(log, i);
        RereadWhole(es);
        var j :| 0 <= j < |es| && es[j] == log[i].1;
      }
    }
  }

  // ---- A run of appends ----------------------------------------------------------------------------

  datatype Call = One(key: Hash, entry: Entry) | Batch(key: Hash, entries: seq<Entry>) | Many(batch: map<Hash, seq<Entry>>)

  /** What a call appends under a key. */
  function CallEntries(c: Call, key: Hash): seq<Entry> {
    match c
    case One(k, e) => if k == key then [e] else []
    case Batch(k, es) => if k == key then es else []
    case Many(batch) => if key in batch then batch[key] else []
  }

  function Called(calls: seq<Call>, key: Hash): seq<Entry> {
    if calls == [] then [] else Called(calls[..|calls| - 1], key) + CallEntries(calls[|calls| - 1], key)
  }

  ghost function CallSize(c: Call): nat {
    match c
    case One(_, _) => 1
    case Batch(_, es) => |es|
    case Many(batch) => Sizes(batch, batch.Keys)
  }

  ghost function CallsSize(calls: seq<Call>): nat {
    if calls == [] then 0 else CallsSize(calls[..|calls| - 1]) + CallSize(calls[|calls| - 1])
  }

  /** added is what the calls append, key by key. */
  ghost predicate AddsCalls(added: Log, calls: seq<Call>) {
    forall key :: Listed(added, key) == Called(calls, key)
  }

  ghost predicate AddsCall(added: Log, c: Call) {
    forall key :: Listed(added, key) == CallEntries(c, key)
  }

  lemma {:induction false} ListedAppend(a: Log, b: Log, key: Hash)
    ensures Listed(a + b, key) == Listed(a, key) + Listed(b, key)
  {
    if b == [] {
      assert a + b == a;
      assert Listed(a, key) + [] == Listed(a, key);
    } else {
      var init, last := b[..|b| - 1], b[|b| - 1];
      ListedAppend(a, init, key);
      assert a + b == (a + init) + [last] && b == init + [last];
      ListedSnoc(a + init, last.0, last.1, key);
      ListedSnoc(init, last.0, last.1, key);
      ConcatAssoc(Listed(a, key), Listed(init, key), [last.1]);
    }
  }

  lemma CallsSnoc(calls: seq<Call>, i: nat)
    requires i < |calls|
    ensures CallsSize(calls[..i + 1]) == CallsSize(calls[..i]) + CallSize(calls[i])
    ensures forall key :: Called(calls[..i + 1], key) == Called(calls[..i], key) + CallEntries(calls[i], key)
  {
    assert calls[..i + 1][..i] == calls[..i];
  }

  lemma {:induction false} CallsSizeBelow(calls: seq<Call>, i: nat)
    requires i <= |calls|
    ensures CallsSize(calls[..i]) <= CallsSize(calls)
    decreases |calls| - i
  {
    if i < |calls| {
      CallsSnoc(calls, i);
      CallsSizeBelow(calls, i + 1);
    } else {
      assert calls[..i] == calls;
    }
  }

  lemma AddsCallsSnoc(added: Log, more: Log, calls: seq<Call>, i: nat)
    requires i < |calls| && AddsCalls(added, calls[..i]) && AddsCall(more, calls[i])
    ensures AddsCalls(added + more, calls[..i + 1])
  {
    hide Listed, Called, CallEntries;
    CallsSnoc(calls, i);
    forall key
      ensures Listed(added + more, key) == Called(calls[..i + 1], key)
    {
      ListedAppend(added, more, key);
    }
  }

  lemma NothingCalled(calls: seq<Call>)
    ensures AddsCalls([], calls[..0]) && CallsSize(calls[..0]) == 0
  {}

  lemma OneCalled(key: Hash, entries: seq<Entry>)
    ensures AddsCall(Tagged(key, entries), Batch(key, entries))
    ensures |entries| == 1 ==> Tagged(key, entries) == [(key, entries[0])] && AddsCall([(key, entries[0])], One(key, entries[0]))
  {
    forall other
      ensures Listed(Tagged(key, entries), other) == if other == key then entries else []
    {
      ListedTagged([], key, entries, other);
      assert [] + Tagged(key, entries) == Tagged(key, entries) && [] + entries == entries;
    }
    if |entries| == 1 { assert entries == [entries[0]]; }
  }

  /** One call on the disk store. */
  method Perform(disk: DiskStumpStore, c: Call) returns (ghost added: Log)
    requires disk.seqNo + CallSize(c) < U64
    modifies disk, disk.db
    ensures disk.log == old(disk.log) + added && disk.seqNo == old(disk.seqNo) + |added| && |added| == CallSize(c)
    ensures AddsCall(added, c) && disk.db.kv == WriteAll(old(disk.db.kv), added, old(disk.seqNo))
    ensures old(disk.Valid()) ==> disk.Valid()
  {
    hide WriteAll, Listed, Tagged, Holds;
    match c
    case One(key, e) =>
      added := [(key, e)];
      OneCalled(key, [e]);
      disk.Append(key, e);
    case Batch(key, entries) =>
      added := Tagged(key, entries);
      OneCalled(key, entries);
      disk.AppendBatch(key, entries);
    case Many(batch) =>
      added := disk.AppendMultiKeyBatch(batch);
  }

  method AppendEach(mem: Store, batch: map<Hash, seq<Entry>>) returns (ghost added: Log)
    requires mem.Valid()
    modifies mem
    ensures mem.Valid() && mem.log == old(mem.log) + added
    ensures forall key :: Listed(added, key) == if key in batch then batch[key] else []
  {
    hide *;
    var keys := Keys(batch);
    ghost var done: set<Hash> := {};
    added := [];
    NothingAdded(batch);
    NothingWritten(map[], 0, mem.log);
    for i := 0 to |keys|
      invariant mem.Valid() && done <= batch.Keys && Visited(keys, i, done)
      invariant Added(added, batch, done) && mem.log == old(mem.log) + added
    {
      NextKey(keys, i, done);
      ghost var more := Tagged(keys[i], batch[keys[i]]);
      AddedStep(added, batch, done, keys[i]);
      ConcatAssoc(old(mem.log), added, more);
      mem.AppendBatch(keys[i], batch[keys[i]]);
      added := added + more;
      done := done + {keys[i]};
    }
    AllVisited(keys, done, batch.Keys);
    AddedAll(added, batch);
  }

  lemma ManyCalled(added: Log, batch: map<Hash, seq<Entry>>)
    requires forall key :: Listed(added, key) == if key in batch then batch[key] else []
    ensures AddsCall(added, Many(batch))
  {
    hide Listed;
  }

  /** One call on the store in memory, which has no call for several keys: they are batches, in any order. */
  method PerformInMemory(mem: Store, c: Call) returns (ghost added: Log)
    requires mem.Valid()
    modifies mem
    ensures mem.Valid() && mem.log == old(mem.log) + added && AddsCall(added, c)
  {
    hide *;
    match c
    case One(key, e) =>
      added := [(key, e)];
      OneCalled(key, [e]);
      mem.Append(key, e);
    case Batch(key, entries) =>
      added := Tagged(key, entries);
      OneCalled(key, entries);
      mem.AppendBatch(key, entries);
    case Many(batch) =>
      added := AppendEach(mem, batch);
      ManyCalled(added, batch);
  }

  method PerformAllInMemory(mem: Store, calls: seq<Call>) returns (ghost added: Log)
    requires mem.Valid()
    modifies mem
    ensures mem.Valid() && mem.log == old(mem.log) + added && AddsCalls(added, calls)
  {
    hide *;
    added := [];
    NothingWritten(map[], 0, mem.log);
    NothingCalled(calls);
    for i := 0 to |calls|
      invariant mem.Valid() && mem.log == old(mem.log) + added && AddsCalls(added, calls[..i])
    {
      ghost var more := PerformInMemory(mem, calls[i]);
      AddsCallsSnoc(added, more, calls, i);
      ConcatAssoc(old(mem.log), added, more);
      added := added + more;
    }
    assert calls[..|calls|] == calls;
  }

  /** A run of calls on the disk store: the database gains exactly their entries, numbered on from the counter. */
  method PerformAll(disk: DiskStumpStore, calls: seq<Call>) returns (ghost added: Log)
    requires disk.seqNo + CallsSize(calls) < U64
    modifies disk, disk.db
    ensures disk.log == old(disk.log) + added && disk.seqNo == old(disk.seqNo) + |added| && |added| == CallsSize(calls)
    ensures AddsCalls(added, calls) && disk.db.kv == WriteAll(old(disk.db.kv), added, old(disk.seqNo))
    ensures old(disk.Valid()) ==> disk.Valid()
  {
    hide *;
    ghost var kv, n := disk.db.kv, disk.seqNo;
    added := [];
    NothingWritten(kv, n, disk.log);
    NothingCalled(calls);
    for i := 0 to |calls|
      invariant disk.log == old(disk.log) + added && disk.seqNo == n + |added| && |added| == CallsSize(calls[..i])
      invariant AddsCalls(added, calls[..i]) && disk.db.kv == WriteAll(kv, added, n)
      invariant old(disk.Valid()) ==> disk.Valid()
    {
      CallsSnoc(calls, i);
      CallsSizeBelow(calls, i + 1);
      ghost var more := Perform(disk, calls[i]);
      AddsCallsSnoc(added, more, calls, i);
      WriteAllAppend(kv, added, more, n);
      ConcatAssoc(old(disk.log), added, more);
      added := added + more;
    }
    assert calls[..|calls|] == calls;
  }

  // ---- Reopening -----------------------------------------------------------------------------------

  /** Two pictures of one database have the same slots filled. */
  lemma StoresOnce(kv: map<Data, Data>, a: Slots, b: Slots, i: nat, key: Hash)
    requires Stores(kv, a) && Stores(kv, b) && FilledAt(a, i, key)
    ensures FilledAt(b, i, key)
  {
    hide DBKey, Ours, EntryBytes, FilledAt;
    FilledFacts(a, i, key);
    assert StoredAt(kv, key, i, a[i][key]);
    StumpKey(key, i + 1);
    var j: nat, other :| FilledAt(b, j, other) && DBKey(key, i + 1) == DBKey(other, j + 1);
    FilledFacts(b, j, other);
    DBKeyDistinct(key, i + 1, other, j + 1);
  }

  lemma LastSlot(past: Log, run: Log)
    requires run != []
    ensures FilledAt(SlotsOf(past + run), |past| + |run| - 1, run[|run| - 1].0)
  {}

  /** A store reopened over a log writes over it: the log is extended exactly when there was none, or nothing came. */
  lemma ReopenExtends(kv: map<Data, Data>, past: Log, run: Log)
    requires Holds(kv, past) && |past| + |run| < U64
    ensures Holds(WriteAll(kv, run, 0), past + run) <==> past == [] || run == []
  {
    hide Stores, WriteAll, WriteSlots, SlotsOf;
    StoresWriteAll(kv, SlotsOf(past), run, 0);
    if past == [] {
      assert [] + run == run;
      HoldsWriteAll(kv, past, run);
    } else if run == [] {
      NothingWritten(kv, 0, past);
    } else if Holds(WriteAll(kv, run, 0), past + run) {
      var n := |past| + |run| - 1;
      LastSlot(past, run);
      StoresOnce(WriteAll(kv, run, 0), SlotsOf(past + run), WriteSlots(SlotsOf(past), run, 0), n, run[|run| - 1].0);
    }
  }

  /** Entries written under a number and a key that were taken. */
  function Clashes(slots: Slots, added: Log, n: nat, key: Hash): nat {
    if added == [] then 0
    else
      var last := added[|added| - 1];
      Clashes(slots, added[..|added| - 1], n, key) +
      (if last.0 == key && FilledAt(slots, n + |added| - 1, key) then 1 else 0)
  }

  lemma {:induction false} ByKeySize(slots: Slots, n: nat, key: Hash, e: Entry, other: Hash)
    requires n <= |slots|
    ensures |ByKey(WriteSlot(slots, n, key, e), other)| ==
            |ByKey(slots, other)| + (if other == key && !FilledAt(slots, n, key) then 1 else 0)
  {
    var more := WriteSlot(slots, n, key, e);
    if n == |slots| {
      assert more[..n] == slots;
    } else if n == |slots| - 1 {
      assert more[..n] == slots[..n];
    } else {
      assert more[..|slots| - 1] == WriteSlot(slots[..|slots| - 1], n, key, e);
      ByKeySize(slots[..|slots| - 1], n, key, e, other);
    }
  }

  lemma {:induction false} FilledLater(slots: Slots, added: Log, n: nat, i: nat, key: Hash)
    requires n <= |slots| && n + |added| <= i
    ensures FilledAt(WriteSlots(slots, added, n), i, key) <==> FilledAt(slots, i, key)
  {
    hide FilledAt, WriteSlot;
    if added != [] {
      var init, last := added[..|added| - 1], added[|added| - 1];
      FilledLater(slots, init, n, i, key);
      WriteSlotFills(WriteSlots(slots, init, n), n + |init|, last.0, last.1, i, key);
    }
  }

  /** Conservation: each key has its old entries and its new ones, but for one old entry lost at each clash. */
  lemma {:induction false} ReopenLoses(slots: Slots, added: Log, n: nat, key: Hash)
    requires n <= |slots|
    ensures |ByKey(WriteSlots(slots, added, n), key)| + Clashes(slots, added, n, key) ==
            |ByKey(slots, key)| + |Listed(added, key)|
  {
    hide ByKey, WriteSlot, FilledAt;
    if added != [] {
      var init, last := added[..|added| - 1], added[|added| - 1];
      ReopenLoses(slots, init, n, key);
      FilledLater(slots, init, n, n + |init|, key);
      ByKeySize(WriteSlots(slots, init, n), n + |init|, last.0, last.1, key);
    }
  }

  /** What a slot holds afterwards: the new entry beside whatever other keys had there, and the old one elsewhere. */
  lemma {:induction false} ReopenedSlot(slots: Slots, added: Log, n: nat, i: nat, key: Hash)
    requires n <= |slots|
    ensures var r := WriteSlots(slots, added, n);
      if n <= i < n + |added| && added[i - n].0 == key then FilledAt(r, i, key) && r[i][key] == added[i - n].1
      else (FilledAt(r, i, key) <==> FilledAt(slots, i, key)) && (FilledAt(slots, i, key) ==> r[i][key] == slots[i][key])
  {
    hide FilledAt, WriteSlot;
    if added != [] {
      var init, last := added[..|added| - 1], added[|added| - 1];
      ReopenedSlot(slots, init, n, i, key);
      var mid := WriteSlots(slots, init, n);
      WriteSlotFills(mid, n + |init|, last.0, last.1, i, key);
      if FilledAt(mid, i, key) { FilledFacts(mid, i, key); }
    }
  }

  lemma EmptyFirst(run: Log)
    ensures [] + run == run
  {}

  lemma HoldsStores(kv: map<Data, Data>, log: Log)
    requires Holds(kv, log)
    ensures Stores(kv, SlotsOf(log))
  {}

  /** Every number under which the key is written is past every number it was stored under: no clash, and in order. */
  ghost predicate FollowsOn(slots: Slots, added: Log, n: nat, key: Hash) {
    forall i: nat, j :: FilledAt(slots, i, key) && 0 <= j < |added| && added[j].0 == key ==> i < n + j
  }

  lemma ByKeySplit(slots: Slots, key: Hash)
    requires slots != []
    ensures var init, last := slots[..|slots| - 1], slots[|slots| - 1];
      ByKey(slots, key) == ByKey(init, key) + (if key in last then [last[key]] else [])
    ensures ByKey(slots[..|slots| - 1], key) + [] == ByKey(slots[..|slots| - 1], key)
  {}

  lemma WriteSlotSplit(slots: Slots, n: nat, key: Hash, e: Entry)
    requires n < |slots|
    ensures var more := WriteSlot(slots, n, key, e);
      && |more| == |slots|
      && (n == |slots| - 1 ==> more[..n] == slots[..n] && more[n] == slots[n][key := e])
      && (n < |slots| - 1 ==> more[..|slots| - 1] == WriteSlot(slots[..|slots| - 1], n, key, e) &&
                              more[|slots| - 1] == slots[|slots| - 1])
  {}

  ghost predicate AllBelow(slots: Slots, n: nat, key: Hash) {
    forall i: nat :: FilledAt(slots, i, key) ==> i < n
  }

  lemma InitBelow(slots: Slots, n: nat, key: Hash)
    requires slots != [] && AllBelow(slots, n, key)
    ensures AllBelow(slots[..|slots| - 1], n, key)
  {
    var init := slots[..|slots| - 1];
    forall i: nat | FilledAt(init, i, key)
      ensures i < n
    {
      assert FilledAt(slots, i, key);
    }
  }

  lemma {:induction false} ByKeyAdds(slots: Slots, n: nat, key: Hash, e: Entry, other: Hash)
    requires n <= |slots|
    requires other == key ==> AllBelow(slots, n, key)
    ensures ByKey(WriteSlot(slots, n, key, e), other) == ByKey(slots, other) + (if other == key then [e] else [])
  {
    var more := WriteSlot(slots, n, key, e);
    if n == |slots| {
      assert more[..n] == slots;
      ByKeySplit(more, other);
    } else {
      var init, last := slots[..|slots| - 1], slots[|slots| - 1];
      assert other == key ==> !FilledAt(slots, |slots| - 1, key);
      assert other == key ==> key !in last;
      WriteSlotSplit(slots, n, key, e);
      ByKeySplit(slots, other);
      ByKeySplit(more, other);
      if n < |slots| - 1 {
        if other == key { InitBelow(slots, n, key); }
        ByKeyAdds(init, n, key, e, other);
      }
    }
    hide ByKey, WriteSlot, FilledAt;
  }

  lemma FilledBefore(slots: Slots, added: Log, n: nat, m: nat, i: nat, key: Hash)
    requires n <= |slots| && m < |added| && added[m].0 == key && FollowsOn(slots, added, n, key)
    requires FilledAt(WriteSlots(slots, added[..m], n), i, key)
    ensures i < n + m
  {
    hide FilledAt, WriteSlots;
    if n + m <= i {
      FilledLater(slots, added[..m], n, i, key);
    }
  }

  lemma {:induction false} FollowsOnKeeps(slots: Slots, added: Log, n: nat, key: Hash)
    requires n <= |slots| && FollowsOn(slots, added, n, key)
    ensures ByKey(WriteSlots(slots, added, n), key) == ByKey(slots, key) + Listed(added, key)
  {
    hide ByKey, WriteSlot, FilledAt;
    if added == [] {
      assert ByKey(slots, key) + [] == ByKey(slots, key);
    } else {
      var init, last := added[..|added| - 1], added[|added| - 1];
      FollowsOnKeeps(slots, init, n, key);
      var mid, m := WriteSlots(slots, init, n), n + |init|;
      if last.0 == key {
        forall i: nat | FilledAt(mid, i, key)
          ensures i < m
        {
          FilledBefore(slots, added, n, |init|, i, key);
        }
      }
      ByKeyAdds(mid, m, last.0, last.1, key);
      ConcatAssoc(ByKey(slots, key), Listed(init, key), if last.0 == key then [last.1] else []);
      assert ByKey(mid, key) + [] == ByKey(mid, key);
    }
  }

  lemma {:induction false} ByKeyHas(slots: Slots, i: nat, key: Hash) returns (p: nat)
    requires FilledAt(slots, i, key)
    ensures p < |ByKey(slots, key)| && ByKey(slots, key)[p] == slots[i][key]
  {
    var init := slots[..|slots| - 1];
    if i == |slots| - 1 {
      p := |ByKey(init, key)|;
    } else {
      p := ByKeyHas(init, i, key);
    }
  }

  /** A slot stands, in its key's list, before a later one. */
  lemma {:induction false} ByKeyOrder(slots: Slots, j: nat, i: nat, key: Hash) returns (p: nat, q: nat)
    requires j < i && FilledAt(slots, j, key) && FilledAt(slots, i, key)
    ensures p < q < |ByKey(slots, key)| && ByKey(slots, key)[p] == slots[j][key] && ByKey(slots, key)[q] == slots[i][key]
  {
    var init := slots[..|slots| - 1];
    if i == |slots| - 1 {
      p := ByKeyHas(init, j, key);
      q := |ByKey(init, key)|;
    } else {
      p, q := ByKeyOrder(init, j, i, key);
    }
  }

  /** No old entry of the key reads back as one of its new entries does. */
  ghost predicate ToldApart(olds: seq<Entry>, news: seq<Entry>) {
    forall a, b :: a in olds && b in news ==> Truncated(a) != Truncated(b)
  }

  lemma {:induction false} ClashCounted(slots: Slots, added: Log, n: nat, j: nat, key: Hash)
    requires j < |added| && added[j].0 == key && FilledAt(slots, n + j, key)
    ensures Clashes(slots, added, n, key) > 0
  {
    hide FilledAt;
    if j < |added| - 1 {
      ClashCounted(slots, added[..|added| - 1], n, j, key);
    }
  }

  /** A new entry before an old one cannot be the old ones followed by the new ones. */
  lemma NewBeforeOld(list: seq<Entry>, olds: seq<Entry>, news: seq<Entry>, p: nat, q: nat)
    requires ToldApart(olds, news) && p < q < |list| && list[p] in news && list[q] in olds
    ensures Reread(list) != Reread(olds) + Reread(news)
  {
    hide Truncated;
    var sum := Reread(olds) + Reread(news);
    if q < |sum| {
      if p < |olds| {
        assert sum[p] == Truncated(olds[p]) && olds[p] in olds;
        assert Reread(list)[p] == Truncated(list[p]);
      } else {
        assert sum[q] == Truncated(news[q - |olds|]) && news[q - |olds|] in news;
        assert Reread(list)[q] == Truncated(list[q]);
      }
    }
  }

  lemma OldStays(slots: Slots, added: Log, n: nat, i: nat, key: Hash)
    requires n <= |slots| && FilledAt(slots, i, key) && !(n <= i < n + |added| && added[i - n].0 == key)
    ensures FilledAt(WriteSlots(slots, added, n), i, key)
    ensures i < |WriteSlots(slots, added, n)| && key in WriteSlots(slots, added, n)[i]
    ensures WriteSlots(slots, added, n)[i][key] in ByKey(slots, key)
  {
    hide ByKey, WriteSlots;
    ReopenedSlot(slots, added, n, i, key);
    var p := ByKeyHas(slots, i, key);
  }

  lemma NewStands(slots: Slots, added: Log, n: nat, j: nat, key: Hash)
    requires n <= |slots| && j < |added| && added[j].0 == key
    ensures FilledAt(WriteSlots(slots, added, n), n + j, key)
    ensures n + j < |WriteSlots(slots, added, n)| && key in WriteSlots(slots, added, n)[n + j]
    ensures WriteSlots(slots, added, n)[n + j][key] in Listed(added, key)
  {
    hide ByKey, WriteSlots, Listed;
    ReopenedSlot(slots, added, n, n + j, key);
    ListedHas(added, j);
  }

  lemma ShorterReread(list: seq<Entry>, olds: seq<Entry>, news: seq<Entry>)
    requires |list| < |olds| + |news|
    ensures Reread(list) != Reread(olds) + Reread(news)
  {
    hide Truncated;
    assert |Reread(list)| < |Reread(olds) + Reread(news)|;
  }

  lemma NotFollowing(slots: Slots, added: Log, n: nat, key: Hash)
    requires n <= |slots| && !FollowsOn(slots, added, n, key) && ToldApart(ByKey(slots, key), Listed(added, key))
    ensures Reread(ByKey(WriteSlots(slots, added, n), key)) != Reread(ByKey(slots, key)) + Reread(Listed(added, key))
  {
    var i: nat, j: nat :| FilledAt(slots, i, key) && j < |added| && added[j].0 == key && i >= n + j;
    hide *;
    var list, olds, news := ByKey(WriteSlots(slots, added, n), key), ByKey(slots, key), Listed(added, key);
    if i < n + |added| && added[i - n].0 == key {
      ClashCounted(slots, added, n, i - n, key);
      ReopenLoses(slots, added, n, key);
      ShorterReread(list, olds, news);
    } else {
      OldStays(slots, added, n, i, key);
      NewStands(slots, added, n, j, key);
      var p, q := ByKeyOrder(WriteSlots(slots, added, n), n + j, i, key);
      NewBeforeOld(list, olds, news, p, q);
    }
  }

  lemma RereadConcat(a: seq<Entry>, b: seq<Entry>)
    ensures Reread(a + b) == Reread(a) + Reread(b)
  {
    hide Truncated;
  }

  /**
    What Get answers for a key after a run of writes from any counter: its old entries and then its new ones, if its
    new numbers follow on its old ones. They must, unless some old entry reads back as a new one does.
   */
  lemma ReopenedAnswer(kv: map<Data, Data>, slots: Slots, added: Log, n: nat, key: Hash)
    requires Stores(kv, slots) && n <= |slots| && n + |added| < U64
    ensures var answer, olds, news := DiskAnswer(WriteAll(kv, added, n), key), ByKey(slots, key), Listed(added, key);
      && DiskAnswer(kv, key) == Reread(olds)
      && (FollowsOn(slots, added, n, key) ==> answer == Reread(olds) + Reread(news))
      && (ToldApart(olds, news) ==> (answer == Reread(olds) + Reread(news) <==> FollowsOn(slots, added, n, key)))
  {
    hide *;
    var olds, news := ByKey(slots, key), Listed(added, key);
    DiskAnswers(kv, slots, key);
    StoresWriteAll(kv, slots, added, n);
    DiskAnswers(WriteAll(kv, added, n), WriteSlots(slots, added, n), key);
    if FollowsOn(slots, added, n, key) {
      FollowsOnKeeps(slots, added, n, key);
      RereadConcat(olds, news);
    } else if ToldApart(olds, news) {
      NotFollowing(slots, added, n, key);
    }
  }

  /**
    A store opened over a database that holds a log, and a run of appends on it. Reading a key then gives what its
    slots hold; the database holds the two logs end to end exactly when one of them is empty; and a key has lost
    one entry for each number under which it was written both before and after. A key whose new numbers follow on its
    old ones answers with its old entries and then its new ones.
   */
  method Reopen(db: DB, calls: seq<Call>, ghost past: Log) returns (disk: DiskStumpStore, ghost run: Log)
    requires Holds(db.kv, past) && |past| + CallsSize(calls) < U64
    modifies db
    ensures fresh(disk) && disk.db == db && disk.log == run && AddsCalls(run, calls) && |run| == CallsSize(calls)
    ensures Stores(db.kv, WriteSlots(SlotsOf(past), run, 0))
    ensures Holds(db.kv, past + run) <==> past == [] || run == []
    ensures forall key :: |ByKey(WriteSlots(SlotsOf(past), run, 0), key)| + Clashes(SlotsOf(past), run, 0, key) ==
                          |Listed(past, key)| + |Listed(run, key)|
    ensures forall key :: FollowsOn(SlotsOf(past), run, 0, key) ==>
      DiskAnswer(db.kv, key) == Reread(Listed(past, key)) + Reread(Listed(run, key))
  {
    hide *;
    ghost var kv := db.kv;
    HoldsStores(kv, past);
    disk := new DiskStumpStore(db);
    run := PerformAll(disk, calls);
    EmptyFirst(run);
    StoresWriteAll(kv, SlotsOf(past), run, 0);
    ReopenExtends(kv, past, run);
    forall key
      ensures |ByKey(WriteSlots(SlotsOf(past), run, 0), key)| + Clashes(SlotsOf(past), run, 0, key) ==
              |Listed(past, key)| + |Listed(run, key)|
    {
      ByKeyOfLog(past, key);
      ReopenLoses(SlotsOf(past), run, 0, key);
    }
    forall key | FollowsOn(SlotsOf(past), run, 0, key)
      ensures DiskAnswer(db.kv, key) == Reread(Listed(past, key)) + Reread(Listed(run, key))
    {
      ByKeyOfLog(past, key);
      ReopenedAnswer(kv, SlotsOf(past), run, 0, key);
    }
  }
}
