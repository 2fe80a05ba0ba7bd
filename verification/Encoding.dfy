/** Byte forms of stump entries, lists of entries and lists of hashes. */
module Encoding {
  import opened Arith
  import opened Hashes
  import opened Bytes

  /** One proof entry: a txid, its positions and its sibling path. Positions are Go ints. */
  datatype Entry = Entry(txid: Hash, subtreeIdx: int, localIdx: int, globalIdx: int, siblings: seq<Hash>)

  const HEADER_SIZE := HASH_SIZE + 16

  // ---- One entry -----------------------------------------------------------------------------------

  /** The conversion to uint32. */
  function Low32(x: int): (r: nat)
    ensures r < U32
  {
    x % U32
  }

  function Header(e: Entry): (data: Data)
    ensures |data| == HEADER_SIZE
  {
    e.txid.bytes + LE(Low32(e.subtreeIdx), 4) + LE(Low32(e.localIdx), 4) + LE(Low32(e.globalIdx), 4) + LE(|e.siblings|, 4)
  }

  function EntryBytes(e: Entry): (data: Data)
    ensures |data| == HEADER_SIZE + HASH_SIZE * |e.siblings|
  {
    Header(e) + HashBytes(e.siblings)
  }

  /**
    Where everything is: the txid first, then four numbers of four bytes each, the lowest byte first (subtree, local and
    global index modulo 2^32, and the count of siblings), then the siblings from byte 48 on.
   */
  lemma EntryLayout(e: Entry)
    ensures HasAt(EntryBytes(e), 0, e.txid.bytes)
    ensures NumberAt(EntryBytes(e), 32, e.subtreeIdx % 0x1_0000_0000, 4) && NumberAt(EntryBytes(e), 36, e.localIdx % 0x1_0000_0000, 4)
    ensures NumberAt(EntryBytes(e), 40, e.globalIdx % 0x1_0000_0000, 4) && NumberAt(EntryBytes(e), 44, |e.siblings|, 4)
    ensures forall j :: 0 <= j < |e.siblings| ==> HasAt(EntryBytes(e), 48 + 32 * j, e.siblings[j].bytes)
  {
    var data := EntryBytes(e);
    hide LE, HashBytes, NumberAt;
    assert data[32..36] == LE(Low32(e.subtreeIdx), 4) && data[36..40] == LE(Low32(e.localIdx), 4);
    assert data[40..44] == LE(Low32(e.globalIdx), 4) && data[44..48] == LE(|e.siblings|, 4);
    NumberBy(data, 32, Low32(e.subtreeIdx), 4);
    NumberBy(data, 36, Low32(e.localIdx), 4);
    NumberBy(data, 40, Low32(e.globalIdx), 4);
    NumberBy(data, 44, |e.siblings|, 4);
    forall j | 0 <= j < |e.siblings|
      ensures HasAt(data, 48 + 32 * j, e.siblings[j].bytes)
    {
      HashBytesAt(e.siblings, j);
      HasBehind(Header(e), HashBytes(e.siblings), 32 * j, e.siblings[j].bytes);
    }
  }

  /** The sibling count a header states. */
  function Siblings(data: Data): nat
    requires |data| >= HEADER_SIZE
  {
    FromLE(data[HASH_SIZE + 12..HEADER_SIZE])
  }

  /** Reads a header and as many whole siblings as it states; bytes past them are ignored. */
  function ParseEntry(data: Data): Result<Entry> {
    if |data| < HEADER_SIZE then Failure("entry data too short")
    else
      var need := HEADER_SIZE + Siblings(data) * HASH_SIZE;
      if |data| < need then Failure("siblings missing")
      else
        Success(Entry(Hash(data[..HASH_SIZE]), FromLE(data[HASH_SIZE..HASH_SIZE + 4]), FromLE(data[HASH_SIZE + 4..HASH_SIZE + 8]),
                      FromLE(data[HASH_SIZE + 8..HASH_SIZE + 12]), BytesHashes(data[HEADER_SIZE..need])))
  }

  ghost predicate FieldAt(data: Data, at: nat, x: int) {
    0 <= x < 0x1_0000_0000 && NumberAt(data, at, x, 4)
  }

  /** e stands at the front of data: txid, fields and count of siblings in the first 48 bytes, then the siblings. */
  ghost predicate EntryStands(data: Data, e: Entry) {
    && HasAt(data, 0, e.txid.bytes)
    && FieldAt(data, 32, e.subtreeIdx) && FieldAt(data, 36, e.localIdx) && FieldAt(data, 40, e.globalIdx)
    && FieldAt(data, 44, |e.siblings|)
    && (forall j :: 0 <= j < |e.siblings| ==> HasAt(data, 48 + 32 * j, e.siblings[j].bytes))
  }

  lemma FieldIff(data: Data, at: nat, x: int)
    requires at + 4 <= |data|
    ensures FromLE(data[at..at + 4]) == x <==> FieldAt(data, at, x)
  {
    Widths();
    if x >= 0 { NumberIff(data, at, x, 4); }
  }

  lemma LastSibling(data: Data, hs: seq<Hash>)
    requires |data| >= 48 && forall j :: 0 <= j < |hs| ==> HasAt(data, 48 + 32 * j, hs[j].bytes)
    ensures |data| >= 48 + 32 * |hs|
  {
    if hs != [] { assert HasAt(data, 48 + 32 * (|hs| - 1), hs[|hs| - 1].bytes); }
  }

  /** Exactly what the parser accepts, and as what: the entry that stands at the front, whatever follows it. */
  lemma ParseEntryIff(data: Data, e: Entry)
    ensures ParseEntry(data) == Success(e) <==> EntryStands(data, e)
  {
    if |data| >= 48 {
      var n := Siblings(data);
      HashAt(data, 0, e.txid);
      FieldIff(data, 32, e.subtreeIdx);
      FieldIff(data, 36, e.localIdx);
      FieldIff(data, 40, e.globalIdx);
      FieldIff(data, 44, |e.siblings|);
      if |data| >= 48 + 32 * n {
        HashesIff(data, 48, e.siblings, n);
      } else if EntryStands(data, e) {
        LastSibling(data, e.siblings);
      }
    }
  }

  /** Every field fits the four bytes it is stored in. */
  predicate EntryFits(e: Entry) {
    0 <= e.subtreeIdx < U32 && 0 <= e.localIdx < U32 && 0 <= e.globalIdx < U32 && |e.siblings| < U32
  }

  /** What survives of an entry: its fields modulo 2^32, and that many siblings. */
  function Truncated(e: Entry): Entry {
    Entry(e.txid, Low32(e.subtreeIdx), Low32(e.localIdx), Low32(e.globalIdx), e.siblings[..Low32(|e.siblings|)])
  }

  lemma {:induction false} TakeHashes(hs: seq<Hash>, n: nat)
    requires n <= |hs|
    ensures HashBytes(hs)[..n * HASH_SIZE] == HashBytes(hs[..n])
  {
    if n > 0 {
      TakeHashes(hs[1..], n - 1);
      assert hs[..n][1..] == hs[1..][..n - 1];
      var data, rest := HashBytes(hs), HashBytes(hs[1..]);
      assert data[..n * HASH_SIZE] == hs[0].bytes + rest[..(n - 1) * HASH_SIZE];
    }
  }

  lemma ModUnique(v: nat, m: nat, q: nat, r: nat)
    requires m > 0 && v == q * m + r && r < m
    ensures v % m == r
  {
    assert v == (v / m) * m + v % m;
    SplitUnique(q, r, v / m, v % m, m);
  }

  lemma ModTwice(v: nat, p: nat)
    requires p > 0
    ensures v % 256 + 256 * ((v / 256) % p) == v % (256 * p)
  {
    var q, r := v / 256 / p, (v / 256) % p;
    assert v / 256 == q * p + r;
    assert v == 256 * (q * p + r) + v % 256;
    assert 256 * (q * p) == q * (256 * p);
    assert 0 <= 256 * r + v % 256 < 256 * p;
    ModUnique(v, 256 * p, q, 256 * r + v % 256);
  }

  lemma {:induction false} LowBytes(v: nat, n: nat)
    ensures FromLE(LE(v, n)) == v % Pow256(n)
  {
    if n > 0 {
      LowBytes(v / 256, n - 1);
      var s := LE(v, n);
      assert s[0] == v % 256 && s[1..] == LE(v / 256, n - 1);
      ModTwice(v, Pow256(n - 1));
    }
  }

  lemma Low32Bytes(v: nat)
    ensures FromLE(LE(v, 4)) == Low32(v)
  {
    Widths();
    LowBytes(v, 4);
  }

  lemma HeaderParts(data: Data, e: Entry, rest: Data)
    requires data == Header(e) + rest
    ensures data[..HASH_SIZE] == e.txid.bytes
    ensures data[HASH_SIZE..HASH_SIZE + 4] == LE(Low32(e.subtreeIdx), 4)
    ensures data[HASH_SIZE + 4..HASH_SIZE + 8] == LE(Low32(e.localIdx), 4)
    ensures data[HASH_SIZE + 8..HASH_SIZE + 12] == LE(Low32(e.globalIdx), 4)
    ensures data[HASH_SIZE + 12..HEADER_SIZE] == LE(|e.siblings|, 4)
    ensures data[HEADER_SIZE..] == rest
  {
    hide LE, Low32;
  }

  lemma ParseParts(data: Data, e: Entry, n: nat)
    requires |data| >= HEADER_SIZE + n * HASH_SIZE && Siblings(data) == n
    requires data[..HASH_SIZE] == e.txid.bytes && FromLE(data[HASH_SIZE..HASH_SIZE + 4]) == e.subtreeIdx
    requires FromLE(data[HASH_SIZE + 4..HASH_SIZE + 8]) == e.localIdx && FromLE(data[HASH_SIZE + 8..HASH_SIZE + 12]) == e.globalIdx
    requires BytesHashes(data[HEADER_SIZE..HEADER_SIZE + n * HASH_SIZE]) == e.siblings
    ensures ParseEntry(data) == Success(e)
  {
    hide FromLE, BytesHashes, Siblings;
  }

  lemma SiblingsRead(data: Data, n: nat, hs: seq<Hash>)
    requires n <= |hs| && |data| >= HEADER_SIZE && data[HEADER_SIZE..] == HashBytes(hs)
    ensures HEADER_SIZE + n * HASH_SIZE <= |data|
    ensures BytesHashes(data[HEADER_SIZE..HEADER_SIZE + n * HASH_SIZE]) == hs[..n]
  {
    TakeHashes(hs, n);
    HashesRoundTrip(hs[..n]);
    hide HashBytes, BytesHashes;
    assert data[HEADER_SIZE..HEADER_SIZE + n * HASH_SIZE] == data[HEADER_SIZE..][..n * HASH_SIZE];
  }

  lemma LowTwice(x: int)
    ensures Low32(Low32(x)) == Low32(x)
  {}

  lemma FieldsRead(e: Entry)
    ensures var data, t := EntryBytes(e), Truncated(e);
      && data[..HASH_SIZE] == t.txid.bytes && FromLE(data[HASH_SIZE..HASH_SIZE + 4]) == t.subtreeIdx
      && FromLE(data[HASH_SIZE + 4..HASH_SIZE + 8]) == t.localIdx && FromLE(data[HASH_SIZE + 8..HASH_SIZE + 12]) == t.globalIdx
      && Siblings(data) == Low32(|e.siblings|) && data[HEADER_SIZE..] == HashBytes(e.siblings)
  {
    var data := EntryBytes(e);
    assert data == Header(e) + HashBytes(e.siblings);
    LowTwice(e.subtreeIdx);
    LowTwice(e.localIdx);
    LowTwice(e.globalIdx);
    hide FromLE, LE, HashBytes, Header, EntryBytes, Low32;
    HeaderParts(data, e, HashBytes(e.siblings));
    Low32Bytes(Low32(e.subtreeIdx));
    Low32Bytes(Low32(e.localIdx));
    Low32Bytes(Low32(e.globalIdx));
    Low32Bytes(|e.siblings|);
  }

  lemma TruncatedFacts(e: Entry)
    ensures Low32(|e.siblings|) <= |e.siblings| && Truncated(e).siblings == e.siblings[..Low32(|e.siblings|)]
    ensures Truncated(e) == e <==> EntryFits(e)
  {
    var n := |e.siblings|;
    assert e.siblings[..n] == e.siblings;
  }

  /** A marshalled entry always reads back, as what survives of it. */
  lemma EntryReads(e: Entry)
    ensures ParseEntry(EntryBytes(e)) == Success(Truncated(e))
  {
    hide *;
    FieldsRead(e);
    TruncatedFacts(e);
    SiblingsRead(EntryBytes(e), Low32(|e.siblings|), e.siblings);
    ParseParts(EntryBytes(e), Truncated(e), Low32(|e.siblings|));
  }

  /** Entries round-trip exactly when their fields fit four bytes. */
  lemma EntryRoundTrip(e: Entry)
    ensures ParseEntry(EntryBytes(e)) == Success(e) <==> EntryFits(e)
  {
    hide *;
    EntryReads(e);
    TruncatedFacts(e);
  }

  lemma {:induction false} HashBytesBack(data: Data, n: nat)
    requires |data| == n * HASH_SIZE
    ensures HashBytes(BytesHashes(data)) == data && |BytesHashes(data)| == n
    decreases n
  {
    if n > 0 {
      HashBytesBack(data[HASH_SIZE..], n - 1);
      assert BytesHashes(data)[1..] == BytesHashes(data[HASH_SIZE..]);
      assert data == data[..HASH_SIZE] + data[HASH_SIZE..];
    }
  }

  lemma FiveParts(data: Data)
    requires |data| >= HEADER_SIZE
    ensures data[..HEADER_SIZE] == data[..HASH_SIZE] + data[HASH_SIZE..HASH_SIZE + 4] + data[HASH_SIZE + 4..HASH_SIZE + 8]
                                   + data[HASH_SIZE + 8..HASH_SIZE + 12] + data[HASH_SIZE + 12..HEADER_SIZE]
  {}

  lemma Field(s: Data)
    requires |s| == 4
    ensures FromLE(s) < U32 && Low32(FromLE(s)) == FromLE(s) && LE(FromLE(s), 4) == s
  {
    Widths();
    FromLEBound(s);
    LEOfFrom(s);
  }

  lemma HeaderBack(data: Data, e: Entry)
    requires |data| >= HEADER_SIZE && |e.siblings| == Siblings(data) && data[..HASH_SIZE] == e.txid.bytes
    requires FromLE(data[HASH_SIZE..HASH_SIZE + 4]) == e.subtreeIdx && FromLE(data[HASH_SIZE + 4..HASH_SIZE + 8]) == e.localIdx
    requires FromLE(data[HASH_SIZE + 8..HASH_SIZE + 12]) == e.globalIdx
    ensures Header(e) == data[..HEADER_SIZE]
  {
    Field(data[HASH_SIZE..HASH_SIZE + 4]);
    Field(data[HASH_SIZE + 4..HASH_SIZE + 8]);
    Field(data[HASH_SIZE + 8..HASH_SIZE + 12]);
    Field(data[HASH_SIZE + 12..HEADER_SIZE]);
    hide FromLE, LE;
    FiveParts(data);
  }

  /** Accepted data is its entry's marshalled form exactly when nothing follows the last sibling. */
  lemma EntryBytesRoundTrip(data: Data)
    requires ParseEntry(data).Success?
    ensures EntryBytes(ParseEntry(data).value) == data <==> |data| == HEADER_SIZE + Siblings(data) * HASH_SIZE
  {
    var e, n := ParseEntry(data).value, Siblings(data);
    var need := HEADER_SIZE + n * HASH_SIZE;
    HashBytesBack(data[HEADER_SIZE..need], n);
    HeaderBack(data, e);
    hide FromLE, LE, BytesHashes, HashBytes, Header, Siblings;
    assert EntryBytes(e) == data[..HEADER_SIZE] + data[HEADER_SIZE..need] == data[..need];
  }

  lemma NoHashes(header: Data)
    ensures header + HashBytes([]) == header
  {}

  lemma Complete(buf: seq<Byte>, off: nat, written: Data)
    requires FilledTo(buf, off, written) && |written| == |buf|
    ensures buf == written
  {
    assert buf[..off] == buf;
  }

  method PutHeader(buf: array<Byte>, e: Entry)
    requires buf.Length >= HEADER_SIZE
    modifies buf
    ensures FilledTo(buf[..], HEADER_SIZE, Header(e))
  {
    hide LE, Low32;
    var off := 0;
    PutBytes(buf, off, e.txid.bytes);
    off := off + HASH_SIZE;
    ghost var b1 := buf[..];
    assert FilledTo(b1, off, e.txid.bytes) by { assert b1[..off] == e.txid.bytes; }
    hide FilledTo;
    PutLE(buf, off, Low32(e.subtreeIdx), 4);
    ghost var b2 := buf[..];
    FilledStep(b1, b2, off, e.txid.bytes, LE(Low32(e.subtreeIdx), 4));
    off := off + 4;
    PutLE(buf, off, Low32(e.localIdx), 4);
    ghost var b3 := buf[..];
    FilledStep(b2, b3, off, e.txid.bytes + LE(Low32(e.subtreeIdx), 4), LE(Low32(e.localIdx), 4));
    off := off + 4;
    PutLE(buf, off, Low32(e.globalIdx), 4);
    ghost var b4 := buf[..];
    FilledStep(b3, b4, off, e.txid.bytes + LE(Low32(e.subtreeIdx), 4) + LE(Low32(e.localIdx), 4), LE(Low32(e.globalIdx), 4));
    off := off + 4;
    PutLE(buf, off, |e.siblings|, 4);
    FilledStep(b4, buf[..], off,
               e.txid.bytes + LE(Low32(e.subtreeIdx), 4) + LE(Low32(e.localIdx), 4) + LE(Low32(e.globalIdx), 4), LE(|e.siblings|, 4));
  }

  lemma HashSnoc(head: Data, hs: seq<Hash>, i: nat)
    requires i < |hs|
    ensures head + HashBytes(hs[..i]) + hs[i].bytes == head + HashBytes(hs[..i + 1])
  {
    hide HashBytes;
    assert hs[..i + 1] == hs[..i] + [hs[i]];
    HashBytesSnoc(hs[..i], hs[i]);
    var a, b := HashBytes(hs[..i]), hs[i].bytes;
    assert head + a + b == head + (a + b);
  }

  method MarshalEntry(e: Entry) returns (data: Data)
    ensures data == EntryBytes(e)
  {
    hide LE, HashBytes, Header, Low32;
    var numSiblings := |e.siblings|;
    var buf := new Byte[HASH_SIZE + 4 + 4 + 4 + 4 + HASH_SIZE * numSiblings];
    PutHeader(buf, e);
    var off := HEADER_SIZE;
    assert e.siblings[..0] == [];
    NoHashes(Header(e));
    var i := 0;
    while i < |e.siblings|
      invariant 0 <= i <= |e.siblings| && off == HEADER_SIZE + i * HASH_SIZE
      invariant FilledTo(buf[..], off, Header(e) + HashBytes(e.siblings[..i]))
    {
      ghost var before := buf[..];
      ghost var written := Header(e) + HashBytes(e.siblings[..i]);
      PutBytes(buf, off, e.siblings[i].bytes);
      FilledStep(before, buf[..], off, written, e.siblings[i].bytes);
      HashSnoc(Header(e), e.siblings, i);
      off := off + HASH_SIZE;
      i := i + 1;
    }
    assert e.siblings[..i] == e.siblings;
    Complete(buf[..], off, EntryBytes(e));
    data := buf[..];
  }

  lemma SubSlice(data: Data, a: nat, b: nat, x: nat, y: nat)
    requires a <= b <= |data| && x <= y <= b - a
    ensures data[a..b][x..y] == data[a + x..a + y]
  {
    var s, t := data[a..b][x..y], data[a + x..a + y];
    assert |s| == |t|;
    forall k | 0 <= k < |s|
      ensures s[k] == t[k]
    {
      assert s[k] == data[a..b][x + k] == data[a + (x + k)];
      assert t[k] == data[(a + x) + k];
    }
  }

  lemma PartAt(data: Data, off: nat, count: nat, i: nat)
    requires i < count && off + count * HASH_SIZE <= |data|
    ensures off + i * HASH_SIZE <= off + (i + 1) * HASH_SIZE <= |data|
    ensures var tail := data[off..off + count * HASH_SIZE];
      && (i + 1) * HASH_SIZE <= |tail|
      && data[off + i * HASH_SIZE..off + (i + 1) * HASH_SIZE] == tail[i * HASH_SIZE..(i + 1) * HASH_SIZE]
  {
    MulStep(i, count, HASH_SIZE);
    SubSlice(data, off, off + count * HASH_SIZE, i * HASH_SIZE, (i + 1) * HASH_SIZE);
  }

  /** The decode loops: `count` hashes from off. */
  method ReadHashes(data: Data, off: nat, count: nat) returns (hashes: seq<Hash>)
    requires off + count * HASH_SIZE <= |data|
    ensures hashes == BytesHashes(data[off..off + count * HASH_SIZE])
  {
    hide BytesHashes;
    ghost var tail := data[off..off + count * HASH_SIZE];
    BytesHashesLength(tail);
    hashes := [];
    for i := 0 to count
      invariant |hashes| == i
      invariant forall j :: 0 <= j < i ==> hashes[j] == BytesHashes(tail)[j]
    {
      PartAt(data, off, count, i);
      BytesHashesAt(tail, i);
      hashes := hashes + [Hash(data[off + i * HASH_SIZE..off + (i + 1) * HASH_SIZE])];
    }
  }

  method UnmarshalEntry(data: Data) returns (r: Result<Entry>)
    ensures r == ParseEntry(data)
  {
    hide FromLE;
    if |data| < HEADER_SIZE {
      return Failure("entry data too short");
    }
    var off := 0;
    var txid := Hash(data[off..off + HASH_SIZE]);
    off := off + HASH_SIZE;
    var subtreeIdx := FromLE(data[off..off + 4]);
    off := off + 4;
    var localIdx := FromLE(data[off..off + 4]);
    off := off + 4;
    var globalIdx := FromLE(data[off..off + 4]);
    off := off + 4;
    var numSiblings := FromLE(data[off..off + 4]);
    off := off + 4;
    var need := off + numSiblings * HASH_SIZE;
    if |data| < need {
      return Failure("siblings missing");
    }
    var siblings := ReadHashes(data, off, numSiblings);
    r := Success(Entry(txid, subtreeIdx, localIdx, globalIdx, siblings));
  }

  // ---- Lists of hashes -----------------------------------------------------------------------------

  function HashListBytes(hs: seq<Hash>): Data {
    LE(|hs|, 4) + HashBytes(hs)
  }

  /** The count in four bytes, then hash i at byte 4 + 32 * i. */
  lemma HashListLayout(hs: seq<Hash>)
    ensures NumberAt(HashListBytes(hs), 0, |hs|, 4)
    ensures forall i :: 0 <= i < |hs| ==> HasAt(HashListBytes(hs), 4 + 32 * i, hs[i].bytes)
  {
    hide LE, HashBytes, NumberAt;
    HasInFront(LE(|hs|, 4), HashBytes(hs));
    NumberBy(HashListBytes(hs), 0, |hs|, 4);
    forall i | 0 <= i < |hs|
      ensures HasAt(HashListBytes(hs), 4 + 32 * i, hs[i].bytes)
    {
      HashBytesAt(hs, i);
      HasBehind(LE(|hs|, 4), HashBytes(hs), 32 * i, hs[i].bytes);
    }
  }

  function ParseHashList(data: Data): Result<seq<Hash>> {
    if |data| < 4 then Failure("hashes data too short")
    else
      var need := 4 + FromLE(data[..4]) * HASH_SIZE;
      if |data| < need then Failure("hashes missing") else Success(BytesHashes(data[4..need]))
  }

  /** hs stands at the front of data: the count in four bytes, then the hashes. */
  ghost predicate HashListStands(data: Data, hs: seq<Hash>) {
    FieldAt(data, 0, |hs|) && forall i :: 0 <= i < |hs| ==> HasAt(data, 4 + 32 * i, hs[i].bytes)
  }

  lemma LastHash(data: Data, hs: seq<Hash>)
    requires |data| >= 4 && forall j :: 0 <= j < |hs| ==> HasAt(data, 4 + 32 * j, hs[j].bytes)
    ensures |data| >= 4 + 32 * |hs|
  {
    if hs != [] { assert HasAt(data, 4 + 32 * (|hs| - 1), hs[|hs| - 1].bytes); }
  }

  /** Exactly what the parser of hash lists accepts, and as what. */
  lemma ParseHashListIff(data: Data, hs: seq<Hash>)
    ensures ParseHashList(data) == Success(hs) <==> HashListStands(data, hs)
  {
    if |data| >= 4 {
      var n := FromLE(data[..4]);
      assert data[..4] == data[0..4];
      FieldIff(data, 0, |hs|);
      if |data| >= 4 + 32 * n {
        HashesIff(data, 4, hs, n);
      } else if HashListStands(data, hs) {
        LastHash(data, hs);
      }
    }
  }

  /** Lists of hashes round-trip exactly when the count fits four bytes. */
  lemma HashListRoundTrip(hs: seq<Hash>)
    ensures ParseHashList(HashListBytes(hs)) == Success(hs) <==> |hs| < U32
  {
    var data, n := HashListBytes(hs), Low32(|hs|);
    assert data[..4] == LE(|hs|, 4) && data[4..] == HashBytes(hs);
    Low32Bytes(|hs|);
    var need := 4 + n * HASH_SIZE;
    hide LE, FromLE, HashBytes, BytesHashes;
    assert need <= |data| && data[4..need] == data[4..][..n * HASH_SIZE];
    TakeHashes(hs, n);
    HashesRoundTrip(hs[..n]);
    if n == |hs| { assert hs[..n] == hs; }
  }

  lemma HashListBytesRoundTrip(data: Data)
    requires ParseHashList(data).Success?
    ensures HashListBytes(ParseHashList(data).value) == data <==> |data| == 4 + FromLE(data[..4]) * HASH_SIZE
  {
    var n := FromLE(data[..4]);
    var need := 4 + n * HASH_SIZE;
    HashBytesBack(data[4..need], n);
    Field(data[..4]);
    hide LE, FromLE, HashBytes, BytesHashes;
    assert data[..4] + data[4..need] == data[..need];
  }

  method MarshalHashes(hashes: seq<Hash>) returns (data: Data)
    ensures data == HashListBytes(hashes)
  {
    hide LE, HashBytes;
    var buf := new Byte[4 + HASH_SIZE * |hashes|];
    PutLE(buf, 0, |hashes|, 4);
    assert hashes[..0] == [] && buf[..4] == buf[0..4];
    NoHashes(LE(|hashes|, 4));
    var i := 0;
    while i < |hashes|
      invariant 0 <= i <= |hashes|
      invariant FilledTo(buf[..], 4 + i * HASH_SIZE, LE(|hashes|, 4) + HashBytes(hashes[..i]))
    {
      ghost var before := buf[..];
      PutBytes(buf, 4 + i * HASH_SIZE, hashes[i].bytes);
      FilledStep(before, buf[..], 4 + i * HASH_SIZE, LE(|hashes|, 4) + HashBytes(hashes[..i]), hashes[i].bytes);
      HashSnoc(LE(|hashes|, 4), hashes, i);
      i := i + 1;
    }
    assert hashes[..i] == hashes;
    Complete(buf[..], 4 + i * HASH_SIZE, HashListBytes(hashes));
    data := buf[..];
  }

  method UnmarshalHashes(data: Data) returns (r: Result<seq<Hash>>)
    ensures r == ParseHashList(data)
  {
    hide FromLE;
    if |data| < 4 {
      return Failure("hashes data too short");
    }
    var count := FromLE(data[..4]);
    var need := 4 + count * HASH_SIZE;
    if |data| < need {
      return Failure("hashes missing");
    }
    var hashes := ReadHashes(data, 4, count);
    r := Success(hashes);
  }
}
