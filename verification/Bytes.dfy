/** Fixed-width integers as bytes, in both byte orders, and the Bitcoin VarInt. */
module Bytes {
  import opened Arith
  import opened Hashes

  type Data = seq<Byte>

  function Pow256(n: nat): (p: nat)
    ensures p > 0
  {
    if n == 0 then 1 else 256 * Pow256(n - 1)
  }

  const U32 := 0x1_0000_0000
  const U64 := 0x1_0000_0000_0000_0000

  lemma Widths()
    ensures Pow256(1) == 256 && Pow256(2) == 0x10000 && Pow256(4) == U32 && Pow256(8) == U64
  {
    assert Pow256(0) == 1;
    assert Pow256(1) == 256;
    assert Pow256(2) == 0x10000;
    assert Pow256(3) == 0x100_0000;
    assert Pow256(4) == U32;
    assert Pow256(5) == 0x100_0000_0000;
    assert Pow256(6) == 0x1_0000_0000_0000;
    assert Pow256(7) == 0x100_0000_0000_0000;
  }

  /** The low n bytes of v, least significant first: an n-byte unsigned store truncates like this. */
  function LE(v: nat, n: nat): (s: Data)
    ensures |s| == n
  {
    if n == 0 then [] else [v % 256] + LE(v / 256, n - 1)
  }

  function FromLE(s: Data): nat {
    if s == [] then 0 else s[0] + 256 * FromLE(s[1..])
  }

  lemma {:induction false} FromLEBound(s: Data)
    ensures FromLE(s) < Pow256(|s|)
  {
    if s != [] { FromLEBound(s[1..]); }
  }

  lemma Digit(d: nat, x: nat)
    requires d < 256
    ensures (d + 256 * x) % 256 == d && (d + 256 * x) / 256 == x
  {}

  lemma {:induction false} LEOfFrom(s: Data)
    ensures LE(FromLE(s), |s|) == s
  {
    if s != [] {
      LEOfFrom(s[1..]);
      Digit(s[0], FromLE(s[1..]));
      assert s == [s[0]] + s[1..];
    }
  }

  /** Reading back an n-byte store gives the value modulo 256^n. */
  lemma {:induction false} FromOfLE(v: nat, n: nat)
    ensures FromLE(LE(v, n)) <= v
    ensures FromLE(LE(v, n)) == v <==> v < Pow256(n)
  {
    FromLEBound(LE(v, n));
    if n > 0 {
      FromOfLE(v / 256, n - 1);
      var s := LE(v, n);
      assert s[0] == v % 256 && s[1..] == LE(v / 256, n - 1);
      assert v == v % 256 + 256 * (v / 256);
    }
  }

  /** The low n bytes of v, most significant first. */
  function BE(v: nat, n: nat): (s: Data)
    ensures |s| == n
  {
    if n == 0 then [] else BE(v / 256, n - 1) + [v % 256]
  }

  // ---- What each byte is -------------------------------------------------------------------------

  /** The first of n bytes is the lowest. */
  lemma {:induction false} LEAt(v: nat, n: nat, i: nat)
    requires i < n
    ensures LE(v, n)[i] == (v / Pow256(i)) % 256
  {
    if i > 0 {
      LEAt(v / 256, n - 1, i - 1);
      DivTwice(v, 256, Pow256(i - 1));
    }
  }

  /** The first of n bytes is the highest. */
  lemma {:induction false} BEAt(v: nat, n: nat, i: nat)
    requires i < n
    ensures BE(v, n)[i] == (v / Pow256(n - 1 - i)) % 256
  {
    if i < n - 1 {
      BEAt(v / 256, n - 1, i);
      DivTwice(v, 256, Pow256(n - 2 - i));
    }
  }

  /** A number read back has the bytes it was read from as its digits. */
  lemma FromLEAt(s: Data, i: nat)
    requires i < |s|
    ensures (FromLE(s) / Pow256(i)) % 256 == s[i]
  {
    LEOfFrom(s);
    LEAt(FromLE(s), |s|, i);
  }

  // ---- Byte buffers filled at a moving offset ----------------------------------------------------

  ghost predicate FilledTo(buf: seq<Byte>, off: nat, written: Data) {
    off == |written| <= |buf| && buf[..off] == written
  }

  /** A little-endian store of n bytes at off. */
  method PutLE(buf: array<Byte>, off: nat, v: nat, n: nat)
    requires off + n <= buf.Length
    modifies buf
    ensures buf[..off] == old(buf[..off])
    ensures buf[off..off + n] == LE(v, n)
    ensures buf[off + n..] == old(buf[off + n..])
    decreases n
  {
    if n > 0 {
      buf[off] := v % 256;
      PutLE(buf, off + 1, v / 256, n - 1);
      assert buf[off] == buf[..off + 1][off];
      assert buf[off..off + n] == [buf[off]] + buf[off + 1..off + n];
      assert buf[..off] == buf[..off + 1][..off];
    }
  }

  /** copy(buf[off:], data) */
  method PutBytes(buf: array<Byte>, off: nat, data: Data)
    requires off + |data| <= buf.Length
    modifies buf
    ensures buf[..off] == old(buf[..off])
    ensures buf[off..off + |data|] == data
    ensures buf[off + |data|..] == old(buf[off + |data|..])
  {
    for i := 0 to |data|
      invariant buf[..off] == old(buf[..off])
      invariant forall j :: 0 <= j < i ==> buf[off + j] == data[j]
      invariant buf[off + |data|..] == old(buf[off + |data|..])
    {
      buf[off + i] := data[i];
    }
  }

  lemma FilledStep(before: seq<Byte>, after: seq<Byte>, off: nat, written: Data, more: Data)
    requires FilledTo(before, off, written) && |after| == |before| && off + |more| <= |after|
    requires after[..off] == before[..off] && after[off..off + |more|] == more
    ensures FilledTo(after, off + |more|, written + more)
  {
    assert after[..off + |more|] == after[..off] + after[off..off + |more|];
  }

  // ---- Parts of byte strings at fixed places ------------------------------------------------------

  /** part stands in data from byte `at` on. */
  ghost predicate HasAt(data: Data, at: nat, part: Data) {
    at + |part| <= |data| && data[at..at + |part|] == part
  }

  lemma HasInFront(part: Data, rest: Data)
    ensures HasAt(part + rest, 0, part)
  {}

  lemma HasBehind(head: Data, rest: Data, at: nat, part: Data)
    requires HasAt(rest, at, part)
    ensures HasAt(head + rest, |head| + at, part)
  {
    assert (head + rest)[|head| + at..|head| + at + |part|] == rest[at..at + |part|];
  }

  lemma HasWithin(data: Data, at: nat, whole: Data, off: nat, part: Data)
    requires HasAt(data, at, whole) && HasAt(whole, off, part)
    ensures HasAt(data, at + off, part)
  {
    forall i | 0 <= i < |part|
      ensures data[at + off + i] == part[i]
    {
      assert data[at + off + i] == data[at..at + |whole|][off + i];
      assert whole[off + i] == whole[off..off + |part|][i];
    }
  }

  /** The same for a part of what follows a head of w bytes. */
  lemma HasInRest(data: Data, at: nat, whole: Data, head: Data, w: nat, rest: Data, off: nat, part: Data, here: nat)
    requires HasAt(data, at, whole) && whole == head + rest && w == |head| && HasAt(rest, off, part) && here == at + w + off
    ensures HasAt(data, here, part)
  {
    HasBehind(head, rest, off, part);
    HasWithin(data, at, whole, w + off, part);
  }

  /** A number in n bytes at `at`, the lowest byte first. */
  ghost predicate NumberAt(data: Data, at: nat, v: nat, n: nat) {
    at + n <= |data| && forall i :: 0 <= i < n ==> data[at + i] == (v / Pow256(i)) % 256
  }

  lemma NumberBy(data: Data, at: nat, v: nat, n: nat)
    requires HasAt(data, at, LE(v, n))
    ensures NumberAt(data, at, v, n)
  {
    forall i | 0 <= i < n
      ensures data[at + i] == (v / Pow256(i)) % 256
    {
      assert data[at + i] == data[at..at + n][i];
      LEAt(v, n, i);
    }
  }

  // ---- VarInt ------------------------------------------------------------------------------------

  /** Bitcoin VarInt, as writeVarInt chooses its form. */
  function VarInt(v: nat): Data {
    if v < 0xfd then [v]
    else if v < 0x10000 then [0xfd] + LE(v, 2)
    else if v < 0x1_0000_0000 then [0xfe] + LE(v, 4)
    else [0xff] + LE(v, 8)
  }

  /** Bytes after the first one, by the first byte. */
  function Extra(first: Byte): nat {
    if first < 0xfd then 0 else if first == 0xfd then 2 else if first == 0xfe then 4 else 8
  }

  /** A VarInt reader that accepts any form, and the bytes left. */
  function ReadVarInt(data: Data): Option<(nat, Data)> {
    if data == [] || |data| < 1 + Extra(data[0]) then None
    else
      var n := Extra(data[0]);
      Some((if n == 0 then data[0] else FromLE(data[1..1 + n]), data[1 + n..]))
  }

  lemma LERead(v: nat, n: nat, rest: Data, first: Byte)
    requires n == Extra(first) > 0 && v < Pow256(n)
    ensures ReadVarInt([first] + LE(v, n) + rest) == Some((v, rest))
  {
    var data := [first] + LE(v, n) + rest;
    assert data[1..1 + n] == LE(v, n) && data[1 + n..] == rest;
    FromOfLE(v, n);
  }

  lemma VarIntRoundTrip(v: nat, rest: Data)
    requires v < U64
    ensures ReadVarInt(VarInt(v) + rest) == Some((v, rest))
  {
    Widths();
    if v < 0xfd {
      assert ([v] + rest)[1..] == rest;
    } else if v < 0x10000 {
      LERead(v, 2, rest, 0xfd);
    } else if v < U32 {
      LERead(v, 4, rest, 0xfe);
    } else {
      LERead(v, 8, rest, 0xff);
    }
  }

  /**
    Its bytes: a value below 253 is one byte; otherwise 253, 254 or 255 stands for two, four or eight bytes of value,
    lowest first.
   */
  lemma VarIntBytes(v: nat)
    ensures v <= 252 ==> VarInt(v) == [v]
    ensures v > 252 ==>
      && |VarInt(v)| == (if v <= 65535 then 3 else if v <= 4294967295 then 5 else 9)
      && VarInt(v)[0] == (if v <= 65535 then 253 else if v <= 4294967295 then 254 else 255)
      && forall i :: 1 <= i < |VarInt(v)| ==> VarInt(v)[i] == (v / Pow256(i - 1)) % 256
  {
    var n := |VarInt(v)| - 1;
    forall i | v > 252 && 1 <= i <= n
      ensures VarInt(v)[i] == (v / Pow256(i - 1)) % 256
    {
      assert VarInt(v)[i] == LE(v, n)[i - 1];
      LEAt(v, n, i - 1);
    }
  }

  /** No other encoding of the same value is shorter. */
  lemma VarIntShortest(data: Data)
    requires ReadVarInt(data).Some?
    ensures var (v, rest) := ReadVarInt(data).value; |VarInt(v)| <= |data| - |rest|
  {
    Widths();
    var n := Extra(data[0]);
    FromLEBound(data[1..1 + n]);
  }

  // ---- Hashes end to end ---------------------------------------------------------------------------

  function HashBytes(hs: seq<Hash>): (data: Data)
    ensures |data| == HASH_SIZE * |hs|
  {
    if hs == [] then [] else hs[0].bytes + HashBytes(hs[1..])
  }

  /** Whole hashes only: a trailing partial hash is dropped. */
  function BytesHashes(data: Data): seq<Hash> {
    if |data| < HASH_SIZE then [] else [Hash(data[..HASH_SIZE])] + BytesHashes(data[HASH_SIZE..])
  }

  lemma {:induction false} HashesRoundTrip(hs: seq<Hash>)
    ensures BytesHashes(HashBytes(hs)) == hs
  {
    if hs != [] {
      var data := HashBytes(hs);
      assert data[..HASH_SIZE] == hs[0].bytes && data[HASH_SIZE..] == HashBytes(hs[1..]);
      HashesRoundTrip(hs[1..]);
    }
  }

  /** Hash i takes bytes 32 * i to 32 * i + 31, in its own order. */
  lemma {:induction false} HashBytesAt(hs: seq<Hash>, i: nat)
    requires i < |hs|
    ensures HasAt(HashBytes(hs), 32 * i, hs[i].bytes)
  {
    var h, rest := hs[0].bytes, HashBytes(hs[1..]);
    if i == 0 {
      HasInFront(h, rest);
    } else {
      HashBytesAt(hs[1..], i - 1);
      HasBehind(h, rest, 32 * (i - 1), hs[i].bytes);
    }
  }

  lemma {:induction false} HashBytesSnoc(hs: seq<Hash>, h: Hash)
    ensures HashBytes(hs + [h]) == HashBytes(hs) + h.bytes
  {
    if hs == [] {
      assert hs + [h] == [h] && [h][1..] == [];
    } else {
      assert (hs + [h])[1..] == hs[1..] + [h];
      HashBytesSnoc(hs[1..], h);
    }
  }

  lemma {:induction false} BytesHashesLength(data: Data)
    ensures |BytesHashes(data)| == |data| / HASH_SIZE
    decreases |data|
  {
    if |data| >= HASH_SIZE { BytesHashesLength(data[HASH_SIZE..]); }
  }

  lemma {:induction false} BytesHashesAt(data: Data, i: nat)
    requires (i + 1) * HASH_SIZE <= |data|
    ensures |BytesHashes(data)| == |data| / HASH_SIZE
    ensures BytesHashes(data)[i] == Hash(data[i * HASH_SIZE..(i + 1) * HASH_SIZE])
  {
    var rest := data[HASH_SIZE..];
    if i > 0 {
      BytesHashesAt(rest, i - 1);
      assert rest[(i - 1) * HASH_SIZE..i * HASH_SIZE] == data[i * HASH_SIZE..(i + 1) * HASH_SIZE];
    } else {
      BytesHashesLength(data);
    }
  }

  // ---- What stands at a place, read back -----------------------------------------------------------

  /** Reading n bytes gives the one number that stands there. */
  lemma NumberIff(data: Data, at: nat, v: nat, n: nat)
    requires at + n <= |data|
    ensures FromLE(data[at..at + n]) == v <==> NumberAt(data, at, v, n) && v < Pow256(n)
  {
    var s := data[at..at + n];
    if FromLE(s) == v {
      LEOfFrom(s);
      FromLEBound(s);
      NumberBy(data, at, v, n);
    }
    if NumberAt(data, at, v, n) && v < Pow256(n) {
      forall i | 0 <= i < n
        ensures s[i] == LE(v, n)[i]
      {
        assert s[i] == data[at + i];
        LEAt(v, n, i);
      }
      assert s == LE(v, n);
      FromOfLE(v, n);
    }
  }

  lemma SubRange(data: Data, at: nat, n: nat, off: nat, m: nat)
    requires at + n <= |data| && off + m <= n
    ensures data[at..at + n][off..off + m] == data[at + off..at + off + m]
  {
    var part := data[at..at + n];
    var a, b := part[off..off + m], data[at + off..at + off + m];
    forall i | 0 <= i < m
      ensures a[i] == b[i]
    {
      assert a[i] == part[off + i];
    }
  }

  lemma HashAt(data: Data, at: nat, h: Hash)
    requires at + 32 <= |data|
    ensures Hash(data[at..at + 32]) == h <==> HasAt(data, at, h.bytes)
  {}

  lemma HashReadAt(data: Data, at: nat, n: nat, i: nat, h: Hash)
    requires at + 32 * n <= |data| && i < n
    ensures |BytesHashes(data[at..at + 32 * n])| == n
    ensures BytesHashes(data[at..at + 32 * n])[i] == h <==> HasAt(data, at + 32 * i, h.bytes)
  {
    BytesHashesAt(data[at..at + 32 * n], i);
    SubRange(data, at, 32 * n, 32 * i, 32);
    HashAt(data, at + 32 * i, h);
    hide BytesHashes, HasAt;
  }

  /** Reading n hashes gives the ones that stand there, 32 bytes each. */
  lemma HashesIff(data: Data, at: nat, hs: seq<Hash>, n: nat)
    requires at + 32 * n <= |data|
    ensures BytesHashes(data[at..at + 32 * n]) == hs <==>
            |hs| == n && forall i :: 0 <= i < |hs| ==> HasAt(data, at + 32 * i, hs[i].bytes)
  {
    BytesHashesLength(data[at..at + 32 * n]);
    hide BytesHashes, HasAt;
    forall i | 0 <= i < n && i < |hs|
      ensures BytesHashes(data[at..at + 32 * n])[i] == hs[i] <==> HasAt(data, at + 32 * i, hs[i].bytes)
    {
      HashReadAt(data, at, n, i, hs[i]);
    }
  }
}
