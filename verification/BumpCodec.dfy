/** The BRC-74 binary form of a compound path: the serializer, and an independent reader of the format. */
module BumpCodec {
  import opened Hashes
  import opened Bytes
  import opened Bump
  import opened FragmentCodec
  import opened Sorting

  function WireEntry(e: Entry): Data {
    VarInt(e.offset) + ([Flag(e.txid)] + e.hash.bytes)
  }

  function WireEntries(lev: Level): Data {
    if lev == [] then [] else WireEntry(lev[0]) + WireEntries(lev[1..])
  }

  function WireLevel(lev: Level): Data {
    VarInt(|lev|) + WireEntries(lev)
  }

  function WireLevels(path: Path): Data {
    if path == [] then [] else WireLevel(path[0]) + WireLevels(path[1..])
  }

  /** Block height, one byte of tree height, then each level behind its count. */
  function BumpBytes(blockHeight: nat, path: Path): Data {
    VarInt(blockHeight) + ([|path| % 256] + WireLevels(path))
  }

  // ---- Layout --------------------------------------------------------------------------------------

  /** How many bytes a VarInt takes. */
  function Width(v: nat): nat {
    if v <= 252 then 1 else if v <= 65535 then 3 else if v <= 4294967295 then 5 else 9
  }

  lemma WidthIs(v: nat)
    ensures |VarInt(v)| == Width(v)
  {
    VarIntBytes(v);
  }

  /** Where entry i of a level starts behind its count: each earlier one takes its offset, a flag byte and a hash. */
  function EntryAt(lev: Level, i: nat): nat
    requires i <= |lev|
  {
    if i == 0 then 0 else EntryAt(lev, i - 1) + Width(lev[i - 1].offset) + 33
  }

  /** Where level k starts: behind the block height, the byte of tree height, and the earlier levels. */
  function LevelAt(blockHeight: nat, path: Path, k: nat): nat
    requires k <= |path|
  {
    if k == 0 then Width(blockHeight) + 1
    else LevelAt(blockHeight, path, k - 1) + Width(|path[k - 1]|) + EntryAt(path[k - 1], |path[k - 1]|)
  }

  lemma {:induction false} EntryAtTail(lev: Level, i: nat)
    requires 0 < i <= |lev|
    ensures EntryAt(lev, i) == Width(lev[0].offset) + 33 + EntryAt(lev[1..], i - 1)
  {
    hide Width;
    if i > 1 { EntryAtTail(lev, i - 1); }
  }

  lemma WireEntrySize(e: Entry)
    ensures |WireEntry(e)| == Width(e.offset) + 33
  {
    WidthIs(e.offset);
    hide VarInt, Width;
  }

  lemma {:induction false} WireEntriesSize(lev: Level)
    ensures |WireEntries(lev)| == EntryAt(lev, |lev|)
  {
    hide WireEntry, Width;
    if lev != [] {
      WireEntriesSize(lev[1..]);
      EntryAtTail(lev, |lev|);
      WireEntrySize(lev[0]);
    }
  }

  lemma {:induction false} WireEntryHasAt(lev: Level, i: nat)
    requires i < |lev|
    ensures HasAt(WireEntries(lev), EntryAt(lev, i), WireEntry(lev[i]))
  {
    var head, rest := WireEntry(lev[0]), WireEntries(lev[1..]);
    hide WireEntry, Width;
    if i == 0 {
      HasInFront(head, rest);
    } else {
      WireEntryHasAt(lev[1..], i - 1);
      EntryAtTail(lev, i);
      WireEntrySize(lev[0]);
      HasBehind(head, rest, EntryAt(lev[1..], i - 1), WireEntry(lev[i]));
    }
  }

  lemma {:induction false} LevelAtTail(blockHeight: nat, path: Path, k: nat)
    requires 0 < k <= |path|
    ensures LevelAt(blockHeight, path, k) ==
            Width(|path[0]|) + EntryAt(path[0], |path[0]|) + LevelAt(blockHeight, path[1..], k - 1)
  {
    hide Width, EntryAt;
    if k > 1 { LevelAtTail(blockHeight, path, k - 1); }
  }

  lemma WireLevelSize(lev: Level)
    ensures |WireLevel(lev)| == Width(|lev|) + EntryAt(lev, |lev|)
  {
    WidthIs(|lev|);
    WireEntriesSize(lev);
    hide VarInt, Width, EntryAt, WireEntries;
  }

  lemma LevelAtFirst(blockHeight: nat, path: Path)
    ensures LevelAt(blockHeight, path, 0) == Width(blockHeight) + 1
  {}

  lemma WireLevelsIs(path: Path)
    requires path != []
    ensures WireLevels(path) == WireLevel(path[0]) + WireLevels(path[1..])
  {}

  lemma WireLevelsRest(path: Path, off: nat, part: Data)
    requires path != [] && HasAt(WireLevels(path[1..]), off, part)
    ensures HasAt(WireLevels(path), |WireLevel(path[0])| + off, part)
  {
    var head, rest := WireLevel(path[0]), WireLevels(path[1..]);
    hide *;
    WireLevelsIs(path);
    HasBehind(head, rest, off, part);
  }

  lemma {:induction false} WireLevelHasAt(blockHeight: nat, path: Path, k: nat)
    requires k < |path|
    ensures LevelAt(blockHeight, path, k) >= Width(blockHeight) + 1
    ensures HasAt(WireLevels(path), LevelAt(blockHeight, path, k) - Width(blockHeight) - 1, WireLevel(path[k]))
  {
    hide *;
    if k == 0 {
      LevelAtFirst(blockHeight, path);
      WireLevelsIs(path);
      HasInFront(WireLevel(path[0]), WireLevels(path[1..]));
    } else {
      WireLevelHasAt(blockHeight, path[1..], k - 1);
      LevelAtTail(blockHeight, path, k);
      WireLevelSize(path[0]);
      WireLevelsRest(path, LevelAt(blockHeight, path[1..], k - 1) - Width(blockHeight) - 1, WireLevel(path[k]));
    }
  }

  lemma WireLevelIs(lev: Level)
    ensures WireLevel(lev) == VarInt(|lev|) + WireEntries(lev) && |VarInt(|lev|)| == Width(|lev|)
  {
    WidthIs(|lev|);
  }

  lemma WireCountHere(data: Data, at: nat, lev: Level)
    requires HasAt(data, at, WireLevel(lev))
    ensures HasAt(data, at, VarInt(|lev|))
  {
    var count, entries := VarInt(|lev|), WireEntries(lev);
    hide *;
    WireLevelIs(lev);
    HasInFront(count, entries);
    HasWithin(data, at, WireLevel(lev), 0, count);
  }

  lemma WireEntryHere(data: Data, at: nat, lev: Level, i: nat, here: nat)
    requires HasAt(data, at, WireLevel(lev)) && i < |lev| && here == at + Width(|lev|) + EntryAt(lev, i)
    ensures HasAt(data, here, WireEntry(lev[i]))
  {
    var count, entries, part := VarInt(|lev|), WireEntries(lev), WireEntry(lev[i]);
    var within := EntryAt(lev, i);
    hide *;
    WireLevelIs(lev);
    WireEntryHasAt(lev, i);
    HasInRest(data, at, WireLevel(lev), count, Width(|lev|), entries, within, part, here);
  }

  lemma WireEntryParts(data: Data, at: nat, e: Entry)
    requires HasAt(data, at, WireEntry(e))
    ensures HasAt(data, at, VarInt(e.offset))
    ensures HasAt(data, at + Width(e.offset), [if e.txid then 2 else 0] + e.hash.bytes)
  {
    var offset, rest := VarInt(e.offset), [if e.txid then 2 else 0] + e.hash.bytes;
    assert WireEntry(e) == offset + rest;
    WidthIs(e.offset);
    hide VarInt, Width, WireEntry;
    HasInFront(offset, rest);
    HasBehind(offset, rest, 0, rest);
    HasWithin(data, at, offset + rest, 0, offset);
    HasWithin(data, at, offset + rest, |offset|, rest);
  }

  lemma BumpIs(blockHeight: nat, path: Path)
    ensures BumpBytes(blockHeight, path) == VarInt(blockHeight) + ([|path| % 256] + WireLevels(path))
    ensures |VarInt(blockHeight)| == Width(blockHeight)
  {
    WidthIs(blockHeight);
  }

  lemma BumpHead(blockHeight: nat, path: Path)
    ensures HasAt(BumpBytes(blockHeight, path), 0, VarInt(blockHeight))
    ensures HasAt(BumpBytes(blockHeight, path), Width(blockHeight), [|path| % 256])
  {
    var height, size, body := VarInt(blockHeight), [|path| % 256], WireLevels(path);
    hide *;
    BumpIs(blockHeight, path);
    HasInFront(height, size + body);
    HasInFront(size, body);
    HasBehind(height, size + body, 0, size);
  }

  lemma BumpRest(blockHeight: nat, path: Path, off: nat, part: Data)
    requires HasAt(WireLevels(path), off, part)
    ensures HasAt(BumpBytes(blockHeight, path), Width(blockHeight) + 1 + off, part)
  {
    var height, size, body := VarInt(blockHeight), [|path| % 256], WireLevels(path);
    hide *;
    BumpIs(blockHeight, path);
    HasBehind(size, body, off, part);
    HasBehind(height, size + body, 1 + off, part);
  }

  lemma BumpLevelAt(blockHeight: nat, path: Path, k: nat)
    requires k < |path|
    ensures HasAt(BumpBytes(blockHeight, path), LevelAt(blockHeight, path, k), WireLevel(path[k]))
  {
    hide *;
    WireLevelHasAt(blockHeight, path, k);
    BumpRest(blockHeight, path, LevelAt(blockHeight, path, k) - Width(blockHeight) - 1, WireLevel(path[k]));
  }

  /**
    Where everything is: the block height, one byte of tree height, and for each level its count and its entries, each
    an offset, a byte that is 2 for a txid and 0 otherwise, and the hash.
   */
  lemma BumpLayout(blockHeight: nat, path: Path, k: nat, i: nat)
    ensures HasAt(BumpBytes(blockHeight, path), 0, VarInt(blockHeight))
    ensures HasAt(BumpBytes(blockHeight, path), Width(blockHeight), [|path| % 256])
    ensures k < |path| ==> HasAt(BumpBytes(blockHeight, path), LevelAt(blockHeight, path, k), VarInt(|path[k]|))
    ensures k < |path| && i < |path[k]| ==>
      var data, e := BumpBytes(blockHeight, path), path[k][i];
      var at := LevelAt(blockHeight, path, k) + Width(|path[k]|) + EntryAt(path[k], i);
      HasAt(data, at, VarInt(e.offset)) && HasAt(data, at + Width(e.offset), [if e.txid then 2 else 0] + e.hash.bytes)
  {
    hide *;
    BumpHead(blockHeight, path);
    if k < |path| {
      var data, at, lev := BumpBytes(blockHeight, path), LevelAt(blockHeight, path, k), path[k];
      BumpLevelAt(blockHeight, path, k);
      WireCountHere(data, at, lev);
      if i < |lev| {
        var here := at + Width(|lev|) + EntryAt(lev, i);
        WireEntryHere(data, at, lev, i, here);
        WireEntryParts(data, here, lev[i]);
      }
    }
  }

  // ---- A reader of the format ----------------------------------------------------------------------

  /** Flag bit 0 stands for a duplicate of the working hash, with no hash following; bit 1 for a client txid. */
  datatype Element = Listed(entry: Entry) | Duplicate(offset: nat)

  function ReadElement(data: Data): Option<(Element, Data)> {
    match ReadVarInt(data)
    case None => None
    case Some((offset, rest)) =>
      if rest == [] then None
      else if rest[0] == 1 then Some((Duplicate(offset), rest[1..]))
      else if (rest[0] != 0 && rest[0] != 2) || |rest| < 1 + HASH_SIZE then None
      else Some((Listed(Entry(offset, Hash(rest[1..1 + HASH_SIZE]), rest[0] == 2)), rest[1 + HASH_SIZE..]))
  }

  function ReadElements(data: Data, n: nat): Option<(seq<Element>, Data)> {
    if n == 0 then Some(([], data))
    else match ReadElement(data)
         case None => None
         case Some((x, rest)) =>
           match ReadElements(rest, n - 1)
           case None => None
           case Some((xs, rest')) => Some(([x] + xs, rest'))
  }

  function ReadLevels(data: Data, n: nat): Option<(seq<seq<Element>>, Data)>
    decreases n
  {
    if n == 0 then Some(([], data))
    else match ReadVarInt(data)
         case None => None
         case Some((count, rest)) =>
           match ReadElements(rest, count)
           case None => None
           case Some((level, rest')) =>
             match ReadLevels(rest', n - 1)
             case None => None
             case Some((levels, rest'')) => Some(([level] + levels, rest''))
  }

  /** Block height, levels, and the bytes left over. */
  function ReadBump(data: Data): Option<(nat, seq<seq<Element>>, Data)> {
    match ReadVarInt(data)
    case None => None
    case Some((blockHeight, rest)) =>
      if rest == [] then None
      else match ReadLevels(rest[1..], rest[0])
           case None => None
           case Some((levels, rest')) => Some((blockHeight, levels, rest'))
  }

  function AllListed(lev: Level): seq<Element> {
    seq(|lev|, i requires 0 <= i < |lev| => Listed(lev[i]))
  }

  function PathListed(path: Path): seq<seq<Element>> {
    seq(|path|, k requires 0 <= k < |path| => AllListed(path[k]))
  }

  // ---- Unique decoding -----------------------------------------------------------------------------

  lemma ElementRoundTrip(e: Entry, rest: Data)
    requires e.offset < U64
    ensures ReadElement(WireEntry(e) + rest) == Some((Listed(e), rest))
  {
    hide VarInt, ReadVarInt;
    var body := [Flag(e.txid)] + e.hash.bytes;
    ConcatAssoc(VarInt(e.offset), body, rest);
    VarIntRoundTrip(e.offset, body + rest);
    assert (body + rest)[1..1 + HASH_SIZE] == e.hash.bytes;
    assert (body + rest)[1 + HASH_SIZE..] == rest;
  }

  lemma NoElements(lev: Level, rest: Data)
    requires lev == []
    ensures ReadElements(WireEntries(lev) + rest, |lev|) == Some((AllListed(lev), rest))
  {
    assert WireEntries(lev) + rest == rest && AllListed(lev) == [];
  }

  lemma NoLevels(path: Path, rest: Data)
    requires path == []
    ensures ReadLevels(WireLevels(path) + rest, |path|) == Some((PathListed(path), rest))
  {
    assert WireLevels(path) + rest == rest && PathListed(path) == [];
  }

  lemma ElementsCons(lev: Level, rest: Data)
    requires lev != []
    ensures WireEntries(lev) + rest == WireEntry(lev[0]) + (WireEntries(lev[1..]) + rest)
    ensures AllListed(lev) == [Listed(lev[0])] + AllListed(lev[1..])
  {
    hide WireEntry;
    ConcatAssoc(WireEntry(lev[0]), WireEntries(lev[1..]), rest);
  }

  lemma ReadElementsCons(data: Data, x: Element, tail: Data, n: nat)
    requires ReadElement(data) == Some((x, tail)) && ReadElements(tail, n).Some?
    ensures ReadElements(data, n + 1) == Some(([x] + ReadElements(tail, n).value.0, ReadElements(tail, n).value.1))
  {
    hide ReadElement;
  }

  lemma {:induction false} ElementsRoundTrip(lev: Level, rest: Data)
    requires forall i :: 0 <= i < |lev| ==> lev[i].offset < U64
    ensures ReadElements(WireEntries(lev) + rest, |lev|) == Some((AllListed(lev), rest))
  {
    hide *;
    if lev == [] {
      NoElements(lev, rest);
    } else {
      var tail := WireEntries(lev[1..]) + rest;
      ElementsCons(lev, rest);
      ElementRoundTrip(lev[0], tail);
      ElementsRoundTrip(lev[1..], rest);
      ReadElementsCons(WireEntry(lev[0]) + tail, Listed(lev[0]), tail, |lev| - 1);
    }
  }

  ghost predicate LengthsFit(path: Path) {
    forall k :: 0 <= k < |path| ==> |path[k]| < U64
  }

  lemma ReadLevelsCons(data: Data, count: nat, body: Data, level: seq<Element>, tail: Data, n: nat)
    requires ReadVarInt(data) == Some((count, body)) && ReadElements(body, count) == Some((level, tail))
    ensures ReadLevels(tail, n).Some? ==>
      ReadLevels(data, n + 1) == Some(([level] + ReadLevels(tail, n).value.0, ReadLevels(tail, n).value.1))
  {
    hide ReadVarInt, ReadElements;
  }

  lemma WireParts(path: Path)
    requires path != []
    ensures WireLevels(path) == WireLevel(path[0]) + WireLevels(path[1..])
    ensures WireLevel(path[0]) == VarInt(|path[0]|) + WireEntries(path[0])
    ensures PathListed(path) == [AllListed(path[0])] + PathListed(path[1..])
  {
    hide VarInt, WireEntries, AllListed;
  }

  lemma WireCons(path: Path, rest: Data)
    requires path != []
    ensures WireLevels(path) + rest == VarInt(|path[0]|) + (WireEntries(path[0]) + (WireLevels(path[1..]) + rest))
    ensures PathListed(path) == [AllListed(path[0])] + PathListed(path[1..])
  {
    hide *;
    WireParts(path);
    ConcatAssoc(WireLevel(path[0]), WireLevels(path[1..]), rest);
    ConcatAssoc(VarInt(|path[0]|), WireEntries(path[0]), WireLevels(path[1..]) + rest);
  }

  lemma {:induction false} LevelsReadBack(path: Path, rest: Data)
    requires OffsetsFit(path) && LengthsFit(path)
    ensures ReadLevels(WireLevels(path) + rest, |path|) == Some((PathListed(path), rest))
  {
    if path == [] {
      NoLevels(path, rest);
      return;
    }
    assert OffsetsFit(path[1..]) && LengthsFit(path[1..]) && |path[0]| < U64;
    assert forall i :: 0 <= i < |path[0]| ==> path[0][i].offset < U64;
    hide *;
    var tail := WireLevels(path[1..]) + rest;
    var body := WireEntries(path[0]) + tail;
    WireCons(path, rest);
    VarIntRoundTrip(|path[0]|, body);
    ElementsRoundTrip(path[0], tail);
    LevelsReadBack(path[1..], rest);
    ReadLevelsCons(VarInt(|path[0]|) + body, |path[0]|, body, AllListed(path[0]), tail, |path| - 1);
  }

  lemma {:induction false} LevelsReadCount(data: Data, n: nat)
    ensures ReadLevels(data, n).Some? ==> |ReadLevels(data, n).value.0| == n
    decreases n
  {
    if n > 0 {
      match ReadVarInt(data)
      case None =>
      case Some((count, rest)) =>
        match ReadElements(rest, count)
        case None =>
        case Some((_, rest')) => LevelsReadCount(rest', n - 1);
    }
  }

  /**
    A reader gets back the block height and every level, and nothing is left over, exactly when the tree
    height fits its byte. Offsets and counts are 64-bit words in the source.
   */
  lemma BumpRoundTrip(blockHeight: nat, path: Path)
    requires blockHeight < U64 && OffsetsFit(path) && LengthsFit(path)
    ensures ReadBump(BumpBytes(blockHeight, path)) == Some((blockHeight, PathListed(path), [])) <==> |path| < 256
  {
    hide VarInt, ReadVarInt, ReadLevels, WireLevels;
    var body := [|path| % 256] + WireLevels(path);
    VarIntRoundTrip(blockHeight, body);
    assert body[1..] == WireLevels(path) + [];
    if |path| < 256 {
      LevelsReadBack(path, []);
    } else {
      LevelsReadCount(body[1..], body[0]);
    }
  }

  lemma SameElements(a: Level, b: Level)
    requires AllListed(a) == AllListed(b)
    ensures a == b
  {
    assert |AllListed(a)| == |a| && |AllListed(b)| == |b|;
    forall i | 0 <= i < |a|
      ensures a[i] == b[i]
    {
      assert AllListed(a)[i] == Listed(a[i]) && AllListed(b)[i] == Listed(b[i]);
    }
  }

  /** Two paths with the same bytes are the same path. */
  lemma BumpBytesInjective(h1: nat, p1: Path, h2: nat, p2: Path)
    requires h1 < U64 && OffsetsFit(p1) && LengthsFit(p1) && |p1| < 256
    requires h2 < U64 && OffsetsFit(p2) && LengthsFit(p2) && |p2| < 256
    requires BumpBytes(h1, p1) == BumpBytes(h2, p2)
    ensures h1 == h2 && p1 == p2
  {
    hide BumpBytes, ReadBump;
    BumpRoundTrip(h1, p1);
    BumpRoundTrip(h2, p2);
    assert PathListed(p1) == PathListed(p2);
    assert |PathListed(p1)| == |p1| && |PathListed(p2)| == |p2|;
    forall k | 0 <= k < |p1|
      ensures p1[k] == p2[k]
    {
      SameElements(p1[k], p2[k]) by {
        assert PathListed(p1)[k] == AllListed(p1[k]) && PathListed(p2)[k] == AllListed(p2[k]);
      }
    }
  }

  // ---- The serializer ------------------------------------------------------------------------------

  lemma {:induction false} WireEntriesSnoc(lev: Level, e: Entry)
    ensures WireEntries(lev + [e]) == WireEntries(lev) + WireEntry(e)
  {
    hide WireEntry;
    if lev == [] {
      assert lev + [e] == [e] && [e][1..] == [];
    } else {
      assert (lev + [e])[1..] == lev[1..] + [e];
      WireEntriesSnoc(lev[1..], e);
    }
  }

  lemma {:induction false} WireLevelsSnoc(path: Path, lev: Level)
    ensures WireLevels(path + [lev]) == WireLevels(path) + WireLevel(lev)
  {
    hide WireLevel;
    if path == [] {
      assert path + [lev] == [lev] && [lev][1..] == [];
    } else {
      assert (path + [lev])[1..] == path[1..] + [lev];
      WireLevelsSnoc(path[1..], lev);
    }
  }

  /** Appends v to the buffer in the smallest VarInt form. */
  method WriteVarInt(buf: Data, v: nat) returns (out: Data)
    ensures out == buf + VarInt(v)
  {
    if v < 0xfd {
      return buf + [v];
    }
    if v < 0x10000 {
      return buf + [0xfd] + LE(v, 2);
    }
    if v < 0x1_0000_0000 {
      return buf + [0xfe] + LE(v, 4);
    }
    out := buf + [0xff] + LE(v, 8);
  }

  lemma EntryWritten(before: Data, e: Entry, flags: Byte, out: Data)
    requires flags == Flag(e.txid) && out == ((before + VarInt(e.offset)) + [flags]) + e.hash.bytes
    ensures out == before + WireEntry(e)
  {}

  method WriteLevel(buf: Data, level: Level) returns (out: Data)
    ensures out == buf + WireLevel(level)
  {
    hide VarInt, WireEntry;
    out := WriteVarInt(buf, |level|);
    ghost var head := out;
    assert head + WireEntries([]) == head;
    var i := 0;
    while i < |level|
      invariant i <= |level| && out == head + WireEntries(level[..i])
    {
      var e := level[i];
      var flags: Byte := 0;
      if e.txid { flags := 2; }
      ghost var before := out;
      out := WriteVarInt(out, e.offset);
      out := out + [flags];
      out := out + e.hash.bytes;
      EntryWritten(before, e, flags, out);
      assert level[..i + 1] == level[..i] + [e];
      WireEntriesSnoc(level[..i], e);
      ConcatAssoc(head, WireEntries(level[..i]), WireEntry(e));
      i := i + 1;
    }
    assert level[..|level|] == level;
    ConcatAssoc(buf, VarInt(|level|), WireEntries(level));
  }

  method SerializeBump(blockHeight: nat, path: Path) returns (out: Data)
    ensures out == BumpBytes(blockHeight, path)
  {
    hide VarInt, WireLevel;
    out := WriteVarInt([], blockHeight);
    assert [] + VarInt(blockHeight) == VarInt(blockHeight);
    out := out + [|path| % 256];
    ghost var head := out;
    assert head + WireLevels([]) == head;
    var k := 0;
    while k < |path|
      invariant k <= |path| && out == head + WireLevels(path[..k])
    {
      ghost var before := out;
      out := WriteLevel(out, path[k]);
      assert path[..k + 1] == path[..k] + [path[k]];
      WireLevelsSnoc(path[..k], path[k]);
      ConcatAssoc(head, WireLevels(path[..k]), WireLevel(path[k]));
      k := k + 1;
    }
    assert path[..|path|] == path;
    ConcatAssoc(VarInt(blockHeight), [|path| % 256], WireLevels(path));
  }
}
