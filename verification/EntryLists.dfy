/** Lists of entries as bytes: a count, then each entry behind its length. */
module EntryLists {
  import opened Hashes
  import opened Bytes
  import opened Encoding
  import opened Sorting

  function ItemBytes(e: Entry): Data {
    LE(|EntryBytes(e)|, 4) + EntryBytes(e)
  }

  function ItemsBytes(es: seq<Entry>): Data {
    if es == [] then [] else ItemBytes(es[0]) + ItemsBytes(es[1..])
  }

  function EntriesBytes(es: seq<Entry>): Data {
    LE(|es|, 4) + ItemsBytes(es)
  }

  /** Where entry i starts: four bytes of count, then each earlier entry's four of length, 48 of header and its siblings. */
  function ItemStart(es: seq<Entry>, i: nat): nat
    requires i <= |es|
  {
    if i == 0 then 4 else ItemStart(es, i - 1) + 52 + 32 * |es[i - 1].siblings|
  }

  lemma {:induction false} ItemStartTail(es: seq<Entry>, i: nat)
    requires 0 < i <= |es|
    ensures ItemStart(es, i) == 52 + 32 * |es[0].siblings| + ItemStart(es[1..], i - 1)
  {
    if i > 1 { ItemStartTail(es, i - 1); }
  }

  lemma ItemLength(e: Entry)
    ensures |ItemBytes(e)| == 52 + 32 * |e.siblings|
  {}

  lemma {:induction false} ItemHasAt(es: seq<Entry>, i: nat)
    requires i < |es|
    ensures ItemStart(es, i) >= 4 && HasAt(ItemsBytes(es), ItemStart(es, i) - 4, ItemBytes(es[i]))
  {
    hide LE, EntryBytes;
    var head, rest := ItemBytes(es[0]), ItemsBytes(es[1..]);
    if i == 0 {
      HasInFront(head, rest);
    } else {
      ItemHasAt(es[1..], i - 1);
      ItemStartTail(es, i);
      hide ItemStart, ItemBytes;
      HasBehind(head, rest, ItemStart(es[1..], i - 1) - 4, ItemBytes(es[i]));
      ItemLength(es[0]);
    }
  }

  /** The count in four bytes, then at each entry's start the length of its bytes in four, and its bytes. */
  lemma EntriesLayout(es: seq<Entry>, i: nat)
    ensures NumberAt(EntriesBytes(es), 0, |es|, 4)
    ensures i < |es| ==>
      && NumberAt(EntriesBytes(es), ItemStart(es, i), 48 + 32 * |es[i].siblings|, 4)
      && HasAt(EntriesBytes(es), ItemStart(es, i) + 4, EntryBytes(es[i]))
  {
    var data := EntriesBytes(es);
    hide LE, NumberAt, ItemStart, EntryBytes, ItemsBytes;
    HasInFront(LE(|es|, 4), ItemsBytes(es));
    NumberBy(data, 0, |es|, 4);
    if i < |es| {
      var at, size := ItemStart(es, i), LE(|EntryBytes(es[i])|, 4);
      ItemHasAt(es, i);
      HasBehind(LE(|es|, 4), ItemsBytes(es), at - 4, ItemBytes(es[i]));
      HasInFront(size, EntryBytes(es[i]));
      HasWithin(data, at, ItemBytes(es[i]), 0, size);
      NumberBy(data, at, |EntryBytes(es[i])|, 4);
      HasBehind(size, EntryBytes(es[i]), 0, EntryBytes(es[i]));
      HasWithin(data, at, ItemBytes(es[i]), 4, EntryBytes(es[i]));
    }
  }

  /** One length-prefixed entry, and the bytes left. */
  function ParseItem(data: Data): Result<(Entry, Data)> {
    if |data| < 4 then Failure("truncated entry length")
    else
      var end := 4 + FromLE(data[..4]);
      if end > |data| then Failure("truncated entry data")
      else
        match ParseEntry(data[4..end])
        case Failure(_) => Failure("entry")
        case Success(e) => Success((e, data[end..]))
  }

  function Prepend(es: seq<Entry>, r: Result<seq<Entry>>): Result<seq<Entry>> {
    match r
    case Failure(error) => Failure(error)
    case Success(rest) => Success(es + rest)
  }

  function ParseItems(data: Data, count: nat): Result<seq<Entry>> {
    if count == 0 then Success([])
    else
      match ParseItem(data)
      case Failure(error) => Failure(error)
      case Success((e, rest)) => Prepend([e], ParseItems(rest, count - 1))
  }

  function ParseEntries(data: Data): Result<seq<Entry>> {
    if |data| < 4 then Failure("entries data too short") else ParseItems(data[4..], FromLE(data[..4]))
  }

  ghost predicate WindowStands(data: Data, s: nat, n: nat, e: Entry) {
    s + 4 + n <= |data| && EntryStands(data[s + 4..s + 4 + n], e)
  }

  /** The entries stand one after the other from byte s on, each in a window behind the length of the window. */
  ghost predicate ItemsStand(data: Data, s: nat, es: seq<Entry>)
    decreases |es|
  {
    if es == [] then s <= |data|
    else exists n: nat :: FieldAt(data, s, n) && WindowStands(data, s, n, es[0]) && ItemsStand(data, s + 4 + n, es[1..])
  }

  /** es stands at the front of data: the count in four bytes, then the entries. */
  ghost predicate EntriesStand(data: Data, es: seq<Entry>) {
    FieldAt(data, 0, |es|) && ItemsStand(data, 4, es)
  }

  lemma ParseItemAt(data: Data, s: nat, n: nat)
    requires s + 4 <= |data| && n == FromLE(data[s..s + 4])
    ensures s + 4 + n > |data| ==> ParseItem(data[s..]).Failure?
    ensures s + 4 + n <= |data| ==>
      var e := ParseEntry(data[s + 4..s + 4 + n]);
      && (e.Failure? ==> ParseItem(data[s..]).Failure?)
      && (e.Success? ==> ParseItem(data[s..]) == Success((e.value, data[s + 4 + n..])))
  {
    var d := data[s..];
    assert d[..4] == data[s..s + 4];
    if s + 4 + n <= |data| {
      assert d[4..4 + n] == data[s + 4..s + 4 + n] && d[4 + n..] == data[s + 4 + n..];
    }
    hide FromLE, ParseEntry;
  }

  lemma FirstStands(data: Data, s: nat, n: nat, next: nat, es: seq<Entry>)
    requires s + 4 <= |data| && n == FromLE(data[s..s + 4]) && next == s + 4 + n && es != []
    ensures ItemsStand(data, s, es) <==>
      next <= |data| && ParseEntry(data[s + 4..next]) == Success(es[0]) && ItemsStand(data, next, es[1..])
  {
    FieldIff(data, s, n);
    if next <= |data| { ParseEntryIff(data[s + 4..next], es[0]); }
    forall m: nat | FieldAt(data, s, m)
      ensures m == n
    {
      FieldIff(data, s, m);
    }
    hide FieldAt, FromLE, ParseEntry, EntryStands;
  }

  lemma NoRoom(data: Data, s: nat, es: seq<Entry>)
    requires s <= |data| < s + 4 && es != []
    ensures !ItemsStand(data, s, es)
  {
    hide WindowStands;
  }

  lemma ParseItemsNext(data: Data, count: nat)
    requires count > 0
    ensures match ParseItem(data)
      case Failure(_) => ParseItems(data, count).Failure?
      case Success((e, rest)) =>
        match ParseItems(rest, count - 1)
        case Failure(_) => ParseItems(data, count).Failure?
        case Success(more) => ParseItems(data, count) == Success([e] + more)
  {
    hide ParseItem;
  }

  lemma ConsEqual(e: Entry, more: seq<Entry>, es: seq<Entry>)
    requires es != []
    ensures [e] + more == es <==> e == es[0] && more == es[1..]
  {
    assert es == [es[0]] + es[1..];
    assert ([e] + more)[1..] == more;
  }

  lemma ParseItemsAt(data: Data, s: nat, count: nat, n: nat, next: nat)
    requires count > 0 && s + 4 <= |data| && n == FromLE(data[s..s + 4]) && next == s + 4 + n <= |data|
    ensures var first, rest := ParseEntry(data[s + 4..next]), ParseItems(data[next..], count - 1);
      if first.Success? && rest.Success? then ParseItems(data[s..], count) == Success([first.value] + rest.value)
      else ParseItems(data[s..], count).Failure?
  {
    hide *;
    ParseItemAt(data, s, n);
    ParseItemsNext(data[s..], count);
  }

  lemma OneMore(r: Result<seq<Entry>>, first: Result<Entry>, rest: Result<seq<Entry>>, es: seq<Entry>, count: nat,
                stands: bool, later: bool)
    requires es != [] && count > 0
    requires if first.Success? && rest.Success? then r == Success([first.value] + rest.value) else r.Failure?
    requires rest == Success(es[1..]) <==> |es| == count && later
    requires stands <==> first == Success(es[0]) && later
    ensures r == Success(es) <==> |es| == count && stands
  {
    if first.Success? && rest.Success? { ConsEqual(first.value, rest.value, es); }
  }

  lemma ParseItemsStep(data: Data, s: nat, count: nat, n: nat, next: nat, es: seq<Entry>)
    requires count > 0 && s + 4 <= |data| && n == FromLE(data[s..s + 4]) && next == s + 4 + n <= |data| && es != []
    requires var more := es[1..];
      ParseItems(data[next..], count - 1) == Success(more) <==> |more| == count - 1 && ItemsStand(data, next, more)
    ensures ParseItems(data[s..], count) == Success(es) <==> |es| == count && ItemsStand(data, s, es)
  {
    var first, rest := ParseEntry(data[s + 4..next]), ParseItems(data[next..], count - 1);
    var all := ParseItems(data[s..], count);
    hide *;
    ParseItemsAt(data, s, count, n, next);
    FirstStands(data, s, n, next, es);
    OneMore(all, first, rest, es, count, ItemsStand(data, s, es), ItemsStand(data, next, es[1..]));
  }

  lemma ShortItem(data: Data, s: nat, count: nat)
    requires s <= |data| < s + 4 && count > 0
    ensures ParseItems(data[s..], count).Failure?
  {}

  lemma NoneStand(data: Data, s: nat, count: nat, n: nat, es: seq<Entry>)
    requires count > 0 && s + 4 <= |data| && n == FromLE(data[s..s + 4])
    requires es == [] || s + 4 + n > |data|
    ensures ParseItems(data[s..], count) != Success(es) && !(|es| == count && ItemsStand(data, s, es))
  {
    ParseItemAt(data, s, n);
    ParseItemsNext(data[s..], count);
    if es != [] { FirstStands(data, s, n, s + 4 + n, es); }
    hide *;
  }

  lemma {:induction false} ParseItemsIff(data: Data, s: nat, count: nat, es: seq<Entry>)
    requires s <= |data|
    ensures ParseItems(data[s..], count) == Success(es) <==> |es| == count && ItemsStand(data, s, es)
    decreases count
  {
    if count > 0 {
      hide *;
      if s + 4 > |data| {
        ShortItem(data, s, count);
        if es != [] { NoRoom(data, s, es); }
      } else {
        var n := FromLE(data[s..s + 4]);
        var next := s + 4 + n;
        if es == [] || next > |data| {
          NoneStand(data, s, count, n, es);
        } else {
          ParseItemsIff(data, next, count - 1, es[1..]);
          ParseItemsStep(data, s, count, n, next, es);
        }
      }
    }
  }

  /** Exactly what the parser of entry lists accepts, and as what. */
  lemma ParseEntriesIff(data: Data, es: seq<Entry>)
    ensures ParseEntries(data) == Success(es) <==> EntriesStand(data, es)
  {
    if |data| >= 4 {
      assert data[..4] == data[0..4];
      FieldIff(data, 0, |es|);
      ParseItemsIff(data, 4, FromLE(data[..4]), es);
    }
    hide ParseItems, ItemsStand, FromLE;
  }

  /** The entry fits its fields and its length fits four bytes. */
  predicate ItemFits(e: Entry) {
    EntryFits(e) && |EntryBytes(e)| < U32
  }

  predicate ItemsFit(es: seq<Entry>) {
    forall i :: 0 <= i < |es| ==> ItemFits(es[i])
  }

  lemma ItemParts(data: Data, e: Entry, rest: Data)
    requires data == ItemBytes(e) + rest
    ensures |data| == 4 + |EntryBytes(e)| + |rest|
    ensures data[..4] == LE(|EntryBytes(e)|, 4)
    ensures data[4..4 + |EntryBytes(e)|] == EntryBytes(e)
    ensures data[4 + |EntryBytes(e)|..] == rest
  {
    hide LE, EntryBytes;
  }

  /** What an item whose length field reads n parses to. */
  lemma ItemOf(data: Data, n: nat)
    requires |data| >= 4 && FromLE(data[..4]) == n
    ensures 4 + n > |data| ==> ParseItem(data) == Failure("truncated entry data")
    ensures 4 + n <= |data| && ParseEntry(data[4..4 + n]).Failure? ==> ParseItem(data) == Failure("entry")
    ensures 4 + n <= |data| && ParseEntry(data[4..4 + n]).Success? ==>
      ParseItem(data) == Success((ParseEntry(data[4..4 + n]).value, data[4 + n..]))
  {
    hide FromLE, ParseEntry;
  }

  lemma ItemReads(e: Entry, rest: Data)
    requires ItemFits(e)
    ensures ParseItem(ItemBytes(e) + rest) == Success((e, rest))
  {
    var data, len := ItemBytes(e) + rest, |EntryBytes(e)|;
    assert EntryFits(e) && Low32(len) == len;
    hide *;
    ItemParts(data, e, rest);
    Low32Bytes(len);
    EntryRoundTrip(e);
    ItemOf(data, len);
  }

  /** A shortened entry, if it reads at all, reads with fewer siblings. */
  lemma CutEntry(e: Entry, n: nat)
    requires n < |EntryBytes(e)|
    ensures var r := ParseEntry(EntryBytes(e)[..n]); r.Success? ==> r.value != e
  {
    var data := EntryBytes(e)[..n];
    if ParseEntry(data).Success? {
      hide EntryBytes, BytesHashes, FromLE;
      BytesHashesLength(data[HEADER_SIZE..HEADER_SIZE + Siblings(data) * HASH_SIZE]);
      assert HASH_SIZE * Siblings(data) < HASH_SIZE * |e.siblings|;
    }
  }

  lemma CutSame(data: Data, len: nat, n: nat)
    requires n <= len && 4 + len <= |data|
    ensures data[4..4 + n] == data[4..4 + len][..n]
  {}

  lemma WholeEntry(data: Data)
    ensures data[..|data|] == data
  {}

  /** An entry that does not fit never reads back as itself. */
  lemma ItemMisreads(e: Entry, rest: Data)
    requires !ItemFits(e)
    ensures var r := ParseItem(ItemBytes(e) + rest); r.Success? ==> r.value.0 != e
  {
    var data, len := ItemBytes(e) + rest, |EntryBytes(e)|;
    var n := Low32(len);
    assert n <= len && (n == len ==> !EntryFits(e));
    hide *;
    ItemParts(data, e, rest);
    Low32Bytes(len);
    ItemOf(data, n);
    CutSame(data, len, n);
    if n < len {
      CutEntry(e, n);
    } else {
      EntryRoundTrip(e);
      WholeEntry(EntryBytes(e));
    }
  }

  lemma {:induction false} ParsedCount(data: Data, count: nat)
    ensures var r := ParseItems(data, count); r.Success? ==> |r.value| == count
  {
    if count > 0 && ParseItem(data).Success? { ParsedCount(ParseItem(data).value.1, count - 1); }
  }

  lemma ItemsCons(e: Entry, rest: seq<Entry>)
    ensures ItemsBytes([e] + rest) == ItemBytes(e) + ItemsBytes(rest)
  {
    hide ItemBytes;
    assert ([e] + rest)[1..] == rest;
  }

  lemma ParseCons(data: Data, count: nat)
    ensures ParseItem(data).Failure? ==> ParseItems(data, count + 1) == Failure(ParseItem(data).error)
    ensures ParseItem(data).Success? ==>
      ParseItems(data, count + 1) == Prepend([ParseItem(data).value.0], ParseItems(ParseItem(data).value.1, count))
  {
    hide ParseItem;
  }

  lemma OtherFirst(e: Entry, f: Entry, rest: seq<Entry>, r: Result<seq<Entry>>)
    requires e != f
    ensures Prepend([f], r) != Success([e] + rest)
  {
    if r.Success? {
      assert ([f] + r.value)[0] == f && ([e] + rest)[0] == e;
    }
  }

  lemma FitsCons(e: Entry, rest: seq<Entry>)
    ensures ItemsFit([e] + rest) <==> ItemFits(e) && ItemsFit(rest)
  {
    hide ItemFits;
    assert ([e] + rest)[0] == e;
    assert forall i :: 0 <= i < |rest| ==> ([e] + rest)[i + 1] == rest[i];
  }

  lemma PrependSame(e: Entry, rest: seq<Entry>, r: Result<seq<Entry>>)
    ensures Prepend([e], r) == Success([e] + rest) <==> r == Success(rest)
  {
    if r.Success? && [e] + r.value == [e] + rest {
      assert ([e] + r.value)[1..] == r.value && ([e] + rest)[1..] == rest;
    }
  }

  lemma {:induction false} ItemsRoundTrip(es: seq<Entry>)
    ensures ParseItems(ItemsBytes(es), |es|) == Success(es) <==> ItemsFit(es)
  {
    if es != [] {
      var e, rest := es[0], es[1..];
      assert es == [e] + rest;
      hide *;
      ItemsRoundTrip(rest);
      FitsCons(e, rest);
      ItemsCons(e, rest);
      ParseCons(ItemsBytes(es), |rest|);
      if ItemFits(e) {
        ItemReads(e, ItemsBytes(rest));
        PrependSame(e, rest, ParseItems(ItemsBytes(rest), |rest|));
      } else {
        ItemMisreads(e, ItemsBytes(rest));
        if ParseItem(ItemsBytes(es)).Success? {
          var (f, left) := ParseItem(ItemsBytes(es)).value;
          OtherFirst(e, f, rest, ParseItems(left, |rest|));
        }
      }
    }
  }

  lemma EntriesParts(es: seq<Entry>)
    ensures ParseEntries(EntriesBytes(es)) == ParseItems(ItemsBytes(es), Low32(|es|))
  {
    var data := EntriesBytes(es);
    hide ParseItems, ItemsBytes, FromLE, LE, Low32;
    assert data[..4] == LE(|es|, 4) && data[4..] == ItemsBytes(es);
    Low32Bytes(|es|);
  }

  /** Lists of entries round-trip exactly when the count, every length and every field fit four bytes. */
  lemma EntriesRoundTrip(es: seq<Entry>)
    ensures ParseEntries(EntriesBytes(es)) == Success(es) <==> |es| < U32 && ItemsFit(es)
  {
    assert Low32(|es|) == |es| <==> |es| < U32;
    hide *;
    EntriesParts(es);
    ItemsRoundTrip(es);
    ParsedCount(ItemsBytes(es), Low32(|es|));
  }

  // ---- The methods ---------------------------------------------------------------------------------

  lemma {:induction false} ItemsSnoc(es: seq<Entry>, e: Entry)
    ensures ItemsBytes(es + [e]) == ItemsBytes(es) + ItemBytes(e)
  {
    hide ItemBytes;
    if es == [] {
      assert es + [e] == [e] && [e][1..] == [];
    } else {
      assert (es + [e])[1..] == es[1..] + [e] && (es + [e])[0] == es[0];
      ItemsSnoc(es[1..], e);
    }
  }

  lemma NoItems()
    ensures ItemsBytes([]) == []
  {}

  method MarshalEntries(entries: seq<Entry>) returns (buf: Data)
    ensures buf == EntriesBytes(entries)
  {
    hide LE, EntryBytes, ItemsBytes;
    buf := LE(|entries|, 4);
    assert entries[..0] == [] && ItemsBytes([]) == [] by { NoItems(); }
    for i := 0 to |entries|
      invariant buf == LE(|entries|, 4) + ItemsBytes(entries[..i])
    {
      var eb := MarshalEntry(entries[i]);
      var lenBuf := LE(|eb|, 4);
      ItemsSnoc(entries[..i], entries[i]);
      assert entries[..i + 1] == entries[..i] + [entries[i]];
      ConcatAssoc(LE(|entries|, 4), ItemsBytes(entries[..i]), lenBuf + eb);
      ConcatAssoc(LE(|entries|, 4) + ItemsBytes(entries[..i]), lenBuf, eb);
      buf := buf + lenBuf;
      buf := buf + eb;
    }
    assert entries[..|entries|] == entries;
  }

  lemma PrependTwice(entries: seq<Entry>, e: Entry, r: Result<seq<Entry>>)
    ensures Prepend(entries, Prepend([e], r)) == Prepend(entries + [e], r)
  {
    if r.Success? { assert entries + ([e] + r.value) == entries + [e] + r.value; }
  }

  /** What remains to be parsed, in front of it what was. */
  function Remaining(data: Data, off: nat, entries: seq<Entry>, left: nat): Result<seq<Entry>>
    requires off <= |data|
  {
    Prepend(entries, ParseItems(data[off..], left))
  }

  lemma ItemSlices(data: Data, off: nat, n: nat)
    requires off + 4 + n <= |data|
    ensures data[off..][4..4 + n] == data[off + 4..off + 4 + n] && data[off..][4 + n..] == data[off + 4 + n..]
  {
    SubSlice(data, off, |data|, 4, 4 + n);
    SubSlice(data, off, |data|, 4 + n, |data| - off);
    assert data[off..|data|] == data[off..];
    assert data[off..][4 + n..] == data[off..][4 + n..|data| - off];
  }

  lemma RemainingStep(data: Data, off: nat, entries: seq<Entry>, left: nat)
    requires off <= |data|
    ensures off + 4 > |data| ==> Remaining(data, off, entries, left + 1) == Failure("truncated entry length")
    ensures off + 4 <= |data| ==>
      var end := off + 4 + FromLE(data[off..off + 4]);
      && (end > |data| ==> Remaining(data, off, entries, left + 1) == Failure("truncated entry data"))
      && (end <= |data| && ParseEntry(data[off + 4..end]).Failure? ==> Remaining(data, off, entries, left + 1) == Failure("entry"))
      && (end <= |data| && ParseEntry(data[off + 4..end]).Success? ==>
            Remaining(data, off, entries, left + 1) == Remaining(data, end, entries + [ParseEntry(data[off + 4..end]).value], left))
  {
    var tail := data[off..];
    ParseCons(tail, left);
    if off + 4 <= |data| {
      hide FromLE, ParseEntry, ParseItem, ParseItems, Prepend;
      assert tail[..4] == data[off..off + 4];
      var n := FromLE(data[off..off + 4]);
      ItemOf(tail, n);
      if 4 + n <= |tail| {
        ItemSlices(data, off, n);
        if ParseEntry(tail[4..4 + n]).Success? {
          PrependTwice(entries, ParseEntry(tail[4..4 + n]).value, ParseItems(tail[4 + n..], left));
        }
      }
    }
  }

  lemma RemainingAll(data: Data)
    requires |data| >= 4
    ensures Remaining(data, 4, [], FromLE(data[..4])) == ParseEntries(data)
  {
    var r := ParseItems(data[4..], FromLE(data[..4]));
    if r.Success? { assert [] + r.value == r.value; }
  }

  lemma RemainingNone(data: Data, off: nat, entries: seq<Entry>)
    requires off <= |data|
    ensures Remaining(data, off, entries, 0) == Success(entries)
  {
    assert entries + [] == entries;
  }

  lemma TooShort(data: Data)
    requires |data| < 4
    ensures ParseEntries(data) == Failure("entries data too short")
  {}

  method UnmarshalEntries(data: Data) returns (r: Result<seq<Entry>>)
    ensures r == ParseEntries(data)
  {
    hide *;
    if |data| < 4 {
      TooShort(data);
      return Failure("entries data too short");
    }
    RemainingAll(data);
    var count := FromLE(data[..4]);
    var off := 4;
    var entries: seq<Entry> := [];
    for i := 0 to count
      invariant 4 <= off <= |data|
      invariant Remaining(data, off, entries, count - i) == ParseEntries(data)
    {
      RemainingStep(data, off, entries, count - i - 1);
      if off + 4 > |data| {
        return Failure("truncated entry length");
      }
      var eLen := FromLE(data[off..off + 4]);
      off := off + 4;
      if off + eLen > |data| {
        return Failure("truncated entry data");
      }
      var e := UnmarshalEntry(data[off..off + eLen]);
      if e.Failure? {
        return Failure("entry");
      }
      entries := entries + [e.value];
      off := off + eLen;
    }
    RemainingNone(data, off, entries);
    r := Success(entries);
  }
}
