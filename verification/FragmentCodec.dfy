/** The stored form of a fragment: count-prefixed levels of 41-byte entries. */
module FragmentCodec {
  import opened Hashes
  import opened Bytes
  import opened Bump
  import opened Sorting

  const ENTRY_SIZE := 41

  function Flag(txid: bool): Byte {
    if txid then 2 else 0
  }

  function EntryBytes(e: Entry): (s: Data)
    ensures |s| == ENTRY_SIZE
  {
    LE(e.offset, 8) + [Flag(e.txid)] + e.hash.bytes
  }

  function EntriesBytes(lev: Level): (s: Data)
    ensures |s| == ENTRY_SIZE * |lev|
  {
    if lev == [] then [] else EntryBytes(lev[0]) + EntriesBytes(lev[1..])
  }

  function LevelBytes(lev: Level): Data {
    LE(|lev|, 4) + EntriesBytes(lev)
  }

  function LevelsBytes(levels: seq<Level>): Data {
    if levels == [] then [] else LevelBytes(levels[0]) + LevelsBytes(levels[1..])
  }

  /** The whole fragment; the level count is one byte, the entry counts four. */
  function FragmentBytes(levels: seq<Level>): Data {
    LE(|levels|, 1) + LevelsBytes(levels)
  }

  // ---- Layout ------------------------------------------------------------------------------------

  /** Where level k starts: a byte of level count, then each earlier level's four bytes of count and 41 an entry. */
  function LevelAt(levels: seq<Level>, k: nat): nat
    requires k <= |levels|
  {
    if k == 0 then 1 else LevelAt(levels, k - 1) + 4 + 41 * |levels[k - 1]|
  }

  lemma {:induction false} LevelAtTail(levels: seq<Level>, k: nat)
    requires 0 < k <= |levels|
    ensures LevelAt(levels, k) == 4 + 41 * |levels[0]| + LevelAt(levels[1..], k - 1)
  {
    if k > 1 { LevelAtTail(levels, k - 1); }
  }

  lemma {:induction false} LevelHasAt(levels: seq<Level>, k: nat)
    requires k < |levels|
    ensures LevelAt(levels, k) >= 1 && HasAt(LevelsBytes(levels), LevelAt(levels, k) - 1, LevelBytes(levels[k]))
  {
    hide LE, EntriesBytes;
    var head, rest := LevelBytes(levels[0]), LevelsBytes(levels[1..]);
    if k == 0 {
      HasInFront(head, rest);
    } else {
      LevelHasAt(levels[1..], k - 1);
      LevelAtTail(levels, k);
      assert |head| == 4 + 41 * |levels[0]|;
      hide LevelAt, LevelBytes;
      HasBehind(head, rest, LevelAt(levels[1..], k - 1) - 1, LevelBytes(levels[k]));
    }
  }

  lemma {:induction false} EntryHasAt(lev: Level, i: nat)
    requires i < |lev|
    ensures HasAt(EntriesBytes(lev), 41 * i, EntryBytes(lev[i]))
  {
    var head, rest := EntryBytes(lev[0]), EntriesBytes(lev[1..]);
    hide EntryBytes;
    if i == 0 {
      HasInFront(head, rest);
    } else {
      EntryHasAt(lev[1..], i - 1);
      HasBehind(head, rest, 41 * (i - 1), EntryBytes(lev[i]));
    }
  }

  /** An entry is eight bytes of offset, the lowest first, a byte that is 2 for a txid and 0 otherwise, and the hash. */
  lemma EntryLayout(data: Data, at: nat, e: Entry)
    requires HasAt(data, at, EntryBytes(e))
    ensures NumberAt(data, at, e.offset, 8)
    ensures HasAt(data, at + 8, [if e.txid then 2 else 0]) && HasAt(data, at + 9, e.hash.bytes)
  {
    var offset, flag, s := LE(e.offset, 8), [if e.txid then 2 else 0], EntryBytes(e);
    hide LE, NumberAt;
    assert s[0..8] == offset && s[8..9] == flag && s[9..41] == e.hash.bytes;
    HasWithin(data, at, s, 0, offset);
    HasWithin(data, at, s, 8, flag);
    HasWithin(data, at, s, 9, e.hash.bytes);
    NumberBy(data, at, e.offset, 8);
  }

  lemma LevelParts(data: Data, at: nat, lev: Level, i: nat)
    requires HasAt(data, at, LevelBytes(lev))
    ensures NumberAt(data, at, |lev|, 4)
    ensures i < |lev| ==> HasAt(data, at + 4 + 41 * i, EntryBytes(lev[i]))
  {
    var count, entries := LE(|lev|, 4), EntriesBytes(lev);
    hide LE, NumberAt, EntryBytes, EntriesBytes;
    HasInFront(count, entries);
    HasWithin(data, at, LevelBytes(lev), 0, count);
    NumberBy(data, at, |lev|, 4);
    if i < |lev| {
      EntryHasAt(lev, i);
      HasBehind(count, entries, 41 * i, EntryBytes(lev[i]));
      HasWithin(data, at, LevelBytes(lev), 4 + 41 * i, EntryBytes(lev[i]));
    }
  }

  /** Level k's count of entries stands at its start, and entry i 4 + 41 * i bytes on. */
  lemma FragmentLayout(levels: seq<Level>, k: nat, i: nat)
    ensures NumberAt(FragmentBytes(levels), 0, |levels|, 1)
    ensures k < |levels| ==> NumberAt(FragmentBytes(levels), LevelAt(levels, k), |levels[k]|, 4)
    ensures k < |levels| && i < |levels[k]| ==>
      var data, at, e := FragmentBytes(levels), LevelAt(levels, k) + 4 + 41 * i, levels[k][i];
      && NumberAt(data, at, e.offset, 8)
      && HasAt(data, at + 8, [if e.txid then 2 else 0]) && HasAt(data, at + 9, e.hash.bytes)
  {
    var data := FragmentBytes(levels);
    hide LE, NumberAt, LevelAt, LevelsBytes;
    HasInFront(LE(|levels|, 1), LevelsBytes(levels));
    NumberBy(data, 0, |levels|, 1);
    if k < |levels| {
      var at, lev := LevelAt(levels, k), levels[k];
      LevelHasAt(levels, k);
      HasBehind(LE(|levels|, 1), LevelsBytes(levels), at - 1, LevelBytes(lev));
      LevelParts(data, at, lev, i);
      if i < |lev| { EntryLayout(data, at + 4 + 41 * i, lev[i]); }
    }
  }

  // ---- Parsing -----------------------------------------------------------------------------------

  predicate TxidFlag(flags: Byte) {
    (flags / 2) % 2 == 1
  }

  function ParseEntry(data: Data): Entry
    requires |data| >= ENTRY_SIZE
  {
    Entry(FromLE(data[..8]), Hash(data[9..41]), TxidFlag(data[8]))
  }

  function ParseEntries(data: Data, n: nat): (lev: Level)
    requires |data| >= ENTRY_SIZE * n
    ensures |lev| == n
  {
    if n == 0 then [] else [ParseEntry(data)] + ParseEntries(data[ENTRY_SIZE..], n - 1)
  }

  function ParseLevels(data: Data, n: nat): Result<seq<Level>>
    decreases n
  {
    if n == 0 then Success([])
    else if |data| < 4 then Failure("fragment truncated")
    else
      var c := FromLE(data[..4]);
      if |data| < 4 + ENTRY_SIZE * c then Failure("fragment truncated")
      else
        match ParseLevels(data[4 + ENTRY_SIZE * c..], n - 1)
        case Failure(e) => Failure(e)
        case Success(rest) => Success([ParseEntries(data[4..], c)] + rest)
  }

  /** Trailing bytes are ignored. */
  function Parse(data: Data): Result<seq<Level>> {
    if |data| < 1 then Failure("fragment too short") else ParseLevels(data[1..], data[0])
  }

  // ---- What parses -------------------------------------------------------------------------------

  /** e stands at byte `at`: its offset in eight bytes, a byte whose second bit says txid, and its hash. */
  ghost predicate EntryStands(data: Data, at: nat, e: Entry) {
    && e.offset < 0x1_0000_0000_0000_0000 && NumberAt(data, at, e.offset, 8)
    && at + 41 <= |data| && (e.txid <==> (data[at + 8] / 2) % 2 == 1)
    && HasAt(data, at + 9, e.hash.bytes)
  }

  ghost predicate LevelStands(data: Data, at: nat, lev: Level) {
    && |lev| < 0x1_0000_0000 && NumberAt(data, at, |lev|, 4) && at + 4 + 41 * |lev| <= |data|
    && forall i :: 0 <= i < |lev| ==> EntryStands(data, at + 4 + 41 * i, lev[i])
  }

  /** The levels stand one after the other from byte s on. */
  ghost predicate LevelsStand(data: Data, s: nat, levels: seq<Level>)
    decreases |levels|
  {
    if levels == [] then s <= |data|
    else LevelStands(data, s, levels[0]) && LevelsStand(data, s + 4 + 41 * |levels[0]|, levels[1..])
  }

  /** levels stand in data: their number in one byte, then each where the earlier ones end. */
  ghost predicate FragmentStands(data: Data, levels: seq<Level>) {
    |data| >= 1 && data[0] == |levels| && LevelsStand(data, 1, levels)
  }

  lemma ParseEntryIff(data: Data, at: nat, e: Entry)
    requires at + 41 <= |data|
    ensures ParseEntry(data[at..]) == e <==> EntryStands(data, at, e)
  {
    var s := data[at..];
    Widths();
    assert s[..8] == data[at..at + 8] && s[9..41] == data[at + 9..at + 41] && s[8] == data[at + 8];
    NumberIff(data, at, e.offset, 8);
    HashAt(data, at + 9, e.hash);
    hide NumberAt, FromLE, HasAt;
  }

  lemma {:induction false} ParsedEntryAt(data: Data, at: nat, n: nat, i: nat)
    requires i < n && at + 41 * n <= |data|
    ensures ParseEntries(data[at..], n)[i] == ParseEntry(data[at + 41 * i..])
    decreases n
  {
    assert data[at..][41..] == data[at + 41..];
    hide ParseEntry;
    if i > 0 { ParsedEntryAt(data, at + 41, n - 1, i - 1); }
  }

  lemma ParseLevelIff(data: Data, at: nat, n: nat, lev: Level)
    requires at + 4 <= |data| && n == FromLE(data[at..at + 4])
    ensures LevelStands(data, at, lev) <==> at + 4 + 41 * n <= |data| && ParseEntries(data[at + 4..], n) == lev
  {
    Widths();
    NumberIff(data, at, |lev|, 4);
    hide NumberAt, EntryStands, ParseEntry, FromLE, ParseEntries;
    if at + 4 + 41 * n <= |data| && |lev| == n {
      forall i | 0 <= i < n
        ensures ParseEntries(data[at + 4..], n)[i] == lev[i] <==> EntryStands(data, at + 4 + 41 * i, lev[i])
      {
        ParsedEntryAt(data, at + 4, n, i);
        ParseEntryIff(data, at + 4 + 41 * i, lev[i]);
      }
    }
  }

  lemma ParseLevelsAt(data: Data, s: nat, n: nat, c: nat)
    requires n > 0 && s + 4 <= |data| && c == FromLE(data[s..s + 4])
    ensures s + 4 + 41 * c > |data| ==> ParseLevels(data[s..], n).Failure?
    ensures s + 4 + 41 * c <= |data| ==>
      var rest := ParseLevels(data[s + 4 + 41 * c..], n - 1);
      && (rest.Failure? ==> ParseLevels(data[s..], n).Failure?)
      && (rest.Success? ==> ParseLevels(data[s..], n) == Success([ParseEntries(data[s + 4..], c)] + rest.value))
  {
    var d := data[s..];
    assert d[..4] == data[s..s + 4] && d[4..] == data[s + 4..];
    if s + 4 + 41 * c <= |data| {
      assert d[4 + ENTRY_SIZE * c..] == data[s + 4 + 41 * c..];
    }
    hide FromLE, ParseEntries;
  }

  lemma ConsEqual(lev: Level, more: seq<Level>, levels: seq<Level>)
    requires levels != []
    ensures [lev] + more == levels <==> lev == levels[0] && more == levels[1..]
  {
    assert levels == [levels[0]] + levels[1..];
    assert ([lev] + more)[1..] == more;
  }

  lemma FirstStands(data: Data, s: nat, c: nat, levels: seq<Level>)
    requires s + 4 <= |data| && c == FromLE(data[s..s + 4]) && levels != []
    ensures LevelsStand(data, s, levels) <==>
      && s + 4 + 41 * c <= |data| && ParseEntries(data[s + 4..], c) == levels[0]
      && LevelsStand(data, s + 4 + 41 * c, levels[1..])
  {
    ParseLevelIff(data, s, c, levels[0]);
    hide LevelStands, FromLE;
  }

  lemma NoRoom(data: Data, s: nat, n: nat, levels: seq<Level>)
    requires s <= |data| < s + 4 && n > 0
    ensures ParseLevels(data[s..], n).Failure? && !(|levels| == n && LevelsStand(data, s, levels))
  {}

  lemma ParseLevelsStep(data: Data, s: nat, n: nat, c: nat, next: nat, levels: seq<Level>)
    requires n > 0 && s + 4 <= |data| && c == FromLE(data[s..s + 4]) && next == s + 4 + 41 * c <= |data| && levels != []
    requires var more := levels[1..];
      ParseLevels(data[next..], n - 1) == Success(more) <==> |more| == n - 1 && LevelsStand(data, next, more)
    ensures ParseLevels(data[s..], n) == Success(levels) <==> |levels| == n && LevelsStand(data, s, levels)
  {
    var rest, first := ParseLevels(data[next..], n - 1), ParseEntries(data[s + 4..], c);
    hide *;
    ParseLevelsAt(data, s, n, c);
    FirstStands(data, s, c, levels);
    if rest.Success? { ConsEqual(first, rest.value, levels); }
  }

  lemma NoneStand(data: Data, s: nat, n: nat, c: nat, levels: seq<Level>)
    requires n > 0 && s + 4 <= |data| && c == FromLE(data[s..s + 4])
    requires levels == [] || s + 4 + 41 * c > |data|
    ensures ParseLevels(data[s..], n) != Success(levels) && !(|levels| == n && LevelsStand(data, s, levels))
  {
    ParseLevelsAt(data, s, n, c);
    if levels != [] { FirstStands(data, s, c, levels); }
    hide *;
  }

  lemma {:induction false} ParseLevelsIff(data: Data, s: nat, n: nat, levels: seq<Level>)
    requires s <= |data|
    ensures ParseLevels(data[s..], n) == Success(levels) <==> |levels| == n && LevelsStand(data, s, levels)
    decreases n
  {
    if n > 0 {
      hide *;
      if s + 4 > |data| {
        NoRoom(data, s, n, levels);
      } else {
        var c := FromLE(data[s..s + 4]);
        var next := s + 4 + 41 * c;
        if levels == [] || next > |data| {
          NoneStand(data, s, n, c, levels);
        } else {
          ParseLevelsIff(data, next, n - 1, levels[1..]);
          ParseLevelsStep(data, s, n, c, next, levels);
        }
      }
    }
  }

  /** Exactly which bytes parse, and as what: the levels that stand in them, whatever follows and whatever the other flag bits. */
  lemma ParseIff(data: Data, levels: seq<Level>)
    ensures Parse(data) == Success(levels) <==> FragmentStands(data, levels)
  {
    if |data| >= 1 { ParseLevelsIff(data, 1, data[0], levels); }
    hide ParseLevels, LevelsStand;
  }

  // ---- Round trips -------------------------------------------------------------------------------

  ghost predicate OffsetsFit(levels: seq<Level>) {
    forall k, i :: 0 <= k < |levels| && 0 <= i < |levels[k]| ==> levels[k][i].offset < U64
  }

  ghost predicate CountsFit(levels: seq<Level>) {
    forall k :: 0 <= k < |levels| ==> |levels[k]| < U32
  }

  lemma EntryRoundTrip(e: Entry, rest: Data)
    requires e.offset < U64
    ensures ParseEntry(EntryBytes(e) + rest) == e
  {
    Widths();
    FromOfLE(e.offset, 8);
    var data := EntryBytes(e) + rest;
    assert data[..8] == LE(e.offset, 8);
    assert data[9..41] == e.hash.bytes;
  }

  lemma Split3(a: Data, b: Data, rest: Data)
    ensures var d := (a + b) + rest;
            d == a + (b + rest) && d[..|a|] == a && d[|a|..] == b + rest && d[|a| + |b|..] == rest
  {}

  lemma {:induction false} EntriesRoundTrip(lev: Level, rest: Data)
    requires forall i :: 0 <= i < |lev| ==> lev[i].offset < U64
    ensures ParseEntries(EntriesBytes(lev) + rest, |lev|) == lev
  {
    if lev != [] {
      hide EntryBytes, ParseEntry;
      var first, more := EntryBytes(lev[0]), EntriesBytes(lev[1..]);
      Split3(first, more, rest);
      EntryRoundTrip(lev[0], more + rest);
      EntriesRoundTrip(lev[1..], rest);
    }
  }

  /** One level back, and the bytes after it, when its count fits in four bytes. */
  lemma LevelRoundTrip(lev: Level, rest: Data)
    requires |lev| < U32 && forall i :: 0 <= i < |lev| ==> lev[i].offset < U64
    ensures var data := LevelBytes(lev) + rest;
            && |data| >= 4 + ENTRY_SIZE * |lev| && FromLE(data[..4]) == |lev|
            && ParseEntries(data[4..], |lev|) == lev && data[4 + ENTRY_SIZE * |lev|..] == rest
  {
    hide EntriesBytes, ParseEntries, LE, FromLE, Pow256;
    Widths();
    FromOfLE(|lev|, 4);
    Split3(LE(|lev|, 4), EntriesBytes(lev), rest);
    EntriesRoundTrip(lev, rest);
  }

  lemma {:induction false} LevelsRoundTrip(levels: seq<Level>, rest: Data)
    requires OffsetsFit(levels) && CountsFit(levels)
    ensures ParseLevels(LevelsBytes(levels) + rest, |levels|) == Success(levels)
  {
    if levels != [] {
      assert OffsetsFit(levels[1..]) && CountsFit(levels[1..]);
      hide LevelBytes, ParseEntries, OffsetsFit, CountsFit;
      Split3(LevelBytes(levels[0]), LevelsBytes(levels[1..]), rest);
      LevelRoundTrip(levels[0], LevelsBytes(levels[1..]) + rest);
      LevelsRoundTrip(levels[1..], rest);
      assert [levels[0]] + levels[1..] == levels;
    }
  }

  lemma CountsFitTail(levels: seq<Level>)
    requires levels != []
    ensures CountsFit(levels) <==> |levels[0]| < U32 && CountsFit(levels[1..])
  {
    assert forall k :: 0 < k < |levels| ==> levels[k] == levels[1..][k - 1];
  }

  /** What a level whose count field reads c parses to, in front of the parse of the rest. */
  lemma ParseLevelsCons(data: Data, n: nat, c: nat)
    requires |data| >= 4 && FromLE(data[..4]) == c
    ensures |data| < 4 + ENTRY_SIZE * c ==> ParseLevels(data, n + 1).Failure?
    ensures |data| >= 4 + ENTRY_SIZE * c ==>
      var rest := ParseLevels(data[4 + ENTRY_SIZE * c..], n);
      if rest.Failure? then ParseLevels(data, n + 1).Failure?
      else ParseLevels(data, n + 1) == Success([ParseEntries(data[4..], c)] + rest.value)
  {
    hide ParseEntries, FromLE;
  }

  lemma {:induction false} ParseEntriesCount(data: Data, n: nat)
    requires |data| >= ENTRY_SIZE * n
    ensures |ParseEntries(data, n)| == n
  {
    if n > 0 { ParseEntriesCount(data[ENTRY_SIZE..], n - 1); }
  }

  lemma OtherFirst(lev: Level, rest: seq<Level>, levels: seq<Level>)
    requires levels != [] && |lev| != |levels[0]|
    ensures [lev] + rest != levels
  {
    assert ([lev] + rest)[0] == lev;
  }

  lemma FirstLevel(levels: seq<Level>, rest: Data)
    requires OffsetsFit(levels) && !CountsFit(levels)
    ensures levels != [] && LevelsBytes(levels) + rest == LevelBytes(levels[0]) + (LevelsBytes(levels[1..]) + rest)
    ensures OffsetsFit(levels[1..]) && forall i :: 0 <= i < |levels[0]| ==> levels[0][i].offset < U64
  {
    hide LevelBytes;
    Split3(LevelBytes(levels[0]), LevelsBytes(levels[1..]), rest);
  }

  /** The count field of a level too long for it. */
  lemma LevelCount(lev: Level, rest: Data)
    ensures var data := LevelBytes(lev) + rest; |data| >= 4 && (|lev| >= U32 ==> FromLE(data[..4]) != |lev|)
  {
    hide EntriesBytes;
    Widths();
    FromOfLE(|lev|, 4);
    assert (LevelBytes(lev) + rest)[..4] == LE(|lev|, 4);
  }

  lemma ShiftedResult(r: Result<seq<Level>>, levels: seq<Level>)
    requires levels != [] && r != Success(levels[1..])
    ensures r.Success? ==> [levels[0]] + r.value != levels
  {
    if r.Success? {
      assert ([levels[0]] + r.value)[1..] == r.value;
    }
  }

  /** A level whose count does not fit is read back with another length, if at all. */
  lemma {:induction false} LevelsOverflow(levels: seq<Level>, rest: Data)
    requires OffsetsFit(levels) && !CountsFit(levels)
    ensures ParseLevels(LevelsBytes(levels) + rest, |levels|) != Success(levels)
  {
    assert ENTRY_SIZE == 41;
    hide *;
    var data := LevelsBytes(levels) + rest;
    var tail := LevelsBytes(levels[1..]) + rest;
    FirstLevel(levels, rest);
    CountsFitTail(levels);
    if |levels[0]| < U32 {
      LevelRoundTrip(levels[0], tail);
      LevelsOverflow(levels[1..], rest);
      ParseLevelsCons(data, |levels| - 1, |levels[0]|);
      ShiftedResult(ParseLevels(tail, |levels| - 1), levels);
    } else {
      LevelCount(levels[0], tail);
      var c := FromLE(data[..4]);
      ParseLevelsCons(data, |levels| - 1, c);
      if |data| >= 4 + ENTRY_SIZE * c {
        ParseEntriesCount(data[4..], c);
        var parsed := ParseLevels(data[4 + ENTRY_SIZE * c..], |levels| - 1);
        if parsed.Success? { OtherFirst(ParseEntries(data[4..], c), parsed.value, levels); }
      }
    }
  }

  lemma {:induction false} ParseCount(data: Data, n: nat)
    ensures ParseLevels(data, n).Success? ==> |ParseLevels(data, n).value| == n
    decreases n
  {
    if n > 0 && |data| >= 4 && |data| >= 4 + ENTRY_SIZE * FromLE(data[..4]) {
      ParseCount(data[4 + ENTRY_SIZE * FromLE(data[..4])..], n - 1);
    }
  }

  /** Storing and loading gives the fragment back exactly when its counts fit their fields. */
  lemma FragmentRoundTrip(levels: seq<Level>)
    requires OffsetsFit(levels)
    ensures Parse(FragmentBytes(levels)) == Success(levels) <==> |levels| < 256 && CountsFit(levels)
  {
    Widths();
    FromOfLE(|levels|, 1);
    var data := FragmentBytes(levels);
    assert FromLE(LE(|levels|, 1)) == data[0] + 256 * FromLE(LE(|levels|, 1)[1..]);
    assert LE(|levels|, 1)[1..] == [];
    assert data[1..] == LevelsBytes(levels) + [];
    if |levels| < 256 {
      if CountsFit(levels) { LevelsRoundTrip(levels, []); } else { LevelsOverflow(levels, []); }
    } else {
      ParseCount(data[1..], data[0]);
    }
  }

  // ---- The other direction -----------------------------------------------------------------------

  /** Every flag byte of the n entries is 0 or 2. */
  ghost predicate CanonicalFlags(data: Data, n: nat)
    requires |data| >= ENTRY_SIZE * n
  {
    n == 0 || ((data[8] == 0 || data[8] == 2) && CanonicalFlags(data[ENTRY_SIZE..], n - 1))
  }

  /** Canonical flags in all n levels, and nothing after them. */
  ghost predicate CanonicalLevels(data: Data, n: nat)
    decreases n
  {
    if n == 0 then data == []
    else |data| >= 4 &&
         var c := FromLE(data[..4]);
         |data| >= 4 + ENTRY_SIZE * c && CanonicalFlags(data[4..], c) &&
         CanonicalLevels(data[4 + ENTRY_SIZE * c..], n - 1)
  }

  lemma EntryBack(data: Data)
    requires |data| >= ENTRY_SIZE
    ensures EntryBytes(ParseEntry(data)) == data[..ENTRY_SIZE] <==> data[8] == 0 || data[8] == 2
  {
    LEOfFrom(data[..8]);
    var e := ParseEntry(data);
    assert EntryBytes(e)[8] == Flag(e.txid) && data[..ENTRY_SIZE][8] == data[8];
    assert data[..ENTRY_SIZE] == data[..8] + [data[8]] + data[9..41];
  }

  lemma SplitEqual(a: Data, b: Data, c: Data, d: Data)
    requires |a| == |c|
    ensures a + b == c + d <==> a == c && b == d
  {
    if a + b == c + d {
      assert (a + b)[..|a|] == a && (a + b)[|a|..] == b;
      assert (c + d)[..|c|] == c && (c + d)[|c|..] == d;
    }
  }

  lemma {:induction false} EntriesBack(data: Data, n: nat)
    requires |data| >= ENTRY_SIZE * n
    ensures EntriesBytes(ParseEntries(data, n)) == data[..ENTRY_SIZE * n] <==> CanonicalFlags(data, n)
  {
    if n > 0 {
      EntryBack(data);
      EntriesBack(data[ENTRY_SIZE..], n - 1);
      var lev := ParseEntries(data, n);
      assert lev[1..] == ParseEntries(data[ENTRY_SIZE..], n - 1);
      SplitEqual(EntryBytes(lev[0]), EntriesBytes(lev[1..]), data[..ENTRY_SIZE], data[ENTRY_SIZE..][..ENTRY_SIZE * (n - 1)]);
      assert data[..ENTRY_SIZE * n] == data[..ENTRY_SIZE] + data[ENTRY_SIZE..][..ENTRY_SIZE * (n - 1)];
    }
  }

  lemma LevelSize(lev: Level)
    ensures |LevelBytes(lev)| == 4 + |lev| * ENTRY_SIZE
  {}

  /** The first level's bytes and the rest's against the data they were parsed from. */
  lemma LevelBack(data: Data, c: nat, lev: Level, more: Data)
    requires |data| >= 4 + ENTRY_SIZE * c && FromLE(data[..4]) == c && |lev| == c
    ensures LevelBytes(lev) + more == data <==>
      EntriesBytes(lev) == data[4..][..ENTRY_SIZE * c] && more == data[4 + ENTRY_SIZE * c..]
  {
    LEOfFrom(data[..4]);
    LevelSize(lev);
    hide LE, FromLE, EntriesBytes;
    var body, rest := data[4..], data[4 + ENTRY_SIZE * c..];
    assert data == (data[..4] + body[..ENTRY_SIZE * c]) + rest;
    SplitEqual(LE(c, 4) + EntriesBytes(lev), more, data[..4] + body[..ENTRY_SIZE * c], rest);
    SplitEqual(LE(c, 4), EntriesBytes(lev), data[..4], body[..ENTRY_SIZE * c]);
  }

  lemma LevelsCons(lev: Level, more: seq<Level>)
    ensures LevelsBytes([lev] + more) == LevelBytes(lev) + LevelsBytes(more)
  {
    hide LevelBytes;
    assert ([lev] + more)[1..] == more;
  }

  lemma CanonicalCons(data: Data, n: nat, c: nat)
    requires |data| >= 4 + ENTRY_SIZE * c && FromLE(data[..4]) == c
    ensures CanonicalLevels(data, n + 1) <==> CanonicalFlags(data[4..], c) && CanonicalLevels(data[4 + ENTRY_SIZE * c..], n)
  {
    hide FromLE, CanonicalFlags;
  }

  lemma ParsedLevels(data: Data, n: nat)
    requires n > 0 && ParseLevels(data, n).Success?
    ensures |data| >= 4 && |data| >= 4 + ENTRY_SIZE * FromLE(data[..4])
    ensures ParseLevels(data[4 + ENTRY_SIZE * FromLE(data[..4])..], n - 1).Success?
  {
    hide ParseEntries, FromLE;
  }

  lemma {:induction false} LevelsBack(data: Data, n: nat)
    requires ParseLevels(data, n).Success?
    ensures LevelsBytes(ParseLevels(data, n).value) == data <==> CanonicalLevels(data, n)
    decreases n
  {
    if n > 0 {
      ParsedLevels(data, n);
      var c := FromLE(data[..4]);
      var body, rest := data[4..], data[4 + ENTRY_SIZE * c..];
      LevelsBack(rest, n - 1);
      hide *;
      EntriesBack(body, c);
      ParseEntriesCount(body, c);
      ParseLevelsCons(data, n - 1, c);
      CanonicalCons(data, n - 1, c);
      var lev, more := ParseEntries(body, c), ParseLevels(rest, n - 1).value;
      LevelsCons(lev, more);
      LevelBack(data, c, lev, LevelsBytes(more));
    }
  }

  /** Loading and storing gives the bytes back exactly when the flags are 0 or 2 and nothing trails. */
  lemma BytesRoundTrip(data: Data)
    requires Parse(data).Success?
    ensures FragmentBytes(Parse(data).value) == data <==> CanonicalLevels(data[1..], data[0])
  {
    var levels := Parse(data).value;
    ParseCount(data[1..], data[0]);
    LevelsBack(data[1..], data[0]);
    LEOfFrom(data[..1]);
    assert FromLE(data[..1]) == data[0] by { assert data[..1][1..] == []; }
    assert data == data[..1] + data[1..];
    SplitEqual(LE(|levels|, 1), LevelsBytes(levels), data[..1], data[1..]);
  }

  // ---- The loops ---------------------------------------------------------------------------------

  lemma {:induction false} EntriesSnoc(lev: Level, e: Entry)
    ensures EntriesBytes(lev + [e]) == EntriesBytes(lev) + EntryBytes(e)
  {
    if lev == [] {
      assert [e][1..] == [];
      assert [] + [e] == [e];
    } else {
      assert (lev + [e])[1..] == lev[1..] + [e];
      EntriesSnoc(lev[1..], e);
    }
  }

  lemma {:induction false} LevelsSnoc(levels: seq<Level>, lev: Level)
    ensures LevelsBytes(levels + [lev]) == LevelsBytes(levels) + LevelBytes(lev)
  {
    if levels == [] {
      assert [lev][1..] == [];
      assert [] + [lev] == [lev];
    } else {
      assert (levels + [lev])[1..] == levels[1..] + [lev];
      LevelsSnoc(levels[1..], lev);
    }
  }

  lemma LevelsAppend(levels: seq<Level>, k: nat)
    requires k < |levels|
    ensures LevelsBytes(levels[..k + 1]) == LevelsBytes(levels[..k]) + LevelBytes(levels[k])
    ensures levels[..|levels|] == levels
  {
    assert levels[..k + 1] == levels[..k] + [levels[k]];
    LevelsSnoc(levels[..k], levels[k]);
  }

  lemma EntriesAppend(lev: Level, i: nat)
    requires i < |lev|
    ensures EntriesBytes(lev[..i + 1]) == EntriesBytes(lev[..i]) + EntryBytes(lev[i])
    ensures lev[..|lev|] == lev
  {
    assert lev[..i + 1] == lev[..i] + [lev[i]];
    EntriesSnoc(lev[..i], lev[i]);
  }

  lemma {:induction false} LevelsLength(levels: seq<Level>, k: nat)
    requires k <= |levels|
    ensures |LevelsBytes(levels[..k])| <= |LevelsBytes(levels)|
    ensures k < |levels| ==>
      |LevelsBytes(levels[..k])| + 4 + ENTRY_SIZE * |levels[k]| <= |LevelsBytes(levels)|
    decreases |levels| - k
  {
    if k < |levels| {
      LevelsAppend(levels, k);
      LevelsLength(levels, k + 1);
    } else {
      assert levels[..k] == levels;
    }
  }

  /** One entry at off: offset, flag byte, hash. */
  method PutEntry(buf: array<Byte>, off: nat, e: Entry, ghost written: Data)
    requires FilledTo(buf[..], off, written) && off + ENTRY_SIZE <= buf.Length
    modifies buf
    ensures FilledTo(buf[..], off + ENTRY_SIZE, written + EntryBytes(e))
  {
    hide LE;
    ghost var b0 := buf[..];
    PutLE(buf, off, e.offset, 8);
    ghost var b1 := buf[..];
    FilledStep(b0, b1, off, written, LE(e.offset, 8));
    buf[off + 8] := if e.txid then 2 else 0;
    ghost var b2 := buf[..];
    FilledStep(b1, b2, off + 8, written + LE(e.offset, 8), [Flag(e.txid)]);
    PutBytes(buf, off + 9, e.hash.bytes);
    FilledStep(b2, buf[..], off + 9, written + LE(e.offset, 8) + [Flag(e.txid)], e.hash.bytes);
    ConcatAssoc(written, LE(e.offset, 8), [Flag(e.txid)]);
    ConcatAssoc(written, LE(e.offset, 8) + [Flag(e.txid)], e.hash.bytes);
  }

  /** One level at off: its count, then its entries. */
  method PutLevel(buf: array<Byte>, start: nat, lev: Level, ghost written: Data) returns (off: nat)
    requires FilledTo(buf[..], start, written) && start + 4 + ENTRY_SIZE * |lev| <= buf.Length
    modifies buf
    ensures FilledTo(buf[..], off, written + LevelBytes(lev))
  {
    hide LE, EntryBytes;
    off := start;
    ghost var b0 := buf[..];
    PutLE(buf, off, |lev|, 4);
    FilledStep(b0, buf[..], off, written, LE(|lev|, 4));
    off := off + 4;
    ghost var head := written + LE(|lev|, 4);
    assert head + EntriesBytes([]) == head;
    var i := 0;
    while i < |lev|
      invariant i <= |lev| && off == start + 4 + ENTRY_SIZE * i
      invariant FilledTo(buf[..], off, head + EntriesBytes(lev[..i]))
    {
      hide *;
      EntriesAppend(lev, i);
      PutEntry(buf, off, lev[i], head + EntriesBytes(lev[..i]));
      ConcatAssoc(head, EntriesBytes(lev[..i]), EntryBytes(lev[i]));
      off := off + ENTRY_SIZE;
      i := i + 1;
    }
    assert lev[..|lev|] == lev;
    ConcatAssoc(written, LE(|lev|, 4), EntriesBytes(lev));
  }

  lemma FilledLength(buf: seq<Byte>, off: nat, written: Data)
    requires FilledTo(buf, off, written)
    ensures off == |written|
  {}

  lemma OneByte(v: nat)
    ensures LE(v, 1) == [v % 256]
  {
    assert LE(v / 256, 0) == [];
  }

  /** MarshalFragment: size the buffer, then fill it at a moving offset. */
  method MarshalFragment(levels: seq<Level>) returns (data: Data)
    ensures data == FragmentBytes(levels)
  {
    hide LevelBytes, LE;
    var size := 1;
    for k := 0 to |levels|
      invariant size == 1 + |LevelsBytes(levels[..k])|
    {
      LevelsAppend(levels, k);
      LevelSize(levels[k]);
      size := size + 4 + |levels[k]| * ENTRY_SIZE;
    }
    assert levels[..|levels|] == levels;
    var buf := new Byte[size];
    buf[0] := |levels| % 256;
    OneByte(|levels|);
    ghost var head := LE(|levels|, 1);
    assert buf[..1] == head;
    assert head + LevelsBytes(levels[..0]) == head;
    var off: nat := 1;
    var k := 0;
    while k < |levels|
      invariant k <= |levels| && buf.Length == size == 1 + |LevelsBytes(levels)|
      invariant |head| == 1 && FilledTo(buf[..], off, head + LevelsBytes(levels[..k]))
    {
      LevelsLength(levels, k);
      FilledLength(buf[..], off, head + LevelsBytes(levels[..k]));
      hide *;
      LevelsAppend(levels, k);
      off := PutLevel(buf, off, levels[k], head + LevelsBytes(levels[..k]));
      ConcatAssoc(head, LevelsBytes(levels[..k]), LevelBytes(levels[k]));
      k := k + 1;
    }
    data := buf[..];
    assert buf[..off] == buf[..];
  }

  /** What is already decoded, in front of what the rest decodes to. */
  function Prepend(levels: seq<Level>, rest: Result<seq<Level>>): Result<seq<Level>> {
    match rest
    case Failure(e) => Failure(e)
    case Success(more) => Success(levels + more)
  }

  lemma NoMoreEntries(data: Data)
    ensures ParseEntries(data, 0) == []
  {}

  lemma ParseAt(data: Data, off: nat, n: nat, e: Entry)
    requires n > 0 && off + ENTRY_SIZE * n <= |data|
    requires e == Entry(FromLE(data[off..off + 8]), Hash(data[off + 9..off + 41]), TxidFlag(data[off + 8]))
    ensures ParseEntries(data[off..], n) == [e] + ParseEntries(data[off + ENTRY_SIZE..], n - 1)
  {
    var tail := data[off..];
    assert tail[..8] == data[off..off + 8] && tail[9..41] == data[off + 9..off + 41];
    assert tail[ENTRY_SIZE..] == data[off + ENTRY_SIZE..];
  }

  method UnmarshalEntries(data: Data, start: nat, n: nat) returns (entries: Level)
    requires start + ENTRY_SIZE * n <= |data|
    ensures entries == ParseEntries(data[start..], n)
  {
    hide ParseEntries, FromLE, TxidFlag;
    var off := start;
    entries := [];
    var i := 0;
    assert [] + ParseEntries(data[start..], n) == ParseEntries(data[start..], n);
    while i < n
      invariant i <= n && off == start + ENTRY_SIZE * i
      invariant ParseEntries(data[start..], n) == entries + ParseEntries(data[off..], n - i)
    {
      var at := off;
      var offset := FromLE(data[off..off + 8]);
      off := off + 8;
      var txid := TxidFlag(data[off]);
      off := off + 1;
      var hash := Hash(data[off..off + 32]);
      off := off + 32;
      ParseAt(data, at, n - i, Entry(offset, hash, txid));
      ConcatAssoc(entries, [Entry(offset, hash, txid)], ParseEntries(data[off..], n - i - 1));
      entries := entries + [Entry(offset, hash, txid)];
      i := i + 1;
    }
    NoMoreEntries(data[off..]);
    assert entries + [] == entries;
  }

  lemma PrependNothing(r: Result<seq<Level>>)
    ensures Prepend([], r) == r
  {
    match r
    case Failure(_) =>
    case Success(more) => assert [] + more == more;
  }

  lemma TailStep(data: Data, at: nat, n: nat, off: nat, left: nat, levels: seq<Level>, entries: Level)
    requires left > 0 && at + 4 <= |data| && n == FromLE(data[at..at + 4])
    requires off == at + 4 + n * ENTRY_SIZE <= |data| && entries == ParseEntries(data[at + 4..], n)
    ensures Prepend(levels, ParseLevels(data[at..], left))
         == Prepend(levels + [entries], ParseLevels(data[off..], left - 1))
  {
    var tail := data[at..];
    assert tail[..4] == data[at..at + 4] && tail[4..] == data[at + 4..];
    assert tail[4 + ENTRY_SIZE * n..] == data[off..];
    match ParseLevels(data[off..], left - 1)
    case Failure(_) =>
    case Success(more) => ConcatAssoc(levels, [entries], more);
  }

  method UnmarshalFragment(data: Data) returns (r: Result<seq<Level>>)
    ensures r == Parse(data)
  {
    if |data| < 1 {
      return Failure("fragment too short");
    }
    var numLevels := data[0];
    var off := 1;
    var levels: seq<Level> := [];
    var k := 0;
    PrependNothing(ParseLevels(data[1..], numLevels));
    while k < numLevels
      invariant k <= numLevels && 1 <= off <= |data|
      invariant Parse(data) == Prepend(levels, ParseLevels(data[off..], numLevels - k))
    {
      var tail := data[off..];
      if off + 4 > |data| {
        return Failure("fragment truncated");
      }
      var n := FromLE(data[off..off + 4]);
      assert tail[..4] == data[off..off + 4];
      var at := off;
      off := off + 4;
      var need := n * ENTRY_SIZE;
      if off + need > |data| {
        return Failure("fragment truncated");
      }
      var entries := UnmarshalEntries(data, off, n);
      off := off + need;
      TailStep(data, at, n, off, numLevels - k, levels, entries);
      levels := levels + [entries];
      k := k + 1;
    }
    assert levels + [] == levels;
    r := Success(levels);
  }
}
