/** XOR keys, the token registry, and discovery over either stump store. */
module Stump {
  import opened Arith
  import opened Hashes
  import opened Bytes
  import opened Sorting
  import opened Db
  import opened Encoding
  import opened StumpStore

  // ---- XOR keys ------------------------------------------------------------------------------------

  /** Exclusive or of the low n bits, bit by bit. */
  function XorBits(a: nat, b: nat, n: nat): (r: nat)
    ensures r < Pow2(n)
  {
    if n == 0 then 0 else (if a % 2 == b % 2 then 0 else 1) + 2 * XorBits(a / 2, b / 2, n - 1)
  }

  lemma {:induction false} XorBitsCommutes(a: nat, b: nat, n: nat)
    ensures XorBits(a, b, n) == XorBits(b, a, n)
  {
    if n > 0 { XorBitsCommutes(a / 2, b / 2, n - 1); }
  }

  lemma Halves(bit: nat, rest: nat)
    requires bit < 2
    ensures (bit + 2 * rest) % 2 == bit && (bit + 2 * rest) / 2 == rest
  {}

  lemma {:induction false} XorBitsCancels(a: nat, b: nat, n: nat)
    requires a < Pow2(n)
    ensures XorBits(XorBits(a, b, n), b, n) == a
  {
    if n > 0 {
      XorBitsCancels(a / 2, b / 2, n - 1);
      var bit, rest := if a % 2 == b % 2 then 0 else 1, XorBits(a / 2, b / 2, n - 1);
      assert XorBits(a, b, n) == bit + 2 * rest;
      Halves(bit, rest);
    }
  }

  /** Bit k of a number, as the digit at the k-th power of two. */
  function BitOf(x: nat, k: nat): nat {
    (x / Pow2(k)) % 2
  }

  lemma BitAbove(x: nat, k: nat)
    requires k > 0
    ensures BitOf(x, k) == BitOf(x / 2, k - 1)
  {
    DivTwice(x, 2, Pow2(k - 1));
  }

  lemma BitBelow(x: nat)
    ensures BitOf(x, 0) == x % 2
  {
    assert Pow2(0) == 1;
  }

  lemma XorBitsParts(a: nat, b: nat, n: nat)
    requires n > 0
    ensures XorBits(a, b, n) % 2 == (if a % 2 == b % 2 then 0 else 1)
    ensures XorBits(a, b, n) / 2 == XorBits(a / 2, b / 2, n - 1)
  {
    Halves(if a % 2 == b % 2 then 0 else 1, XorBits(a / 2, b / 2, n - 1));
  }

  /** Each bit is set exactly where the operands' bits differ. */
  lemma {:induction false} XorBitAt(a: nat, b: nat, n: nat, k: nat)
    requires k < n
    ensures BitOf(XorBits(a, b, n), k) == 1 <==> BitOf(a, k) != BitOf(b, k)
  {
    hide XorBits, BitOf;
    XorBitsParts(a, b, n);
    var x := XorBits(a, b, n);
    if k == 0 {
      BitBelow(a);
      BitBelow(b);
      BitBelow(x);
    } else {
      XorBitAt(a / 2, b / 2, n - 1, k - 1);
      BitAbove(a, k);
      BitAbove(b, k);
      BitAbove(x, k);
    }
  }

  lemma ByteBits()
    ensures Pow2(8) == 256
  {
    assert Pow2(4) == 16;
    assert Pow2(6) == 64;
  }

  function XorByte(a: Byte, b: Byte): Byte {
    assert Pow2(8) == 256 by { ByteBits(); }
    XorBits(a, b, 8)
  }

  function Xor(a: Hash, b: Hash): Hash {
    Hash(seq(HASH_SIZE, i requires 0 <= i < HASH_SIZE => XorByte(a.bytes[i], b.bytes[i])))
  }

  lemma XorByteLaws(a: Byte, b: Byte)
    ensures XorByte(a, b) == XorByte(b, a)
    ensures XorByte(XorByte(a, b), b) == a
  {
    ByteBits();
    XorBitsCommutes(a, b, 8);
    XorBitsCancels(a, b, 8);
  }

  /** x is, bit by bit, set where a and b differ. */
  ghost predicate DiffersBitwise(x: Byte, a: Byte, b: Byte) {
    forall k :: 0 <= k < 8 ==> (BitOf(x, k) == 1 <==> BitOf(a, k) != BitOf(b, k))
  }

  /** Bit k of byte i of the key is set exactly when that bit of the operands differs. */
  lemma XorBitwise(a: Hash, b: Hash, i: nat)
    requires i < HASH_SIZE
    ensures DiffersBitwise(Xor(a, b).bytes[i], a.bytes[i], b.bytes[i])
  {
    hide XorBits, BitOf;
    forall k | 0 <= k < 8
      ensures BitOf(Xor(a, b).bytes[i], k) == 1 <==> BitOf(a.bytes[i], k) != BitOf(b.bytes[i], k)
    {
      XorBitAt(a.bytes[i], b.bytes[i], 8, k);
    }
  }

  lemma {:induction false} NoBits(x: nat, n: nat)
    requires x < Pow2(n) && forall k :: 0 <= k < n ==> BitOf(x, k) != 1
    ensures x == 0
  {
    if n > 0 {
      forall k | 0 <= k < n - 1
        ensures BitOf(x / 2, k) != 1
      {
        BitAbove(x, k + 1);
      }
      NoBits(x / 2, n - 1);
      BitBelow(x);
    }
  }

  lemma XorCommutes(a: Hash, b: Hash)
    ensures Xor(a, b) == Xor(b, a)
  {
    hide XorByte;
    forall i | 0 <= i < HASH_SIZE
      ensures XorByte(a.bytes[i], b.bytes[i]) == XorByte(b.bytes[i], a.bytes[i])
    {
      XorByteLaws(a.bytes[i], b.bytes[i]);
    }
    assert Xor(a, b).bytes == Xor(b, a).bytes;
  }

  /** Either operand is recovered from the key and the other. */
  lemma XorRecovers(a: Hash, b: Hash)
    ensures Xor(Xor(a, b), b) == a && Xor(Xor(a, b), a) == b
  {
    hide XorByte;
    XorCommutes(a, b);
    forall i | 0 <= i < HASH_SIZE
      ensures XorByte(XorByte(a.bytes[i], b.bytes[i]), b.bytes[i]) == a.bytes[i]
      ensures XorByte(XorByte(b.bytes[i], a.bytes[i]), a.bytes[i]) == b.bytes[i]
    {
      XorByteLaws(a.bytes[i], b.bytes[i]);
      XorByteLaws(b.bytes[i], a.bytes[i]);
    }
    assert Xor(Xor(a, b), b).bytes == a.bytes;
    assert Xor(Xor(b, a), a).bytes == b.bytes;
  }

  /** One token's keys differ between roots, and one root's between tokens. */
  lemma XorInjective(a: Hash, b: Hash, c: Hash)
    ensures Xor(a, b) == Xor(a, c) <==> b == c
  {
    XorRecovers(a, b);
    XorRecovers(a, c);
  }

  /** A hash with itself gives zero, and so no other pair does. */
  lemma XorSelf(a: Hash, b: Hash)
    ensures (forall i :: 0 <= i < HASH_SIZE ==> Xor(a, b).bytes[i] == 0) <==> a == b
  {
    ByteBits();
    forall i | 0 <= i < HASH_SIZE
      ensures Xor(a, a).bytes[i] == 0
    {
      XorBitwise(a, a, i);
      hide Xor, BitOf;
      NoBits(Xor(a, a).bytes[i], 8);
    }
    hide XorByte;
    if forall i :: 0 <= i < HASH_SIZE ==> Xor(a, b).bytes[i] == 0 {
      assert Xor(a, b).bytes == Xor(a, a).bytes;
      XorInjective(a, b, a);
    }
  }

  /** One turn of the loop: eight bytes. */
  method XorEight(k: array<Byte>, a: Hash, b: Hash, i: nat)
    requires k.Length == HASH_SIZE && i + 8 <= HASH_SIZE
    modifies k
    ensures forall j :: 0 <= j < i ==> k[j] == old(k[j])
    ensures forall j :: i <= j < i + 8 ==> k[j] == XorByte(a.bytes[j], b.bytes[j])
  {
    hide XorByte;
    k[i + 0] := XorByte(a.bytes[i + 0], b.bytes[i + 0]);
    k[i + 1] := XorByte(a.bytes[i + 1], b.bytes[i + 1]);
    k[i + 2] := XorByte(a.bytes[i + 2], b.bytes[i + 2]);
    k[i + 3] := XorByte(a.bytes[i + 3], b.bytes[i + 3]);
    k[i + 4] := XorByte(a.bytes[i + 4], b.bytes[i + 4]);
    k[i + 5] := XorByte(a.bytes[i + 5], b.bytes[i + 5]);
    k[i + 6] := XorByte(a.bytes[i + 6], b.bytes[i + 6]);
    k[i + 7] := XorByte(a.bytes[i + 7], b.bytes[i + 7]);
  }

  method XORKey(a: Hash, b: Hash) returns (key: Hash)
    ensures key == Xor(a, b)
    ensures forall i :: 0 <= i < HASH_SIZE ==> DiffersBitwise(key.bytes[i], a.bytes[i], b.bytes[i])
  {
    hide XorByte;
    var k := new Byte[HASH_SIZE](_ => 0);
    var i := 0;
    while i < HASH_SIZE
      invariant 0 <= i <= HASH_SIZE && i % 8 == 0
      invariant forall j :: 0 <= j < i ==> k[j] == XorByte(a.bytes[j], b.bytes[j])
    {
      XorEight(k, a, b, i);
      i := i + 8;
    }
    assert k[..] == Xor(a, b).bytes;
    key := Hash(k[..]);
    forall j | 0 <= j < HASH_SIZE
      ensures DiffersBitwise(key.bytes[j], a.bytes[j], b.bytes[j])
    {
      XorBitwise(a, b, j);
    }
  }

  // ---- Tokens --------------------------------------------------------------------------------------

  /** The token hash is a parameter, as the pair hash is. */
  type TokenHashFn = string -> Hash

  class TokenRegistry {
    var hashes: map<string, Hash>
    var tokens: seq<string>
    const tokenHash: TokenHashFn

    /** The list names each known token once, with its hash. */
    ghost predicate Valid()
      reads this
    {
      && NoRepeats(tokens)
      && (forall t :: t in tokens <==> t in hashes)
      && (forall t :: t in hashes ==> hashes[t] == tokenHash(t))
    }

    constructor (tokenHash: TokenHashFn)
      ensures Valid() && tokens == [] && this.tokenHash == tokenHash
    {
      hashes := map[];
      tokens := [];
      this.tokenHash := tokenHash;
    }

    method Register(token: string) returns (h: Hash)
      requires Valid()
      modifies this
      ensures Valid() && h == tokenHash(token)
      ensures tokens == if token in old(tokens) then old(tokens) else old(tokens) + [token]
    {
      if token in hashes {
        return hashes[token];
      }
      h := tokenHash(token);
      NoRepeatsAppend(tokens, [token]);
      hide NoRepeats;
      hashes := hashes[token := h];
      tokens := tokens + [token];
    }
  }

  // ---- Discovery -----------------------------------------------------------------------------------

  /** What a store answers from: the log of the one in memory, or all that the other's database holds. */
  datatype View = FromLog(log: Log) | FromDisk(kv: map<Data, Data>)

  ghost function Answer(v: View, key: Hash): seq<Entry> {
    match v
    case FromLog(log) => Listed(log, key)
    case FromDisk(kv) => DiskAnswer(kv, key)
  }

  /** Either store behind the interface. */
  datatype Backend = InMemory(mem: Store) | OnDisk(disk: DiskStumpStore) {
    ghost predicate Valid()
      reads match this case InMemory(m) => {m as object} case OnDisk(d) => {}
    {
      match this
      case InMemory(m) => m.Valid()
      case OnDisk(_) => true
    }

    ghost function View(): View
      reads match this case InMemory(m) => {m as object} case OnDisk(d) => {d as object, d.db}
    {
      match this
      case InMemory(m) => FromLog(m.log)
      case OnDisk(d) => FromDisk(d.db.kv)
    }
  }

  method Lookup(store: Backend, key: Hash) returns (r: seq<Entry>)
    requires store.Valid()
    ensures r == Answer(store.View(), key)
  {
    match store
    case InMemory(m) =>
      r := m.Get(key);
    case OnDisk(d) =>
      r := d.Get(key);
  }

  /** A token's entries under the keys of the roots, root by root. */
  ghost function Found(v: View, tokenHash: Hash, roots: seq<Hash>): seq<Entry> {
    if roots == [] then []
    else Found(v, tokenHash, roots[..|roots| - 1]) + Answer(v, Xor(tokenHash, roots[|roots| - 1]))
  }

  /** Root by root, in the order of the roots. */
  lemma {:induction false} FoundInOrder(v: View, tokenHash: Hash, a: seq<Hash>, root: Hash, b: seq<Hash>)
    ensures Found(v, tokenHash, a + [root] + b) == Found(v, tokenHash, a) + Answer(v, Xor(tokenHash, root)) + Found(v, tokenHash, b)
  {
    hide Xor, Answer;
    var before := a + [root];
    if b == [] {
      assert before + b == before && before[..|a|] == a;
    } else {
      var init, last := b[..|b| - 1], b[|b| - 1];
      assert (before + b)[..|before + b| - 1] == before + init;
      FoundInOrder(v, tokenHash, a, root, init);
      ConcatAssoc(Found(v, tokenHash, a) + Answer(v, Xor(tokenHash, root)), Found(v, tokenHash, init), Answer(v, Xor(tokenHash, last)));
    }
  }

  lemma {:induction false} FoundAnswers(v: View, tokenHash: Hash, roots: seq<Hash>, e: Entry)
    ensures e in Found(v, tokenHash, roots) <==> exists root :: root in roots && e in Answer(v, Xor(tokenHash, root))
  {
    hide Xor, Answer;
    if roots != [] {
      var init, last := roots[..|roots| - 1], roots[|roots| - 1];
      FoundAnswers(v, tokenHash, init, e);
      assert roots == init + [last];
      assert forall root :: root in roots <==> root in init || root == last;
    }
  }

  /** Discovery in memory finds an entry for a token exactly when it was appended under the key of the token and a root. */
  lemma FoundIff(log: Log, tokenHash: Hash, roots: seq<Hash>, e: Entry)
    ensures e in Found(FromLog(log), tokenHash, roots) <==>
            exists root :: root in roots && (Xor(tokenHash, root), e) in log
  {
    FoundAnswers(FromLog(log), tokenHash, roots, e);
    hide Xor, Listed, Found;
    forall root
      ensures e in Answer(FromLog(log), Xor(tokenHash, root)) <==> (Xor(tokenHash, root), e) in log
    {
      ListedFrom(log, Xor(tokenHash, root), e);
    }
  }

  lemma RereadMember(es: seq<Entry>, e: Entry)
    ensures e in Reread(es) <==> exists e0 :: e0 in es && e == Truncated(e0)
  {
    hide Truncated;
    if e0 :| e0 in es && e == Truncated(e0) {
      var i :| 0 <= i < |es| && es[i] == e0;
      assert Reread(es)[i] == e;
    }
  }

  /** On disk it finds what such an entry reads back as. */
  lemma FoundOnDiskIff(kv: map<Data, Data>, log: Log, tokenHash: Hash, roots: seq<Hash>, e: Entry)
    requires Holds(kv, log)
    ensures e in Found(FromDisk(kv), tokenHash, roots) <==>
            exists root, e0 :: root in roots && (Xor(tokenHash, root), e0) in log && e == Truncated(e0)
  {
    FoundAnswers(FromDisk(kv), tokenHash, roots, e);
    hide Xor, Listed, Found, Truncated, Holds, DiskAnswer, Reread;
    forall root
      ensures e in Answer(FromDisk(kv), Xor(tokenHash, root)) <==>
              exists e0 :: (Xor(tokenHash, root), e0) in log && e == Truncated(e0)
    {
      var key := Xor(tokenHash, root);
      LogAnswers(kv, log, key);
      RereadMember(Listed(log, key), e);
      forall e0
        ensures e0 in Listed(log, key) <==> (key, e0) in log
      {
        ListedFrom(log, key, e0);
      }
    }
  }

  /** A token with something found has it listed; one with nothing found, or not probed, is not there. */
  ghost predicate GatheredFor(v: View, tokenHash: TokenHashFn, done: map<string, seq<Hash>>, result: map<string, seq<Entry>>, t: string) {
    if t in done && Found(v, tokenHash(t), done[t]) != []
    then t in result && result[t] == Found(v, tokenHash(t), done[t])
    else t !in result
  }

  ghost predicate Gathered(v: View, tokenHash: TokenHashFn, done: map<string, seq<Hash>>, result: map<string, seq<Entry>>) {
    forall t :: GatheredFor(v, tokenHash, done, result, t)
  }

  /** Tokens before position i have seen one root more than the others. */
  ghost function Progress(tokens: seq<string>, roots: seq<Hash>, r: nat, i: nat): map<string, seq<Hash>>
    requires r < |roots| && i <= |tokens|
  {
    map t | t in tokens :: if t in tokens[..i] then roots[..r + 1] else roots[..r]
  }

  lemma NextToken(tokens: seq<string>, i: nat)
    requires i < |tokens| && NoRepeats(tokens)
    ensures tokens[i] in tokens && tokens[i] !in tokens[..i] && tokens[..i + 1] == tokens[..i] + [tokens[i]]
  {}

  lemma ProgressStep(tokens: seq<string>, roots: seq<Hash>, r: nat, i: nat, u: string)
    requires r < |roots| && i < |tokens| && NoRepeats(tokens)
    ensures var before, after := Progress(tokens, roots, r, i), Progress(tokens, roots, r, i + 1);
      && (u == tokens[i] ==> u in before && before[u] == roots[..r] && u in after && after[u] == roots[..r + 1])
      && (u != tokens[i] ==> (u in before <==> u in after) && (u in before ==> before[u] == after[u]))
  {
    NextToken(tokens, i);
    hide NoRepeats;
  }

  lemma ProbeOther(v: View, tokenHash: TokenHashFn, before: map<string, seq<Hash>>, after: map<string, seq<Hash>>,
                   result: map<string, seq<Entry>>, more: map<string, seq<Entry>>, u: string)
    requires GatheredFor(v, tokenHash, before, result, u)
    requires (u in before <==> u in after) && (u in before ==> before[u] == after[u])
    requires (u in result <==> u in more) && (u in result ==> result[u] == more[u])
    ensures GatheredFor(v, tokenHash, after, more, u)
  {
    hide Found;
  }

  lemma FoundSnoc(v: View, tokenHash: Hash, roots: seq<Hash>, r: nat)
    requires r < |roots|
    ensures Found(v, tokenHash, roots[..r + 1]) == Found(v, tokenHash, roots[..r]) + Answer(v, Xor(tokenHash, roots[r]))
    ensures Found(v, tokenHash, roots[..r]) + [] == Found(v, tokenHash, roots[..r])
  {
    assert roots[..r + 1][..r] == roots[..r];
  }

  lemma GatheredFacts(v: View, tokenHash: TokenHashFn, done: map<string, seq<Hash>>, result: map<string, seq<Entry>>, t: string)
    requires GatheredFor(v, tokenHash, done, result, t) && t in done
    ensures var found := Found(v, tokenHash(t), done[t]); if found == [] then t !in result else t in result && result[t] == found
  {
    hide Found;
  }

  lemma GatheredBy(v: View, tokenHash: TokenHashFn, done: map<string, seq<Hash>>, result: map<string, seq<Entry>>, t: string)
    requires t in done
    requires var found := Found(v, tokenHash(t), done[t]); if found == [] then t !in result else t in result && result[t] == found
    ensures GatheredFor(v, tokenHash, done, result, t)
  {
    hide Found;
  }

  lemma ProbeSame(v: View, tokenHash: TokenHashFn, before: map<string, seq<Hash>>, after: map<string, seq<Hash>>,
                  roots: seq<Hash>, r: nat, result: map<string, seq<Entry>>, t: string)
    requires r < |roots| && t in before && before[t] == roots[..r] && t in after && after[t] == roots[..r + 1]
    requires GatheredFor(v, tokenHash, before, result, t)
    ensures var entries := Answer(v, Xor(tokenHash(t), roots[r]));
      var list := if t in result then result[t] else [];
      GatheredFor(v, tokenHash, after, if entries == [] then result else result[t := list + entries], t)
  {
    var th := tokenHash(t);
    hide *;
    FoundSnoc(v, th, roots, r);
    GatheredFacts(v, tokenHash, before, result, t);
    var f, entries := Found(v, th, roots[..r]), Answer(v, Xor(th, roots[r]));
    if entries != [] {
      assert f + entries != [];
    }
    GatheredBy(v, tokenHash, after, if entries == [] then result else result[t := (if t in result then result[t] else []) + entries], t);
  }

  lemma ProbeStep(v: View, tokenHash: TokenHashFn, tokens: seq<string>, roots: seq<Hash>, r: nat, i: nat, result: map<string, seq<Entry>>)
    requires r < |roots| && i < |tokens| && NoRepeats(tokens)
    requires Gathered(v, tokenHash, Progress(tokens, roots, r, i), result)
    ensures var t := tokens[i];
      var entries := Answer(v, Xor(tokenHash(t), roots[r]));
      var list := if t in result then result[t] else [];
      Gathered(v, tokenHash, Progress(tokens, roots, r, i + 1), if entries == [] then result else result[t := list + entries])
  {
    hide Xor, Answer, GatheredFor, NoRepeats, Progress;
    var t := tokens[i];
    var entries := Answer(v, Xor(tokenHash(t), roots[r]));
    var list := if t in result then result[t] else [];
    var more := if entries == [] then result else result[t := list + entries];
    var before, after := Progress(tokens, roots, r, i), Progress(tokens, roots, r, i + 1);
    forall u
      ensures GatheredFor(v, tokenHash, after, more, u)
    {
      ProgressStep(tokens, roots, r, i, u);
      assert GatheredFor(v, tokenHash, before, result, u);
      if u == t {
        ProbeSame(v, tokenHash, before, after, roots, r, result, t);
      } else {
        ProbeOther(v, tokenHash, before, after, result, more, u);
      }
    }
  }

  ghost function All(tokens: seq<string>, roots: seq<Hash>): map<string, seq<Hash>> {
    map t | t in tokens :: roots
  }

  lemma RootStart(tokens: seq<string>, roots: seq<Hash>, r: nat)
    requires r < |roots|
    ensures Progress(tokens, roots, r, 0) == All(tokens, roots[..r])
    ensures Progress(tokens, roots, r, |tokens|) == All(tokens, roots[..r + 1])
  {
    assert tokens[..|tokens|] == tokens;
  }

  lemma NothingGathered(v: View, tokenHash: TokenHashFn, tokens: seq<string>, roots: seq<Hash>)
    ensures Gathered(v, tokenHash, All(tokens, roots[..0]), map[])
  {
    assert roots[..0] == [];
  }

  lemma RegistryFacts(registry: TokenRegistry)
    requires registry.Valid()
    ensures NoRepeats(registry.tokens)
    ensures forall i :: 0 <= i < |registry.tokens| ==>
      registry.tokens[i] in registry.hashes && registry.hashes[registry.tokens[i]] == registry.tokenHash(registry.tokens[i])
  {
    assert forall i :: 0 <= i < |registry.tokens| ==> registry.tokens[i] in registry.tokens;
  }

  /** The block-announcement probe: every root against every token. */
  method Discover(store: Backend, registry: TokenRegistry, subtreeRoots: seq<Hash>) returns (result: map<string, seq<Entry>>)
    requires store.Valid() && registry.Valid()
    ensures Gathered(store.View(), registry.tokenHash, All(registry.tokens, subtreeRoots), result)
  {
    hide *;
    var tokens := registry.tokens;
    ghost var v := store.View();
    result := map[];
    RegistryFacts(registry);
    NothingGathered(v, registry.tokenHash, tokens, subtreeRoots);
    for r := 0 to |subtreeRoots|
      invariant Gathered(v, registry.tokenHash, All(tokens, subtreeRoots[..r]), result)
    {
      RootStart(tokens, subtreeRoots, r);
      for i := 0 to |tokens|
        invariant Gathered(v, registry.tokenHash, Progress(tokens, subtreeRoots, r, i), result)
      {
        var token := tokens[i];
        var th := registry.hashes[token];
        var key := XORKey(th, subtreeRoots[r]);
        var entries := Lookup(store, key);
        ProbeStep(v, registry.tokenHash, tokens, subtreeRoots, r, i, result);
        if |entries| > 0 {
          var list := if token in result then result[token] else [];
          result := result[token := list + entries];
        }
      }
    }
    assert subtreeRoots[..|subtreeRoots|] == subtreeRoots;
  }

  // ---- The two stores --------------------------------------------------------------------------------

  lemma NothingReread()
    ensures Reread([]) == []
  {}

  /** Both stores hold the same entries under every key, so the disk finds what the memory does, as it reads back. */
  lemma {:induction false} FoundReread(log: Log, kv: map<Data, Data>, onDisk: Log, tokenHash: Hash, roots: seq<Hash>)
    requires Holds(kv, onDisk) && forall key :: Listed(log, key) == Listed(onDisk, key)
    ensures Found(FromDisk(kv), tokenHash, roots) == Reread(Found(FromLog(log), tokenHash, roots))
  {
    hide Xor, Listed, Holds, DiskAnswer, Reread;
    if roots == [] {
      NothingReread();
    } else {
      var init, last := roots[..|roots| - 1], roots[|roots| - 1];
      var key := Xor(tokenHash, last);
      FoundReread(log, kv, onDisk, tokenHash, init);
      assert Listed(log, key) == Listed(onDisk, key);
      LogAnswers(kv, onDisk, key);
      RereadConcat(Found(FromLog(log), tokenHash, init), Listed(log, key));
    }
  }

  ghost predicate AllFit(es: seq<Entry>) {
    forall j :: 0 <= j < |es| ==> EntryFits(es[j])
  }

  lemma RereadSize(es: seq<Entry>)
    ensures Reread(es) == [] <==> es == []
  {}

  /** One token's result from either store: the same exactly when all it found in memory fits. */
  lemma GatheredAgree(log: Log, kv: map<Data, Data>, onDisk: Log, tokenHash: TokenHashFn, done: map<string, seq<Hash>>,
                      a: map<string, seq<Entry>>, b: map<string, seq<Entry>>, t: string)
    requires Holds(kv, onDisk) && forall key :: Listed(log, key) == Listed(onDisk, key)
    requires Gathered(FromLog(log), tokenHash, done, a) && Gathered(FromDisk(kv), tokenHash, done, b)
    ensures t in a <==> t in b
    ensures t in a ==> (a[t] == b[t] <==> AllFit(a[t]))
  {
    assert GatheredFor(FromLog(log), tokenHash, done, a, t) && GatheredFor(FromDisk(kv), tokenHash, done, b, t);
    hide Found, Listed, Holds, Reread, Gathered, EntryFits;
    if t in done {
      FoundReread(log, kv, onDisk, tokenHash(t), done[t]);
      RereadWhole(Found(FromLog(log), tokenHash(t), done[t]));
      RereadSize(Found(FromLog(log), tokenHash(t), done[t]));
    }
  }

  /**
    Discovery over two stores that hold the same entries under every key, in whatever order their logs interleave
    them: one answer exactly when every entry found fits its four-byte fields.
   */
  method DiscoverBoth(mem: Store, disk: DiskStumpStore, registry: TokenRegistry, subtreeRoots: seq<Hash>)
    returns (a: map<string, seq<Entry>>, b: map<string, seq<Entry>>)
    requires mem.Valid() && disk.Valid() && registry.Valid()
    requires forall key :: Listed(mem.log, key) == Listed(disk.log, key)
    ensures Gathered(FromLog(mem.log), registry.tokenHash, All(registry.tokens, subtreeRoots), a)
    ensures Gathered(FromDisk(disk.db.kv), registry.tokenHash, All(registry.tokens, subtreeRoots), b)
    ensures a == b <==> forall t :: t in a ==> AllFit(a[t])
  {
    assert Holds(disk.db.kv, disk.log);
    hide *;
    a := Discover(InMemory(mem), registry, subtreeRoots);
    b := Discover(OnDisk(disk), registry, subtreeRoots);
    assert InMemory(mem).View() == FromLog(mem.log) && OnDisk(disk).View() == FromDisk(disk.db.kv);
    forall t: string
      ensures t in a <==> t in b
      ensures t in a ==> (a[t] == b[t] <==> AllFit(a[t]))
    {
      GatheredAgree(mem.log, disk.db.kv, disk.log, registry.tokenHash, All(registry.tokens, subtreeRoots), a, b, t);
    }
  }

  lemma NoStumps()
    ensures Holds(map[], [])
  {}

  lemma FromNothing(a: Log, b: Log, mem: Log, disk: Log)
    requires mem == [] + a && disk == [] + b
    ensures mem == a && disk == b
  {}

  lemma SameCalls(a: Log, b: Log, calls: seq<Call>)
    requires AddsCalls(a, calls) && AddsCalls(b, calls)
    ensures forall key :: Listed(a, key) == Listed(b, key)
  {
    hide Listed, Called;
  }

  /**
    The same run of calls on a new store of either kind, and then discovery over both: in memory it gathers what
    the calls appended, and the disk gives the same answer exactly when every entry found fits.
   */
  method DiscoverAfter(calls: seq<Call>, registry: TokenRegistry, subtreeRoots: seq<Hash>)
    returns (a: map<string, seq<Entry>>, b: map<string, seq<Entry>>, ghost log: Log)
    requires registry.Valid() && CallsSize(calls) < U64
    ensures AddsCalls(log, calls)
    ensures Gathered(FromLog(log), registry.tokenHash, All(registry.tokens, subtreeRoots), a)
    ensures a == b <==> forall t :: t in a ==> AllFit(a[t])
  {
    var db := new DB();
    NoStumps();
    hide *;
    var disk := new DiskStumpStore(db);
    var mem := new Store();
    log := PerformAllInMemory(mem, calls);
    ghost var added := PerformAll(disk, calls);
    FromNothing(log, added, mem.log, disk.log);
    SameCalls(log, added, calls);
    a, b := DiscoverBoth(mem, disk, registry, subtreeRoots);
  }
}
