/** Token names, and the index from (token, subtree) to leaf positions. */
module TokenIndex {
  import opened Arith
  import opened Sorting

  // ---- Names ---------------------------------------------------------------------------------------

  function Digit(d: nat): char
    requires d < 10
  {
    "0123456789"[d]
  }

  /** %d for a non-negative number. */
  function Decimal(n: nat): (s: string)
    ensures s != []
  {
    if n < 10 then [Digit(n)] else Decimal(n / 10) + [Digit(n % 10)]
  }

  function DigitValue(c: char): (d: nat)
    ensures d < 10
  {
    if '0' <= c <= '9' then (c - '0') as nat else 0
  }

  /** The number a string of digits spells. */
  function Scan(s: string): nat {
    if s == [] then 0 else 10 * Scan(s[..|s| - 1]) + DigitValue(s[|s| - 1])
  }

  const PREFIX := "token-"

  function TokenName(ti: nat): string {
    PREFIX + Decimal(ti)
  }

  /** Sscanf(name, "token-%d"), on names the index holds. */
  function ScanToken(name: string): nat {
    if PREFIX <= name then Scan(name[|PREFIX|..]) else 0
  }

  lemma DigitScans(d: nat)
    requires d < 10
    ensures DigitValue(Digit(d)) == d
  {}

  lemma ScanNothing()
    ensures Scan("") == 0
  {}

  lemma ScanSnoc(s: string, c: char)
    ensures Scan(s + [c]) == 10 * Scan(s) + DigitValue(c)
  {
    assert (s + [c])[..|s|] == s;
  }

  lemma {:induction false} ScanDecimal(n: nat)
    ensures Scan(Decimal(n)) == n
  {
    DigitScans(n % 10);
    hide Scan, Digit, DigitValue;
    if n < 10 {
      ScanSnoc("", Digit(n));
      ScanNothing();
      assert "" + [Digit(n)] == [Digit(n)];
    } else {
      ScanDecimal(n / 10);
      ScanSnoc(Decimal(n / 10), Digit(n % 10));
    }
  }

  function Pow10(i: nat): (p: nat)
    ensures p > 0
  {
    if i == 0 then 1 else 10 * Pow10(i - 1)
  }

  /** The decimal digit at a power of ten. */
  function DigitAt(n: nat, i: nat): char {
    "0123456789"[(n / Pow10(i)) % 10]
  }

  /** s spells n: a digit for each power of ten, the lowest last, and no leading zero unless it is alone. */
  ghost predicate Spells(s: string, n: nat) {
    && s != [] && n < Pow10(|s|) && (|s| > 1 ==> Pow10(|s| - 1) <= n)
    && forall i :: 0 <= i < |s| ==> s[i] == DigitAt(n, |s| - 1 - i)
  }

  lemma DigitLater(n: nat, i: nat)
    requires i > 0
    ensures DigitAt(n, i) == DigitAt(n / 10, i - 1)
  {
    DivTwice(n, 10, Pow10(i - 1));
  }

  lemma DigitLast(n: nat)
    ensures DigitAt(n, 0) == Digit(n % 10)
  {
    assert Pow10(0) == 1;
  }

  lemma SpellsNext(init: string, n: nat)
    requires n >= 10 && Spells(init, n / 10)
    ensures Spells(init + [Digit(n % 10)], n)
  {
    DigitLast(n);
    var s := init + [Digit(n % 10)];
    hide DigitAt, Digit;
    assert Pow10(|s|) == 10 * Pow10(|init|);
    assert Pow10(|s| - 1) == (if |init| > 1 then 10 * Pow10(|init| - 1) else 10) by {
      if |init| == 1 { assert Pow10(0) == 1; }
    }
    forall i | 0 <= i < |init|
      ensures s[i] == DigitAt(n, |s| - 1 - i)
    {
      DigitLater(n, |s| - 1 - i);
    }
  }

  lemma {:induction false} DecimalSpells(n: nat)
    ensures Spells(Decimal(n), n)
  {
    if n < 10 {
      assert Pow10(0) == 1 && Pow10(1) == 10;
      DigitLast(n);
    } else {
      DecimalSpells(n / 10);
      SpellsNext(Decimal(n / 10), n);
      hide Spells;
    }
  }

  /** A token's name is "token-" and its number spelled out. */
  lemma NameSpells(ti: nat)
    ensures |TokenName(ti)| > 6 && TokenName(ti)[..6] == "token-" && Spells(TokenName(ti)[6..], ti)
  {
    DecimalSpells(ti);
    hide Spells;
    assert TokenName(ti)[6..] == Decimal(ti);
  }

  lemma NameSamples()
    ensures TokenName(7) == "token-7" && TokenName(120) == "token-120"
  {
    assert Decimal(1) == "1";
    assert Decimal(12) == "1" + "2";
    assert Decimal(120) == Decimal(12) + "0";
  }

  /** A token's index survives the trip through its name, so names are distinct. */
  lemma NameRoundTrip(ti: nat)
    ensures ScanToken(TokenName(ti)) == ti
  {
    ScanDecimal(ti);
    assert TokenName(ti)[|PREFIX|..] == Decimal(ti);
  }

  lemma NamesRoundTrip()
    ensures forall ti: nat :: ScanToken(TokenName(ti)) == ti
  {
    hide ScanToken, TokenName;
    forall ti: nat
      ensures ScanToken(TokenName(ti)) == ti
    {
      NameRoundTrip(ti);
    }
  }

  // ---- The index -----------------------------------------------------------------------------------

  type Entries = map<string, map<nat, seq<nat>>>

  /** The positions filed for a token in a subtree. */
  function At(entries: Entries, token: string, si: nat): seq<nat> {
    if token in entries && si in entries[token] then entries[token][si] else []
  }

  /** No empty list is ever stored, so the keys name exactly the places that hold positions. */
  ghost predicate NoEmptyLists(entries: Entries) {
    forall t :: t in entries ==> entries[t] != map[] && forall si :: si in entries[t] ==> entries[t][si] != []
  }

  /** after is before with idxs appended at one place. */
  ghost predicate AppendedAt(before: Entries, after: Entries, token: string, si: nat, idxs: seq<nat>) {
    forall t, s :: At(after, t, s) == if t == token && s == si then At(before, t, s) + idxs else At(before, t, s)
  }

  /** Storing the longer list is appending at that place. */
  lemma StoredList(before: Entries, token: string, si: nat, idxs: seq<nat>)
    requires NoEmptyLists(before) && idxs != []
    ensures var sm: map<nat, seq<nat>> := if token in before then before[token] else map[];
      var list := if si in sm then sm[si] else [];
      var after := before[token := sm[si := list + idxs]];
      NoEmptyLists(after) && AppendedAt(before, after, token, si, idxs)
  {
    var sm: map<nat, seq<nat>> := if token in before then before[token] else map[];
    var list := if si in sm then sm[si] else [];
    var after := before[token := sm[si := list + idxs]];
    forall t, s
      ensures At(after, t, s) == if t == token && s == si then At(before, t, s) + idxs else At(before, t, s)
    {
      if t == token {
        assert after[t] == sm[si := list + idxs];
      }
    }
    assert si in after[token];
  }

  /** Ranging over a map's keys. */
  method Keys<K(==, !new), V>(m: map<K, V>) returns (keys: seq<K>)
    ensures NoRepeats(keys) && forall k :: k in keys <==> k in m
  {
    keys := [];
    var todo := m.Keys;
    while todo != {}
      invariant todo <= m.Keys && NoRepeats(keys)
      invariant forall k :: k in keys <==> k in m && k !in todo
      decreases todo
    {
      var k :| k in todo;
      NoRepeatsAppend(keys, [k]);
      assert forall x :: x in keys + [k] <==> x in keys || x == k;
      todo := todo - {k};
      keys := keys + [k];
    }
  }

  class TokenSubtreeIndex {
    var entries: Entries

    constructor ()
      ensures entries == map[] && NoEmptyLists(entries)
    {
      entries := map[];
    }

    method Add(token: string, subtreeIdx: nat, localIdx: nat)
      requires NoEmptyLists(entries)
      modifies this
      ensures NoEmptyLists(entries)
      ensures AppendedAt(old(entries), entries, token, subtreeIdx, [localIdx])
    {
      var sm: map<nat, seq<nat>> := if token in entries then entries[token] else map[];
      var list := if subtreeIdx in sm then sm[subtreeIdx] else [];
      entries := entries[token := sm[subtreeIdx := list + [localIdx]]];
      hide At, NoEmptyLists, AppendedAt;
      StoredList(old(entries), token, subtreeIdx, [localIdx]);
    }

    method AddBatch(token: string, subtreeIdx: nat, localIdxs: seq<nat>)
      requires NoEmptyLists(entries)
      modifies this
      ensures NoEmptyLists(entries)
      ensures AppendedAt(old(entries), entries, token, subtreeIdx, localIdxs)
    {
      if |localIdxs| == 0 {
        return;
      }
      var sm: map<nat, seq<nat>> := if token in entries then entries[token] else map[];
      var list := if subtreeIdx in sm then sm[subtreeIdx] else [];
      entries := entries[token := sm[subtreeIdx := list + localIdxs]];
      hide At, NoEmptyLists, AppendedAt;
      StoredList(old(entries), token, subtreeIdx, localIdxs);
    }

    method Get(token: string, subtreeIdx: nat) returns (idxs: seq<nat>)
      ensures idxs == At(entries, token, subtreeIdx)
    {
      if token !in entries {
        return [];
      }
      var sm := entries[token];
      idxs := if subtreeIdx in sm then sm[subtreeIdx] else [];
    }

    /** Every token with an entry, once, in any order. */
    method Tokens() returns (tokens: seq<string>)
      requires NoEmptyLists(entries)
      ensures NoRepeats(tokens)
      ensures forall t :: t in tokens <==> exists si :: At(entries, t, si) != []
    {
      tokens := Keys(entries);
      forall t
        ensures t in entries <==> exists si :: At(entries, t, si) != []
      {
        if t in entries {
          var si :| si in entries[t];
          assert At(entries, t, si) != [];
        }
      }
    }

    /** The subtrees that hold positions of the token, once each, in any order. */
    method SubtreeIndices(token: string) returns (result: seq<nat>)
      requires NoEmptyLists(entries)
      ensures NoRepeats(result)
      ensures forall si :: si in result <==> At(entries, token, si) != []
    {
      if token !in entries {
        return [];
      }
      result := Keys(entries[token]);
    }
  }
}
