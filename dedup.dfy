/** The de-duplication of strategy 3 in src/services/api.ts:
    `Array.from(new Map(allResults.map(item => [item.fsq_id || item.id, item])).values())`.
    A JavaScript `Map` keeps a key at the position where it was first set
    and the value it was last set to. */
module Dedup {
  import opened Wrappers
  import opened Text
  import opened Places

  /** `item.fsq_id || item.id`; `None` is `undefined`, a key of its own. */
  type Key = Option<string>

  function KeyOf(p: RawPoi): Key {
    if Truthy(p.fsqId) then p.fsqId else p.id
  }

  /** The key of every record, in order. */
  function KeysOf(s: seq<RawPoi>): (ks: seq<Key>)
    ensures |ks| == |s|
  {
    seq(|s|, i requires 0 <= i < |s| => KeyOf(s[i]))
  }

  /** The keys of the map built from `s`, in insertion order. */
  function FirstKeys(s: seq<RawPoi>): seq<Key>
    decreases |s|
  {
    if s == [] then []
    else
      var ks := FirstKeys(s[..|s| - 1]);
      var k := KeyOf(s[|s| - 1]);
      if k in ks then ks else ks + [k]
  }

  /** The map built from `s`: every key bound to its last record. */
  function LastSeen(s: seq<RawPoi>): map<Key, RawPoi>
    decreases |s|
  {
    if s == [] then map[] else LastSeen(s[..|s| - 1])[KeyOf(s[|s| - 1]) := s[|s| - 1]]
  }

  lemma {:induction false} KeysAgree(s: seq<RawPoi>)
    ensures forall k :: k in FirstKeys(s) <==> k in LastSeen(s)
    decreases |s|
  {
    if s != [] { KeysAgree(s[..|s| - 1]); }
  }

  /** The values of the map, in key order. */
  function Deduplicated(s: seq<RawPoi>): seq<RawPoi> {
    var ks := FirstKeys(s);
    var seen := LastSeen(s);
    KeysAgree(s);
    seq(|ks|, i requires 0 <= i < |ks| => seen[ks[i]])
  }

  /** Building the map entry by entry and then reading its values. */
  method DedupeByKey(items: seq<RawPoi>) returns (unique: seq<RawPoi>)
    ensures unique == Deduplicated(items)
  {
    var order: seq<Key> := [];
    var seen: map<Key, RawPoi> := map[];
    for i := 0 to |items|
      invariant order == FirstKeys(items[..i])
      invariant seen == LastSeen(items[..i])
    {
      assert items[..i + 1][..i] == items[..i];
      KeysAgree(items[..i]);
      var k := KeyOf(items[i]);
      if k !in seen {
        order := order + [k];
      }
      seen := seen[k := items[i]];
    }
    assert items[..|items|] == items;
    KeysAgree(items);
    unique := seq(|order|, j requires 0 <= j < |order| => seen[order[j]]);
  }

  // ----------------------------------------------------- facts about keys

  lemma {:induction false} FirstKeysMembers(s: seq<RawPoi>)
    ensures forall k :: k in FirstKeys(s) <==> k in KeysOf(s)
    decreases |s|
  {
    if s != [] {
      var t := s[..|s| - 1];
      FirstKeysMembers(t);
      assert KeysOf(s) == KeysOf(t) + [KeyOf(s[|s| - 1])];
    }
  }

  lemma {:induction false} FirstKeysDistinct(s: seq<RawPoi>)
    ensures forall a, b :: 0 <= a < b < |FirstKeys(s)| ==> FirstKeys(s)[a] != FirstKeys(s)[b]
    ensures |FirstKeys(s)| <= |s|
    decreases |s|
  {
    if s != [] { FirstKeysDistinct(s[..|s| - 1]); }
  }

  lemma {:induction false} LastSeenKeys(s: seq<RawPoi>)
    ensures forall k :: k in LastSeen(s) ==> KeyOf(LastSeen(s)[k]) == k
    decreases |s|
  {
    if s != [] { LastSeenKeys(s[..|s| - 1]); }
  }

  /** The record bound to a key is the last record of `s` with that key. */
  lemma {:induction false} LastSeenIsLast(s: seq<RawPoi>, k: Key)
    requires k in LastSeen(s)
    ensures exists i :: 0 <= i < |s| && LastSeen(s)[k] == s[i] &&
                        (forall j :: i < j < |s| ==> KeyOf(s[j]) != k)
    decreases |s|
  {
    var n := |s| - 1;
    var t := s[..n];
    assert LastSeen(s) == LastSeen(t)[KeyOf(s[n]) := s[n]];
    if KeyOf(s[n]) == k {
      assert LastSeen(s)[k] == s[n];
    } else {
      assert k in LastSeen(t);
      LastSeenIsLast(t, k);
      var i :| 0 <= i < |t| && LastSeen(t)[k] == t[i] &&
               (forall j :: i < j < |t| ==> KeyOf(t[j]) != k);
      assert LastSeen(s)[k] == s[i];
      forall j | i < j < |s|
        ensures KeyOf(s[j]) != k
      {
        if j < n { assert s[j] == t[j]; }
      }
    }
  }

  /** Keys are inserted in the order they first appear: the keys of a prefix
      are a prefix of the keys. */
  lemma {:induction false} FirstKeysPrefix(s: seq<RawPoi>, n: nat)
    requires n <= |s|
    ensures |FirstKeys(s[..n])| <= |FirstKeys(s)|
    ensures FirstKeys(s[..n]) == FirstKeys(s)[..|FirstKeys(s[..n])|]
    decreases |s| - n
  {
    if n < |s| {
      FirstKeysPrefix(s, n + 1);
      assert s[..n + 1][..n] == s[..n];
      assert s[..n] == s[..n + 1][..|s[..n+1]| - 1];
    } else {
      assert s[..n] == s;
    }
  }

  // ------------------------------------------- what the de-duplication does

  /** Never longer than its input, and empty only for an empty input. */
  lemma DedupLength(s: seq<RawPoi>)
    ensures |Deduplicated(s)| <= |s|
    ensures Deduplicated(s) == [] <==> s == []
  {
    FirstKeysDistinct(s);
    FirstKeysMembers(s);
    if s != [] {
      assert KeysOf(s)[0] == KeyOf(s[0]);
    }
  }

  /** Exactly one record per distinct key: the keys of the output are
      pairwise different and are exactly the keys of the input. */
  lemma DedupOnePerKey(s: seq<RawPoi>)
    ensures forall a, b :: 0 <= a < b < |Deduplicated(s)| ==>
              KeyOf(Deduplicated(s)[a]) != KeyOf(Deduplicated(s)[b])
    ensures forall k :: k in KeysOf(s) <==> k in KeysOf(Deduplicated(s))
  {
    var d := Deduplicated(s);
    var ks := FirstKeys(s);
    KeysAgree(s);
    LastSeenKeys(s);
    FirstKeysDistinct(s);
    FirstKeysMembers(s);
    assert KeysOf(d) == ks;
  }

  /** The record kept for a key is the last record of the input with it. */
  lemma DedupKeepsLast(s: seq<RawPoi>, a: nat)
    requires a < |Deduplicated(s)|
    ensures exists i :: 0 <= i < |s| && Deduplicated(s)[a] == s[i] &&
                        (forall j :: i < j < |s| ==> KeyOf(s[j]) != KeyOf(s[i]))
  {
    KeysAgree(s);
    LastSeenKeys(s);
    var k := FirstKeys(s)[a];
    LastSeenIsLast(s, k);
  }

  /** A key that first occurs at position `i` sits in the key order at an
      index below the number of keys of `s[..i + 1]`, and at or above the
      number of keys of `s[..i]`. */
  lemma FirstKeyPosition(s: seq<RawPoi>, i: nat)
    requires i < |s|
    requires forall m :: 0 <= m < i ==> KeyOf(s[m]) != KeyOf(s[i])
    ensures exists a :: |FirstKeys(s[..i])| <= a < |FirstKeys(s[..i + 1])| &&
                        a < |FirstKeys(s)| && FirstKeys(s)[a] == KeyOf(s[i])
  {
    var t := s[..i + 1];
    assert t[..i] == s[..i];
    assert KeyOf(t[i]) !in FirstKeys(s[..i]) by {
      FirstKeysMembers(s[..i]);
    }
    assert FirstKeys(t) == FirstKeys(s[..i]) + [KeyOf(s[i])];
    FirstKeysPrefix(s, i + 1);
    var a := |FirstKeys(s[..i])|;
    assert FirstKeys(s)[a] == FirstKeys(t)[a] == KeyOf(s[i]);
  }

  /** The output is ordered by first occurrence: of two keys, the one that
      appears first in the input appears first in the output. */
  lemma DedupFirstOccurrenceOrder(s: seq<RawPoi>, i: nat, j: nat)
    requires i < j < |s|
    requires forall m :: 0 <= m < i ==> KeyOf(s[m]) != KeyOf(s[i])
    requires forall m :: 0 <= m < j ==> KeyOf(s[m]) != KeyOf(s[j])
    ensures exists a, b :: 0 <= a < b < |Deduplicated(s)| &&
                           KeyOf(Deduplicated(s)[a]) == KeyOf(s[i]) &&
                           KeyOf(Deduplicated(s)[b]) == KeyOf(s[j])
  {
    var d := Deduplicated(s);
    KeysAgree(s);
    LastSeenKeys(s);
    assert KeysOf(d) == FirstKeys(s);
    FirstKeyPosition(s, i);
    FirstKeyPosition(s, j);
    var a :| |FirstKeys(s[..i])| <= a < |FirstKeys(s[..i + 1])| &&
             a < |FirstKeys(s)| && FirstKeys(s)[a] == KeyOf(s[i]);
    var b :| |FirstKeys(s[..j])| <= b < |FirstKeys(s[..j + 1])| &&
             b < |FirstKeys(s)| && FirstKeys(s)[b] == KeyOf(s[j]);
    assert |FirstKeys(s[..i + 1])| <= |FirstKeys(s[..j])| by {
      FirstKeysPrefix(s[..j], i + 1);
      assert s[..j][..i + 1] == s[..i + 1];
    }
    assert KeysOf(d)[a] == KeyOf(d[a]) && KeysOf(d)[b] == KeyOf(d[b]);
  }

  /** Records with neither id share the key `undefined`: two such records
      collapse into one, the later one. */
  lemma KeylessRecordsCollapse(x: RawPoi, y: RawPoi)
    requires KeyOf(x) == None && KeyOf(y) == None
    ensures Deduplicated([x, y]) == [y]
  {
    assert [x, y][..1] == [x];
    assert [x][..0] == [];
    assert FirstKeys([x]) == [None];
    assert FirstKeys([x, y]) == [None];
    assert LastSeen([x, y])[None] == y;
  }
}
