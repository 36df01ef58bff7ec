/**
 * Static tables keyed by grapheme, as the source writes them: an array of
 * (key, value) pairs searched by key, and a `phf_map!`, a map fixed at compile
 * time from its list of `key => value` entries.
 */
module Tables {
  import opened Primitives

  /** No key occurs twice in a list of entries (`phf_map!` refuses duplicates). */
  predicate DistinctKeys<V>(entries: seq<(string, V)>) {
    forall i, j :: 0 <= i < j < |entries| ==> entries[i].0 != entries[j].0
  }

  /**
   * The value paired with `key`: that of the first entry whose key it is, and
   * `None` when no entry has that key.
   */
  function Lookup<V>(entries: seq<(string, V)>, key: string): (r: Option<V>)
    ensures r.Some? ==> (key, r.value) in entries
    ensures r.None? <==> forall i :: 0 <= i < |entries| ==> entries[i].0 != key
  {
    if entries == [] then None
    else if entries[0].0 == key then Some(entries[0].1)
    else Lookup(entries[1..], key)
  }

  /** With distinct keys, looking up the key of any entry yields that entry's value. */
  lemma {:induction false} LookupEntry<V>(entries: seq<(string, V)>, i: nat)
    requires DistinctKeys(entries)
    requires i < |entries|
    ensures Lookup(entries, entries[i].0) == Some(entries[i].1)
  {
    if i > 0 {
      assert entries[0].0 != entries[i].0;
      assert DistinctKeys(entries[1..]) by {
        forall a, b | 0 <= a < b < |entries[1..]| ensures entries[1..][a].0 != entries[1..][b].0 {
          assert entries[1..][a] == entries[a + 1] && entries[1..][b] == entries[b + 1];
        }
      }
      LookupEntry(entries[1..], i - 1);
      assert entries[1..][i - 1] == entries[i];
    }
  }

  /** The map a `phf_map!` builds from its entries; with duplicate keys, the first entry would win. */
  function MapOf<V>(entries: seq<(string, V)>): (m: map<string, V>)
    ensures forall k :: k in m <==> Lookup(entries, k).Some?
    ensures forall k :: k in m ==> m[k] == Lookup(entries, k).value
  {
    if entries == [] then map[]
    else MapOf(entries[1..])[entries[0].0 := entries[0].1]
  }

  /** `map.get(key)` on a `phf_map!`: `None` for a key with no entry. */
  function Get<V>(m: map<string, V>, key: string): Option<V>
  {
    if key in m then Some(m[key]) else None
  }

  /** Getting a key from the map built from entries is looking it up in the entries. */
  lemma GetMapOf<V>(entries: seq<(string, V)>, key: string)
    ensures Get(MapOf(entries), key) == Lookup(entries, key)
  {
  }

  /** `rank` sends the key of each entry to that entry's position. */
  predicate RankedBy<V>(entries: seq<(string, V)>, rank: string -> int) {
    forall i :: 0 <= i < |entries| ==> rank(entries[i].0) == i
  }

  /** Keys are distinct when some ranking sends each entry's key to that entry's position. */
  lemma DistinctByRank<V>(entries: seq<(string, V)>, rank: string -> int)
    requires RankedBy(entries, rank)
    ensures DistinctKeys(entries)
  {
  }

  /** A key that such a ranking sends below zero has no entry. */
  lemma AbsentByRank<V>(entries: seq<(string, V)>, rank: string -> int, key: string)
    requires RankedBy(entries, rank)
    requires rank(key) < 0
    ensures Lookup(entries, key) == None
  {
  }

  /** With a ranking, looking up the key of any entry yields that entry's value. */
  lemma LookupRanked<V>(entries: seq<(string, V)>, rank: string -> int, i: nat)
    requires RankedBy(entries, rank)
    requires i < |entries|
    ensures Lookup(entries, entries[i].0) == Some(entries[i].1)
  {
    DistinctByRank(entries, rank);
    LookupEntry(entries, i);
  }
}
