/** Least-recently-used dictionaries: entries in use order, oldest first. */
module LruCaches {
  import opened Cards

  predicate DistinctFirsts<K(==), V>(entries: seq<(K, V)>) {
    forall i, j :: 0 <= i < j < |entries| ==> entries[i].0 != entries[j].0
  }

  /** A dictionary of at most limit entries. */
  predicate Bounded<K(==), V>(entries: seq<(K, V)>, limit: nat) {
    |entries| <= limit && DistinctFirsts(entries)
  }

  function Find<K(==), V>(entries: seq<(K, V)>, key: K): (r: Option<V>)
    ensures r.Some? ==> (key, r.value) in entries
    ensures r.None? ==> forall i :: 0 <= i < |entries| ==> entries[i].0 != key
  {
    if entries == [] then None
    else
      assert entries == [entries[0]] + entries[1..];
      if entries[0].0 == key then Some(entries[0].1) else Find(entries[1..], key)
  }

  /** The entries under other keys, in order. */
  function Others<K(==), V>(entries: seq<(K, V)>, key: K): (r: seq<(K, V)>)
    ensures forall i :: 0 <= i < |r| ==> r[i] in entries && r[i].0 != key
    ensures |r| <= |entries|
  {
    if entries == [] then []
    else
      assert entries == [entries[0]] + entries[1..];
      (if entries[0].0 == key then [] else [entries[0]]) + Others(entries[1..], key)
  }

  /** Only the newest entries, at most limit of them. */
  function Newest<K, V>(entries: seq<(K, V)>, limit: nat): seq<(K, V)> {
    if |entries| <= limit then entries else entries[|entries| - limit..]
  }

  /** move_to_end of a key that is present. */
  function Touched<K(==), V>(entries: seq<(K, V)>, key: K): seq<(K, V)> {
    match Find(entries, key)
    case None => entries
    case Some(value) => Others(entries, key) + [(key, value)]
  }

  /** An insertion that becomes the newest entry and evicts the oldest ones beyond the limit. */
  function Stored<K(==), V>(entries: seq<(K, V)>, key: K, value: V, limit: nat): seq<(K, V)> {
    Newest(Others(entries, key) + [(key, value)], limit)
  }

  /** The insertion with its eviction loop. */
  method Store<K(==), V>(entries: seq<(K, V)>, key: K, value: V, limit: nat) returns (r: seq<(K, V)>)
    ensures r == Stored(entries, key, value, limit)
  {
    r := Others(entries, key) + [(key, value)];
    ghost var all := r;
    while |r| > limit
      invariant |r| <= |all| && r == all[|all| - |r|..]
      invariant |r| >= limit || r == all
    {
      r := r[1..];
    }
  }

  lemma OthersDistinct<K, V>(entries: seq<(K, V)>, key: K)
    requires DistinctFirsts(entries)
    ensures DistinctFirsts(Others(entries, key))
  {
    if entries != [] {
      var tail := entries[1..];
      OthersDistinct(tail, key);
      var rest := Others(tail, key);
      forall i | 0 <= i < |rest| ensures rest[i].0 != entries[0].0 {
        assert rest[i] in tail;
        var j :| 0 <= j < |tail| && tail[j] == rest[i];
        assert entries[j + 1] == rest[i];
      }
    }
  }

  lemma PresentIsShorter<K, V>(entries: seq<(K, V)>, key: K, value: V)
    requires (key, value) in entries
    ensures |Others(entries, key)| < |entries|
  {
    assert entries == [entries[0]] + entries[1..];
    if entries[0].0 != key { PresentIsShorter(entries[1..], key, value); }
  }

  lemma AppendDistinct<K, V>(entries: seq<(K, V)>, key: K, value: V)
    requires DistinctFirsts(entries) && forall i :: 0 <= i < |entries| ==> entries[i].0 != key
    ensures DistinctFirsts(entries + [(key, value)])
  {}

  /** A touch keeps the entries and the bound. */
  lemma TouchKeeps<K, V>(entries: seq<(K, V)>, key: K, limit: nat)
    requires Bounded(entries, limit)
    ensures Bounded(Touched(entries, key), limit)
    ensures forall i :: 0 <= i < |Touched(entries, key)| ==> Touched(entries, key)[i] in entries
  {
    OthersDistinct(entries, key);
    var found := Find(entries, key);
    if found.Some? {
      PresentIsShorter(entries, key, found.value);
      AppendDistinct(Others(entries, key), key, found.value);
    }
  }

  /** A store keeps the bound and adds nothing but its own entry, which it makes the newest. */
  lemma StoreKeeps<K, V>(entries: seq<(K, V)>, key: K, value: V, limit: nat)
    requires Bounded(entries, limit) && limit > 0
    ensures Bounded(Stored(entries, key, value, limit), limit)
    ensures forall i :: 0 <= i < |Stored(entries, key, value, limit)| ==>
              var e := Stored(entries, key, value, limit)[i]; e == (key, value) || e in entries
    ensures Find(Stored(entries, key, value, limit), key) == Some(value)
  {
    OthersDistinct(entries, key);
    AppendDistinct(Others(entries, key), key, value);
    var all := Others(entries, key) + [(key, value)];
    var kept := Stored(entries, key, value, limit);
    assert kept == all[|all| - |kept|..];
    forall i, j | 0 <= i < j < |kept| ensures kept[i].0 != kept[j].0 {
      assert kept[i] == all[|all| - |kept| + i] && kept[j] == all[|all| - |kept| + j];
    }
    forall i | 0 <= i < |kept| ensures kept[i] == (key, value) || kept[i] in entries {
      assert kept[i] == all[|all| - |kept| + i];
    }
    assert kept[|kept| - 1] == (key, value);
    FoundIfPresent(kept, key, value);
  }

  lemma FoundIfPresent<K, V>(entries: seq<(K, V)>, key: K, value: V)
    requires DistinctFirsts(entries) && (key, value) in entries
    ensures Find(entries, key) == Some(value)
  {
    var i :| 0 <= i < |entries| && entries[i] == (key, value);
    if i > 0 {
      assert entries[0].0 != entries[i].0;
      assert entries[1..][i - 1] == (key, value);
      FoundIfPresent(entries[1..], key, value);
    }
  }
}
