/** Weighted two-card combos, the entries of a range. */
module Combos {
  import opened Cards

  /** One range entry: two cards and their marginal weight. */
  datatype Entry = Entry(first: Card, second: Card, weight: real) {
    function Pair(): (Card, Card) { (first, second) }
  }

  function EntryWeights(entries: seq<Entry>): (s: seq<real>)
    ensures |s| == |entries| && forall i :: 0 <= i < |entries| ==> s[i] == entries[i].weight
  {
    seq(|entries|, i requires 0 <= i < |entries| => entries[i].weight)
  }

  predicate DistinctPairs(entries: seq<Entry>) {
    forall i, j :: 0 <= i < j < |entries| ==> entries[i].Pair() != entries[j].Pair()
  }

  /** The entries that hold no blocked card, in order. */
  function Eligible(entries: seq<Entry>, blocked: set<Card>): (r: seq<Entry>)
    ensures forall e :: e in r <==> e in entries && e.first !in blocked && e.second !in blocked
  {
    if entries == [] then []
    else
      assert entries == [entries[0]] + entries[1..];
      (if entries[0].first !in blocked && entries[0].second !in blocked then [entries[0]] else [])
      + Eligible(entries[1..], blocked)
  }

  lemma {:induction false} EligibleDistinct(entries: seq<Entry>, blocked: set<Card>)
    requires DistinctPairs(entries)
    ensures DistinctPairs(Eligible(entries, blocked))
  {
    if entries != [] {
      assert entries == [entries[0]] + entries[1..];
      EligibleDistinct(entries[1..], blocked);
      var rest := Eligible(entries[1..], blocked);
      forall i | 0 <= i < |rest| ensures rest[i].Pair() != entries[0].Pair() {
        assert rest[i] in entries[1..];
        var j :| 0 <= j < |entries[1..]| && entries[1..][j] == rest[i];
        assert entries[j + 1] == rest[i];
      }
    }
  }
}
