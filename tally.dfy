/** Counting the round's votes and picking the winning echo number:
    `vote_counts` is a dict filled in vote order, and the winner is
    `max(vote_counts.items(), key=count)`, which keeps the first item that
    reaches the highest count. */
module Tally {
  import opened Common
  import opened OrderedDict

  /** The distinct elements of `s` in order of first occurrence. */
  function Dedup(s: seq<int>): (d: seq<int>)
    ensures forall x :: x in d <==> x in s
    ensures NoDup(d)
  {
    if s == [] then []
    else
      var p := Dedup(s[..|s| - 1]);
      var x := s[|s| - 1];
      assert forall y :: y in s <==> y in s[..|s| - 1] || y == x by {
        assert s == s[..|s| - 1] + [x];
      }
      if x in p then p else p + [x]
  }

  /** Position of the first occurrence of `x` in `s`. */
  function FirstIndex(s: seq<int>, x: int): (i: nat)
    requires x in s
    ensures i < |s| && s[i] == x
    ensures forall j :: 0 <= j < i ==> s[j] != x
  {
    var n := |s| - 1;
    if x in s[..n] then FirstIndex(s[..n], x) else n
  }

  /** The vote counts as a map from echo number to count, built vote by
      vote as the counting loop builds it. */
  function TallyOf(s: seq<int>): (m: map<int, nat>)
    ensures forall x :: x in m <==> x in s
  {
    if s == [] then map[]
    else
      var p := s[..|s| - 1];
      var v := s[|s| - 1];
      var m := TallyOf(p);
      assert forall y :: y in s <==> y in p || y == v by {
        assert s == p + [v];
      }
      m[v := (if v in m then m[v] else 0) + 1]
  }

  /** A voted number is mapped to the number of its votes. */
  lemma {:induction false} TallyCount(s: seq<int>, x: int)
    requires x in s
    ensures TallyOf(s)[x] == Occurrences(s, x)
  {
    var p := s[..|s| - 1];
    if x in p {
      TallyCount(p, x);
    }
  }

  /** Python's `max` over the first `n` of `keys` by count: the position of
      the first key whose count is not exceeded by any of them. */
  function LeaderPos(keys: seq<int>, counts: map<int, nat>, n: nat): (p: nat)
    requires 0 < n <= |keys|
    requires forall i :: 0 <= i < |keys| ==> keys[i] in counts
    ensures p < n
    ensures forall j :: 0 <= j < n ==> counts[keys[j]] <= counts[keys[p]]
    ensures forall j :: 0 <= j < p ==> counts[keys[j]] < counts[keys[p]]
  {
    if n == 1 then 0
    else
      var q := LeaderPos(keys, counts, n - 1);
      if counts[keys[n - 1]] > counts[keys[q]] then n - 1 else q
  }

  /** The echo number the round selects from the votes `s`. */
  function Plurality(s: seq<int>): (w: int)
    requires s != []
    ensures w in s
  {
    var keys := Dedup(s);
    assert s[0] in keys;
    keys[LeaderPos(keys, TallyOf(s), |keys|)]
  }

  /** The selected number was voted, no number got more votes, and among
      the numbers with as many votes it is the one voted first. */
  lemma PluralityIsFirstMax(s: seq<int>)
    requires s != []
    ensures Plurality(s) in s
    ensures forall x :: x in s ==> Occurrences(s, x) <= Occurrences(s, Plurality(s))
    ensures forall x :: x in s && Occurrences(s, x) == Occurrences(s, Plurality(s)) ==>
              FirstIndex(s, Plurality(s)) <= FirstIndex(s, x)
  {
    var keys := Dedup(s);
    assert s[0] in keys;
    var counts := TallyOf(s);
    var p := LeaderPos(keys, counts, |keys|);
    var w := keys[p];
    assert w == Plurality(s);
    forall x | x in s ensures Occurrences(s, x) <= Occurrences(s, w) {
      KeyMax(s, keys, counts, p, x);
    }
    forall x | x in s && Occurrences(s, x) == Occurrences(s, w)
      ensures FirstIndex(s, w) <= FirstIndex(s, x)
    {
      KeyFirst(s, keys, counts, p, x);
    }
  }

  /** When every vote lies in lo..hi, so does the selected number. */
  lemma PluralityBounded(s: seq<int>, lo: int, hi: int)
    requires s != [] && forall i :: 0 <= i < |s| ==> lo <= s[i] <= hi
    ensures lo <= Plurality(s) <= hi
  {
    PluralityIsFirstMax(s);
    var i :| 0 <= i < |s| && s[i] == Plurality(s);
  }

  lemma KeyMax(s: seq<int>, keys: seq<int>, counts: map<int, nat>, p: nat, x: int)
    requires s != [] && keys == Dedup(s) && counts == TallyOf(s)
    requires keys != [] && p == LeaderPos(keys, counts, |keys|)
    requires x in s
    ensures Occurrences(s, x) <= Occurrences(s, keys[p])
  {
    var j :| 0 <= j < |keys| && keys[j] == x;
    assert counts[keys[j]] <= counts[keys[p]];
    TallyCount(s, x);
    TallyCount(s, keys[p]);
  }

  lemma KeyFirst(s: seq<int>, keys: seq<int>, counts: map<int, nat>, p: nat, x: int)
    requires s != [] && keys == Dedup(s) && counts == TallyOf(s)
    requires keys != [] && p == LeaderPos(keys, counts, |keys|)
    requires x in s && Occurrences(s, x) == Occurrences(s, keys[p])
    ensures FirstIndex(s, keys[p]) <= FirstIndex(s, x)
  {
    var j :| 0 <= j < |keys| && keys[j] == x;
    TallyCount(s, x);
    TallyCount(s, keys[p]);
    assert counts[keys[j]] == counts[keys[p]];
    assert p <= j;
    if p < j {
      DedupOrder(s);
    }
  }

  /** `Dedup` lists numbers in the order of their first occurrence. */
  lemma {:induction false} DedupOrder(s: seq<int>)
    ensures forall i, j :: 0 <= i < j < |Dedup(s)| ==>
              FirstIndex(s, Dedup(s)[i]) < FirstIndex(s, Dedup(s)[j])
  {
    if s != [] {
      var n := |s| - 1;
      var p := s[..n];
      var x := s[n];
      DedupOrder(p);
      var d := Dedup(s);
      forall i, j | 0 <= i < j < |d| ensures FirstIndex(s, d[i]) < FirstIndex(s, d[j]) {
        assert d[i] in p;
        assert FirstIndex(s, d[i]) == FirstIndex(p, d[i]);
        if d[j] in p {
          assert FirstIndex(s, d[j]) == FirstIndex(p, d[j]);
          assert Dedup(p)[i] == d[i] && Dedup(p)[j] == d[j];
        } else {
          assert FirstIndex(s, d[j]) == n;
        }
      }
    }
  }

  /** Sum of the counts of the listed keys. */
  function SumCounts(keys: seq<int>, s: seq<int>): nat
  {
    if keys == [] then 0 else Occurrences(s, keys[0]) + SumCounts(keys[1..], s)
  }

  lemma {:induction false} SumCountsSnoc(keys: seq<int>, s: seq<int>, x: int)
    requires NoDup(keys)
    ensures SumCounts(keys, s + [x]) == SumCounts(keys, s) + (if x in keys then 1 else 0)
  {
    if keys != [] {
      NoDupTail(keys);
      SumCountsSnoc(keys[1..], s, x);
      assert (s + [x])[..|s + [x]| - 1] == s;
      assert x in keys <==> x == keys[0] || x in keys[1..] by {
        assert keys == [keys[0]] + keys[1..];
      }
    }
  }

  lemma {:induction false} SumCountsAppend(keys: seq<int>, x: int, s: seq<int>)
    ensures SumCounts(keys + [x], s) == SumCounts(keys, s) + Occurrences(s, x)
  {
    if keys == [] {
      assert [x][1..] == [];
    } else {
      assert (keys + [x])[1..] == keys[1..] + [x];
      SumCountsAppend(keys[1..], x, s);
    }
  }

  /** Every vote is counted once: the counts of all voted numbers add up to
      the number of votes. */
  lemma {:induction false} TallySumsToVotes(s: seq<int>)
    ensures SumCounts(Dedup(s), s) == |s|
  {
    if s != [] {
      var n := |s| - 1;
      var p := s[..n];
      var x := s[n];
      assert s == p + [x];
      TallySumsToVotes(p);
      var d := Dedup(p);
      SumCountsSnoc(d, p, x);
      if x !in d {
        SumCountsAppend(d, x, s);
        assert Occurrences(s, x) == 1;
      }
    }
  }

  lemma DedupSnoc(p: seq<int>, v: int)
    ensures Dedup(p + [v]) == if v in p then Dedup(p) else Dedup(p) + [v]
  {
    assert (p + [v])[..|p + [v]| - 1] == p;
  }

  lemma TallySnoc(p: seq<int>, v: int, n: nat)
    requires n == (if v in TallyOf(p) then TallyOf(p)[v] else 0) + 1
    ensures TallyOf(p + [v]) == TallyOf(p)[v := n]
  {
    assert (p + [v])[..|p + [v]| - 1] == p;
  }

  /** One pass of the counting loop: adding one to the count of `v` in the
      dictionary of the votes `p` gives the dictionary of `p + [v]`. */
  lemma CountStep(counts: Dict<int, nat>, p: seq<int>, v: int)
    requires counts.Valid() && counts.keys == Dedup(p) && counts.entries == TallyOf(p)
    ensures counts.Put(v, counts.Get(v, 0) + 1).keys == Dedup(p + [v])
    ensures counts.Put(v, counts.Get(v, 0) + 1).entries == TallyOf(p + [v])
  {
    TallySnoc(p, v, counts.Get(v, 0) + 1);
    DedupSnoc(p, v);
  }

  /** The loop of the source that fills `vote_counts` from the votes in order. */
  method CountVotes(votes: seq<int>) returns (counts: Dict<int, nat>)
    ensures counts.Valid()
    ensures counts.keys == Dedup(votes)
    ensures counts.entries == TallyOf(votes)
  {
    counts := Empty();
    for i := 0 to |votes|
      invariant counts.Valid()
      invariant counts.keys == Dedup(votes[..i])
      invariant counts.entries == TallyOf(votes[..i])
    {
      var v := votes[i];
      CountStep(counts, votes[..i], v);
      assert votes[..i + 1] == votes[..i] + [v];
      counts := counts.Put(v, counts.Get(v, 0) + 1);
    }
    assert votes[..|votes|] == votes;
  }

  /** `max(vote_counts.items(), key=lambda item: item[1])[0]`. */
  method FirstMax(counts: Dict<int, nat>) returns (chosen: int)
    requires counts.Valid() && counts.keys != []
    ensures chosen == counts.keys[LeaderPos(counts.keys, counts.entries, |counts.keys|)]
  {
    var keys := counts.keys;
    var best := 0;
    for i := 1 to |keys|
      invariant best == LeaderPos(keys, counts.entries, i)
    {
      if counts.entries[keys[i]] > counts.entries[keys[best]] {
        best := i;
      }
    }
    chosen := keys[best];
  }

  /** The round's tally over the recorded votes, in the order
      `votes.values()` yields them: counting and then taking the first
      maximum selects `Plurality`. */
  method SelectChosen<K(==)>(votes: Dict<K, int>) returns (chosen: int)
    requires votes.Valid() && votes.keys != []
    ensures chosen == Plurality(votes.Values())
    ensures chosen in votes.Values()
  {
    var values := votes.Values();
    var counts := CountVotes(values);
    assert values[0] in counts.keys;
    chosen := FirstMax(counts);
    PluralityIsFirstMax(values);
  }
}
