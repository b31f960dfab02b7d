/** Sharpe ratios, and the stable descending sort that ranks agents by them. */
module Ranking {

  /** A Sharpe ratio; the source uses `float("inf")` for a steady positive return. */
  datatype Sharpe = Fin(value: real) | Inf

  predicate Less(a: Sharpe, b: Sharpe) {
    match (a, b)
    case (Fin(x), Fin(y)) => x < y
    case (Fin(_), Inf) => true
    case (Inf, _) => false
  }

  /** Sharpe ratios are totally ordered: finite ones as numbers, with infinity on top. */
  lemma LessIsOrder(a: Sharpe, b: Sharpe, c: Sharpe)
    ensures a.Fin? && b.Fin? ==> (Less(a, b) <==> a.value < b.value)
    ensures Less(a, Inf) <==> a != Inf
    ensures !Less(a, a) && (Less(a, b) || a == b || Less(b, a))
    ensures Less(a, b) && Less(b, c) ==> Less(a, c)
  {
  }

  datatype Entry = Entry(agentId: string, sharpe: Sharpe)

  /** How many entries are at least as good as `s`. */
  function AtLeast(entries: seq<Entry>, s: Sharpe): (k: nat)
    ensures k <= |entries|
  {
    if entries == [] then 0
    else AtLeast(entries[..|entries| - 1], s) + (if Less(entries[|entries| - 1].sharpe, s) then 0 else 1)
  }

  /** Places an entry behind everything at least as good, so that ties keep their order. */
  function Insert(sorted: seq<Entry>, e: Entry): seq<Entry> {
    var p := AtLeast(sorted, e.sharpe);
    sorted[..p] + [e] + sorted[p..]
  }

  /** Python's `sort(key=sharpe, reverse=True)`, which is stable. */
  function SortDescending(entries: seq<Entry>): (sorted: seq<Entry>)
    ensures |sorted| == |entries|
  {
    if entries == [] then []
    else Insert(SortDescending(entries[..|entries| - 1]), entries[|entries| - 1])
  }

  predicate Descending(s: seq<Entry>) {
    forall i, j | 0 <= i < j < |s| :: !Less(s[i].sharpe, s[j].sharpe)
  }

  /** Entry `j` ranks ahead of entry `i`: better, or equally good and listed earlier. */
  predicate Ahead(entries: seq<Entry>, j: nat, i: nat)
    requires i < |entries| && j < |entries|
  {
    Less(entries[i].sharpe, entries[j].sharpe) || (entries[i].sharpe == entries[j].sharpe && j < i)
  }

  /** The rank of entry `i`: how many of the first `k` entries are ahead of it. */
  function Rank(entries: seq<Entry>, i: nat, k: nat): nat
    requires i < |entries| && k <= |entries|
  {
    if k == 0 then 0 else Rank(entries, i, k - 1) + (if Ahead(entries, k - 1, i) then 1 else 0)
  }

  /** In descending order the entries at least as good as `s` come first. */
  lemma {:induction false} AtLeastSplits(s: seq<Entry>, x: Sharpe)
    requires Descending(s)
    ensures forall r | 0 <= r < |s| :: Less(s[r].sharpe, x) <==> r >= AtLeast(s, x)
  {
    if s != [] {
      var before := s[..|s| - 1];
      AtLeastSplits(before, x);
      var k := AtLeast(before, x);
      if !Less(s[|s| - 1].sharpe, x) {
        forall r | 0 <= r < |before|
          ensures r < k && before[r] == s[r]
        {
          assert !Less(s[r].sharpe, s[|s| - 1].sharpe);
          assert Less(before[r].sharpe, x) <==> r >= k;
        }
      }
    }
  }

  lemma {:induction false} AtLeastConcat(a: seq<Entry>, b: seq<Entry>, x: Sharpe)
    ensures AtLeast(a + b, x) == AtLeast(a, x) + AtLeast(b, x)
  {
    if b == [] {
      assert a + b == a;
    } else {
      var init := b[..|b| - 1];
      assert (a + b)[..|a + b| - 1] == a + init;
      AtLeastConcat(a, init, x);
    }
  }

  lemma InsertCounts(s: seq<Entry>, e: Entry, x: Sharpe)
    ensures AtLeast(Insert(s, e), x) == AtLeast(s, x) + (if Less(e.sharpe, x) then 0 else 1)
  {
    var p := AtLeast(s, e.sharpe);
    AtLeastConcat(s[..p] + [e], s[p..], x);
    AtLeastConcat(s[..p], [e], x);
    AtLeastConcat(s[..p], s[p..], x);
    assert s[..p] + s[p..] == s;
    assert [e][..0] == [];
  }

  lemma InsertKeepsDescending(s: seq<Entry>, e: Entry)
    requires Descending(s)
    ensures Descending(Insert(s, e))
  {
    AtLeastSplits(s, e.sharpe);
  }

  lemma {:induction false} SortKeeps(entries: seq<Entry>, x: Sharpe)
    ensures Descending(SortDescending(entries))
    ensures AtLeast(SortDescending(entries), x) == AtLeast(entries, x)
  {
    if entries != [] {
      var before, e := entries[..|entries| - 1], entries[|entries| - 1];
      hide Insert, Descending;
      SortKeeps(before, x);
      InsertCounts(SortDescending(before), e, x);
      InsertKeepsDescending(SortDescending(before), e);
    }
  }

  lemma {:induction false} RankOfLast(entries: seq<Entry>, k: nat)
    requires k < |entries|
    ensures Rank(entries, |entries| - 1, k) == AtLeast(entries[..k], entries[|entries| - 1].sharpe)
  {
    if k > 0 {
      RankOfLast(entries, k - 1);
      assert entries[..k][..k - 1] == entries[..k - 1];
    }
  }

  lemma {:induction false} RankOfPrefix(entries: seq<Entry>, i: nat, k: nat)
    requires i < |entries| - 1 && k <= |entries| - 1
    ensures Rank(entries, i, k) == Rank(entries[..|entries| - 1], i, k)
  {
    if k > 0 { RankOfPrefix(entries, i, k - 1); }
  }

  lemma InsertPlaces(s: seq<Entry>, e: Entry, r: nat)
    requires r < |s|
    ensures Insert(s, e)[if r < AtLeast(s, e.sharpe) then r else r + 1] == s[r]
  {
  }

  /** The sort puts every entry at the position that counting the entries ahead of it predicts. */
  lemma {:induction false} SortedByRank(entries: seq<Entry>, i: nat)
    requires i < |entries|
    ensures Rank(entries, i, |entries|) < |entries|
    ensures SortDescending(entries)[Rank(entries, i, |entries|)] == entries[i]
  {
    var n := |entries| - 1;
    var before, e := entries[..n], entries[n];
    var sorted := SortDescending(before);
    SortKeeps(before, e.sharpe);
    if i == n {
      RankOfLast(entries, n);
    } else {
      hide Insert;
      SortedByRank(before, i);
      RankOfPrefix(entries, i, n);
      AtLeastSplits(sorted, e.sharpe);
      InsertPlaces(sorted, e, Rank(before, i, n));
      assert before[i] == entries[i];
    }
  }

  lemma {:induction false} AheadOfBoth(entries: seq<Entry>, i: nat, j: nat, k: nat)
    requires i < |entries| && j < |entries| && k <= |entries| && Ahead(entries, j, i)
    ensures Rank(entries, j, k) + (if j < k then 1 else 0) <= Rank(entries, i, k)
  {
    if k > 0 { AheadOfBoth(entries, i, j, k - 1); }
  }

  /** Ranks order the entries: whoever is ahead has the smaller rank, and no two share one. */
  lemma RanksOrder(entries: seq<Entry>, i: nat, j: nat)
    requires i < |entries| && j < |entries| && i != j
    ensures Rank(entries, j, |entries|) < Rank(entries, i, |entries|) <==> Ahead(entries, j, i)
    ensures Rank(entries, i, |entries|) != Rank(entries, j, |entries|)
  {
    if Ahead(entries, j, i) {
      AheadOfBoth(entries, i, j, |entries|);
    } else {
      assert Ahead(entries, i, j);
      AheadOfBoth(entries, j, i, |entries|);
    }
  }

  /** The entries whose rank is in [lo, hi). */
  ghost function Ranked(entries: seq<Entry>, lo: int, hi: int): set<nat> {
    set i: nat | i < |entries| && lo <= Rank(entries, i, |entries|) < hi
  }

  /** Every rank is taken: a block of consecutive ranks holds exactly that many entries. */
  lemma {:induction false} RankedSize(entries: seq<Entry>, lo: nat, hi: nat)
    requires lo <= hi <= |entries|
    ensures |Ranked(entries, lo, hi)| == hi - lo
    decreases hi
  {
    if lo == hi {
      assert Ranked(entries, lo, hi) == {};
    } else {
      var i := HolderOf(entries, hi - 1);
      RankedSize(entries, lo, hi - 1);
      forall j: nat | j in Ranked(entries, lo, hi) && j != i
        ensures j in Ranked(entries, lo, hi - 1)
      {
        RanksOrder(entries, i, j);
      }
      assert Ranked(entries, lo, hi) == Ranked(entries, lo, hi - 1) + {i};
    }
  }

  /** Some entry has each rank: the one the sort puts there. */
  lemma {:induction false} HolderOf(entries: seq<Entry>, r: nat) returns (i: nat)
    requires r < |entries|
    ensures i < |entries| && Rank(entries, i, |entries|) == r
  {
    var n := |entries| - 1;
    var before, last := entries[..n], entries[n];
    var p := AtLeast(SortDescending(before), last.sharpe);
    SortKeeps(before, last.sharpe);
    RankOfLast(entries, n);
    if r == p {
      i := n;
    } else {
      i := HolderOf(before, if r < p then r else r - 1);
      SortedByRank(before, i);
      AtLeastSplits(SortDescending(before), last.sharpe);
      RankOfPrefix(entries, i, n);
      assert before[i] == entries[i];
    }
  }
}
