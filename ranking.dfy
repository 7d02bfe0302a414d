/** Ranking in Main.java: each model's copy of the rows sorted by score,
    highest first, with a stable sort, then a name-to-rank map holding the
    1-based position in that copy, and per row the difference of its two
    ranks. The sort is modelled as an in-place insertion sort of the rows'
    positions; the sorted copy is the rows read in that order. */
module Ranking {
  import opened Collections
  import opened Rows

  datatype Model = Blind | Aware

  function Score(r: Row, m: Model): real
  {
    match m
    case Blind => r.blind
    case Aware => r.aware
  }

  function Keys(rows: seq<Row>, m: Model): (ks: seq<real>)
    ensures |ks| == |rows| && forall i :: 0 <= i < |rows| ==> ks[i] == Score(rows[i], m)
  {
    seq(|rows|, i requires 0 <= i < |rows| => Score(rows[i], m))
  }

  /** The order a stable descending sort produces: position `i` goes before
      position `j` when its key is larger, or equal and `i` comes first. */
  predicate Before(keys: seq<real>, i: nat, j: nat)
  {
    i < |keys| && j < |keys| && (keys[i] > keys[j] || (keys[i] == keys[j] && i < j))
  }

  predicate Ordered(keys: seq<real>, ps: seq<nat>)
  {
    forall k, l :: 0 <= k < l < |ps| ==> Before(keys, ps[k], ps[l])
  }

  lemma BeforeTransitive(keys: seq<real>, x: nat, y: nat, z: nat)
    requires Before(keys, x, y) && Before(keys, y, z)
    ensures Before(keys, x, z)
  {
  }

  /** `s` holds every position `0 .. |s|-1` exactly once. */
  predicate PositionsOf(s: seq<nat>)
  {
    IsPermutation(s, |s|) && InBounds(s, |s|) && Distinct(s)
  }

  /** The array holds every position `0 .. Length-1` exactly once. */
  ghost predicate Positions(a: array<nat>)
    reads a
  {
    PositionsOf(a[..])
  }

  /** The first `i` entries of `s` are in sorted order. */
  predicate SortedPrefix(keys: seq<real>, s: seq<nat>, i: nat)
    requires i <= |s|
  {
    forall k, l :: 0 <= k < l < i ==> Before(keys, s[k], s[l])
  }

  /** The first `i` positions of the array are in sorted order. */
  ghost predicate SortedUpTo(keys: seq<real>, a: array<nat>, i: nat)
    reads a
    requires i <= a.Length
  {
    SortedPrefix(keys, a[..], i)
  }

  /** Exchanges two entries of the array. */
  method Swap(a: array<nat>, i: nat, j: nat)
    requires i < a.Length && j < a.Length
    modifies a
    ensures a[..] == old(a[..])[i := old(a[j])][j := old(a[i])]
  {
    ghost var s := a[..];
    a[i], a[j] := a[j], a[i];
    assert a[..] == s[i := s[j]][j := s[i]];
  }

  /** Exchanging two entries keeps every position exactly once. */
  lemma SwapPositions(s: seq<nat>, i: nat, j: nat)
    requires i < |s| && j < |s| && i != j && PositionsOf(s)
    ensures PositionsOf(s[i := s[j]][j := s[i]])
  {
    var t := s[i := s[j]][j := s[i]];
    SwapPreservesMultiset(s, i, j);
    assert forall k :: 0 <= k < |t| ==> t[k] == (if k == i then s[j] else if k == j then s[i] else s[k]);
  }

  lemma SwapPreservesMultiset(s: seq<nat>, i: nat, j: nat)
    requires i < |s| && j < |s|
    ensures multiset(s[i := s[j]][j := s[i]]) == multiset(s)
  {
    var t := s[i := s[j]];
    assert multiset(t) == multiset(s) - multiset{s[i]} + multiset{s[j]};
    assert t[j] == (if i == j then s[j] else s[j]);
  }

  /** One pass of insertion sort: the element at `i` moves down past every
      element it goes before. Only the prefix up to `i` is rearranged. */
  method Insert(keys: seq<real>, a: array<nat>, i: nat)
    requires a.Length == |keys| && i < a.Length
    requires Positions(a) && SortedUpTo(keys, a, i)
    modifies a
    ensures Positions(a) && SortedUpTo(keys, a, i + 1)
    ensures a[i + 1..] == old(a[i + 1..])
    ensures multiset(a[..i + 1]) == multiset(old(a[..i + 1]))
  {
    ghost var a0 := a[..];
    var j: nat := i;
    InsertStart(keys, a0, i);
    while j > 0 && Before(keys, a[j], a[j - 1])
      invariant InsertState(keys, a[..], a0, i, j)
    {
      ghost var s := a[..];
      Swap(a, j - 1, j);
      InsertStep(keys, s, a[..], a0, i, j);
      j := j - 1;
    }
    Settle(keys, a[..], a0, i, j);
  }

  /** Before the first exchange the state holds with the element still at `i`. */
  lemma InsertStart(keys: seq<real>, s: seq<nat>, i: nat)
    requires |s| == |keys| && i < |s| && PositionsOf(s) && SortedPrefix(keys, s, i)
    ensures InsertState(keys, s, s, i, i)
  {
  }

  /** The state of the insertion pass while the element that started at `i`
      sits at `j`: the other entries up to `i` are in order, the moving one goes
      before everything above it up to `i`, and only the prefix up to `i` has
      been rearranged, compared with the array `a0` the pass started from. */
  predicate InsertState(keys: seq<real>, s: seq<nat>, a0: seq<nat>, i: nat, j: nat)
  {
    |s| == |keys| == |a0| && j <= i < |s| && PositionsOf(s) &&
    (forall k, l :: 0 <= k < l <= i && k != j && l != j ==> Before(keys, s[k], s[l])) &&
    (forall l :: j < l <= i ==> Before(keys, s[j], s[l])) &&
    s[i + 1..] == a0[i + 1..] && multiset(s[..i + 1]) == multiset(a0[..i + 1])
  }

  /** Exchanging the moving element with the one below it, which it goes
      before, keeps the state one place further down. */
  lemma InsertStep(keys: seq<real>, s: seq<nat>, t: seq<nat>, a0: seq<nat>, i: nat, j: nat)
    requires InsertState(keys, s, a0, i, j) && 0 < j && Before(keys, s[j], s[j - 1])
    requires t == s[j - 1 := s[j]][j := s[j - 1]]
    ensures InsertState(keys, t, a0, i, j - 1)
  {
    SwapPositions(s, j - 1, j);
    SwapInPrefix(s, t, i, j);
    SwapKeepsOrder(keys, s, t, i, j);
  }

  /** The order facts of `InsertState` after the exchange. */
  lemma SwapKeepsOrder(keys: seq<real>, s: seq<nat>, t: seq<nat>, i: nat, j: nat)
    requires 0 < j <= i < |s| && t == s[j - 1 := s[j]][j := s[j - 1]]
    requires forall k, l :: 0 <= k < l <= i && k != j && l != j ==> Before(keys, s[k], s[l])
    requires forall l :: j < l <= i ==> Before(keys, s[j], s[l])
    requires Before(keys, s[j], s[j - 1])
    ensures forall k, l :: 0 <= k < l <= i && k != j - 1 && l != j - 1 ==> Before(keys, t[k], t[l])
    ensures forall l :: j - 1 < l <= i ==> Before(keys, t[j - 1], t[l])
  {
    assert forall k :: 0 <= k < |t| ==> t[k] == (if k == j - 1 then s[j] else if k == j then s[j - 1] else s[k]);
  }

  /** Exchanging two neighbours at or below `i` leaves everything above `i`
      alone and rearranges the prefix up to `i`. */
  lemma SwapInPrefix(s: seq<nat>, t: seq<nat>, i: nat, j: nat)
    requires 0 < j <= i < |s| && t == s[j - 1 := s[j]][j := s[j - 1]]
    ensures t[i + 1..] == s[i + 1..]
    ensures multiset(t[..i + 1]) == multiset(s[..i + 1])
  {
    assert t[..i + 1] == s[..i + 1][j - 1 := s[j]][j := s[j - 1]];
    SwapPreservesMultiset(s[..i + 1], j - 1, j);
  }

  /** Where the moving element stops, it goes after everything below it. */
  lemma Settle(keys: seq<real>, s: seq<nat>, a0: seq<nat>, i: nat, j: nat)
    requires InsertState(keys, s, a0, i, j)
    requires j == 0 || !Before(keys, s[j], s[j - 1])
    ensures PositionsOf(s) && SortedPrefix(keys, s, i + 1)
    ensures s[i + 1..] == a0[i + 1..] && multiset(s[..i + 1]) == multiset(a0[..i + 1])
  {
    if j > 0 {
      assert s[j - 1] != s[j] && s[j - 1] < |s| && s[j] < |s|;
      assert Before(keys, s[j - 1], s[j]);
      forall k | 0 <= k < j - 1 ensures Before(keys, s[k], s[j]) {
        BeforeTransitive(keys, s[k], s[j - 1], s[j]);
      }
    }
  }

  /** `List.sort` with `Double.compare(r2.key, r1.key)`: positions sorted by
      key, highest first, equal keys in input order. */
  method StableSortDesc(keys: seq<real>) returns (order: seq<nat>)
    ensures IsPermutation(order, |keys|) && InBounds(order, |keys|) && |order| == |keys|
    ensures Ordered(keys, order)
    ensures Distinct(order)
  {
    var n := |keys|;
    var a := new nat[n](k => k);
    assert a[..] == Range(n);
    for i := 0 to n
      invariant Positions(a)
      invariant SortedUpTo(keys, a, i)
    {
      Insert(keys, a, i);
    }
    order := a[..];
  }

  /** Two orders of the same positions that are both sorted are equal: the
      sorted copy does not depend on how the sort is carried out. */
  lemma {:induction false} OrderedUnique(keys: seq<real>, ps: seq<nat>, qs: seq<nat>)
    requires Ordered(keys, ps) && Ordered(keys, qs) && multiset(ps) == multiset(qs)
    ensures ps == qs
  {
    if ps == [] {
      assert |qs| == |multiset(qs)| == 0;
    } else {
      assert qs != [] by {
        assert ps[0] in multiset(qs);
      }
      HeadsAgree(keys, ps, qs);
      OrderedTail(keys, ps);
      OrderedTail(keys, qs);
      MultisetTails(ps, qs);
      OrderedUnique(keys, ps[1..], qs[1..]);
      SameHeadSameTail(ps, qs);
    }
  }

  lemma MultisetTails(ps: seq<nat>, qs: seq<nat>)
    requires ps != [] && qs != [] && ps[0] == qs[0] && multiset(ps) == multiset(qs)
    ensures multiset(ps[1..]) == multiset(qs[1..])
  {
    assert ps == [ps[0]] + ps[1..] && qs == [qs[0]] + qs[1..];
    assert multiset(ps) == multiset{ps[0]} + multiset(ps[1..]);
    assert multiset(qs) == multiset{qs[0]} + multiset(qs[1..]);
    forall x ensures multiset(ps[1..])[x] == multiset(qs[1..])[x] {
      assert multiset(ps)[x] == multiset{ps[0]}[x] + multiset(ps[1..])[x];
      assert multiset(qs)[x] == multiset{qs[0]}[x] + multiset(qs[1..])[x];
    }
  }

  lemma SameHeadSameTail(ps: seq<nat>, qs: seq<nat>)
    requires ps != [] && qs != [] && ps[0] == qs[0] && ps[1..] == qs[1..]
    ensures ps == qs
  {
    assert ps == [ps[0]] + ps[1..] && qs == [qs[0]] + qs[1..];
  }

  /** The first position of a sorted order goes before every other one, so
      two sorted orders of the same positions start alike. */
  lemma HeadsAgree(keys: seq<real>, ps: seq<nat>, qs: seq<nat>)
    requires Ordered(keys, ps) && Ordered(keys, qs) && multiset(ps) == multiset(qs)
    requires ps != [] && qs != []
    ensures ps[0] == qs[0]
  {
    assert qs[0] in multiset(ps) && ps[0] in multiset(qs);
    if ps[0] != qs[0] {
      assert false;
    }
  }

  lemma OrderedTail(keys: seq<real>, ps: seq<nat>)
    requires Ordered(keys, ps) && ps != []
    ensures Ordered(keys, ps[1..])
  {
    forall k, l | 0 <= k < l < |ps| - 1 ensures Before(keys, ps[1..][k], ps[1..][l]) {
      assert ps[1..][k] == ps[k + 1] && ps[1..][l] == ps[l + 1];
    }
  }

  /** `sorted` is the copy of `rows` that a stable sort by the model's score,
      highest first, produces, and `order` the input position of each of its
      rows. */
  predicate IsStableSort(rows: seq<Row>, m: Model, order: seq<nat>, sorted: seq<Row>)
  {
    IsPermutation(order, |rows|) && InBounds(order, |rows|) &&
    Ordered(Keys(rows, m), order) && sorted == Reindex(rows, order)
  }

  /** The stable sort of the rows by a model's score is determined by them. */
  lemma StableSortUnique(rows: seq<Row>, m: Model, o1: seq<nat>, s1: seq<Row>, o2: seq<nat>, s2: seq<Row>)
    requires IsStableSort(rows, m, o1, s1) && IsStableSort(rows, m, o2, s2)
    ensures o1 == o2 && s1 == s2
  {
    OrderedUnique(Keys(rows, m), o1, o2);
  }

  /** A sorted copy of the rows, and the input position of each of its rows. */
  method SortedCopy(rows: seq<Row>, m: Model) returns (sorted: seq<Row>, order: seq<nat>)
    ensures IsStableSort(rows, m, order, sorted)
    ensures IsPermutation(order, |rows|) && InBounds(order, |rows|) && Distinct(order)
    ensures sorted == Reindex(rows, order)
    ensures multiset(sorted) == multiset(rows)
    ensures forall k, l :: 0 <= k < l < |sorted| ==> Score(sorted[k], m) >= Score(sorted[l], m)
    ensures forall k, l :: 0 <= k < l < |sorted| && Score(sorted[k], m) == Score(sorted[l], m) ==>
      order[k] < order[l]
  {
    var keys := Keys(rows, m);
    order := StableSortDesc(keys);
    sorted := Reindex(rows, order);
    ReindexIsPermutation(rows, order);
  }

  /** The names occurring in `rows`. */
  function Names(rows: seq<Row>): set<string>
  {
    if rows == [] then {} else Names(rows[..|rows| - 1]) + {rows[|rows| - 1].a.name}
  }

  lemma {:induction false} NameIn(rows: seq<Row>, k: nat)
    requires k < |rows|
    ensures rows[k].a.name in Names(rows)
  {
    if k < |rows| - 1 {
      NameIn(rows[..|rows| - 1], k);
    }
  }

  /** The rank map as `HashMap.put` leaves it after the loop: every name of
      the sorted copy is a key, mapped to one more than the last position that
      carries it. */
  predicate IsRankMap(rank: map<string, int>, sorted: seq<Row>)
  {
    rank.Keys == Names(sorted) &&
    forall n :: n in rank ==>
      1 <= rank[n] <= |sorted| && sorted[rank[n] - 1].a.name == n &&
      forall k :: rank[n] <= k < |sorted| ==> sorted[k].a.name != n
  }

  /** The loop `rank.put(sorted.get(i).a.name, i + 1)`. */
  method BuildRankMap(sorted: seq<Row>) returns (rank: map<string, int>)
    ensures IsRankMap(rank, sorted)
  {
    rank := map[];
    for i := 0 to |sorted|
      invariant IsRankMap(rank, sorted[..i])
    {
      RankMapStep(rank, sorted, i);
      rank := rank[sorted[i].a.name := i + 1];
    }
    assert sorted[..|sorted|] == sorted;
  }

  /** One `put` extends the rank map of a prefix to the next prefix. */
  lemma RankMapStep(rank: map<string, int>, sorted: seq<Row>, i: nat)
    requires i < |sorted| && IsRankMap(rank, sorted[..i])
    ensures IsRankMap(rank[sorted[i].a.name := i + 1], sorted[..i + 1])
  {
    var p, q := sorted[..i], sorted[..i + 1];
    assert q == p + [sorted[i]];
    var name := sorted[i].a.name;
    var rank' := rank[name := i + 1];
    assert q[..|q| - 1] == p;
    forall n | n in rank'
      ensures 1 <= rank'[n] <= |q| && q[rank'[n] - 1].a.name == n
      ensures forall k :: rank'[n] <= k < |q| ==> q[k].a.name != n
    {
      if n != name {
        assert q[rank[n] - 1] == p[rank[n] - 1];
      }
    }
  }

  /** The rank map of a sorted copy is determined by it. */
  lemma RankMapUnique(r1: map<string, int>, r2: map<string, int>, sorted: seq<Row>)
    requires IsRankMap(r1, sorted) && IsRankMap(r2, sorted)
    ensures r1 == r2
  {
  }

  predicate NamesDistinct(rows: seq<Row>)
  {
    forall i, j :: 0 <= i < j < |rows| ==> rows[i].a.name != rows[j].a.name
  }

  /** With distinct names, the rank of the row at position `k` is `k + 1`. */
  lemma RankOfPosition(rank: map<string, int>, sorted: seq<Row>, k: nat)
    requires IsRankMap(rank, sorted) && NamesDistinct(sorted) && k < |sorted|
    ensures sorted[k].a.name in rank && rank[sorted[k].a.name] == k + 1
  {
    NameIn(sorted, k);
  }

  predicate HasAllNames(rows: seq<Row>, rank: map<string, int>)
  {
    forall i :: 0 <= i < |rows| ==> rows[i].a.name in rank
  }

  /** The rank of every row, in input order. */
  function RankColumn(rows: seq<Row>, rank: map<string, int>): (rs: seq<int>)
    requires HasAllNames(rows, rank)
    ensures |rs| == |rows| && forall i :: 0 <= i < |rows| ==> rs[i] == rank[rows[i].a.name]
  {
    seq(|rows|, i requires 0 <= i < |rows| => rank[rows[i].a.name])
  }

  /** Every row's name is a key of the rank map built from a sorted copy. */
  lemma AllNamesRanked(rows: seq<Row>, order: seq<nat>, sorted: seq<Row>, rank: map<string, int>)
    requires IsPermutation(order, |rows|) && InBounds(order, |rows|)
    requires sorted == Reindex(rows, order) && IsRankMap(rank, sorted)
    ensures HasAllNames(rows, rank)
  {
    PermutationInBounds(order, |rows|);
    forall i | 0 <= i < |rows| ensures rows[i].a.name in rank {
      assert Range(|rows|)[i] == i;
      assert i in multiset(Range(|rows|));
      assert i in multiset(order);
      var k :| 0 <= k < |order| && order[k] == i;
      assert sorted[k].a.name == rows[i].a.name;
      NameIn(sorted, k);
    }
  }

  /** With distinct names, the ranks of the rows are 1 .. N, each exactly once. */
  lemma RanksArePermutation(rows: seq<Row>, order: seq<nat>, sorted: seq<Row>, rank: map<string, int>)
    requires IsPermutation(order, |rows|) && InBounds(order, |rows|) && Distinct(order)
    requires sorted == Reindex(rows, order) && IsRankMap(rank, sorted)
    requires NamesDistinct(rows)
    ensures HasAllNames(rows, rank)
    ensures multiset(RankColumn(rows, rank)) == multiset(Ranks(|rows|))
  {
    AllNamesRanked(rows, order, sorted, rank);
    PermutationInBounds(order, |rows|);
    assert NamesDistinct(sorted);
    var rs := RankColumn(rows, rank);
    forall k | 0 <= k < |order| ensures Reindex(rs, order)[k] == Ranks(|rows|)[k] {
      RankOfPosition(rank, sorted, k);
    }
    assert Reindex(rs, order) == Ranks(|rows|);
    ReindexIsPermutation(rs, order);
  }

  /** The per-row output of the results table (printing left out). */
  datatype ReportLine = ReportLine(
    name: string, blind: real, aware: real,
    blindDecision: Decision, awareDecision: Decision,
    blindRank: int, awareRank: int, rankDelta: int)

  /** `line` is the table line of row `r`: its name, scores and decisions,
      both ranks looked up by name, and their difference, positive when the
      aware model ranks the row higher. */
  predicate LineOf(line: ReportLine, r: Row, rankBlind: map<string, int>, rankAware: map<string, int>)
    requires r.a.name in rankBlind && r.a.name in rankAware
  {
    line.name == r.a.name &&
    line.blind == r.blind && line.aware == r.aware &&
    line.blindDecision == r.blindDecision && line.awareDecision == r.awareDecision &&
    line.blindRank == rankBlind[r.a.name] && line.awareRank == rankAware[r.a.name] &&
    line.rankDelta == line.blindRank - line.awareRank
  }

  /** One table line per row, in input order. */
  predicate IsReport(lines: seq<ReportLine>, rows: seq<Row>, rankBlind: map<string, int>, rankAware: map<string, int>)
    requires HasAllNames(rows, rankBlind) && HasAllNames(rows, rankAware)
  {
    |lines| == |rows| && forall k :: 0 <= k < |rows| ==> LineOf(lines[k], rows[k], rankBlind, rankAware)
  }

  /** The table loop over the rows in input order. */
  method ReportLines(rows: seq<Row>, rankBlind: map<string, int>, rankAware: map<string, int>)
    returns (lines: seq<ReportLine>)
    requires HasAllNames(rows, rankBlind) && HasAllNames(rows, rankAware)
    ensures IsReport(lines, rows, rankBlind, rankAware)
  {
    lines := [];
    for i := 0 to |rows|
      invariant |lines| == i
      invariant forall k :: 0 <= k < i ==> LineOf(lines[k], rows[k], rankBlind, rankAware)
    {
      var r := rows[i];
      var rb := rankBlind[r.a.name];
      var ra := rankAware[r.a.name];
      var dRank := rb - ra;
      lines := lines + [ReportLine(r.a.name, r.blind, r.aware, r.blindDecision, r.awareDecision, rb, ra, dRank)];
    }
  }

  /** The report on given rows and rank maps is determined by them. */
  lemma ReportUnique(l1: seq<ReportLine>, l2: seq<ReportLine>, rows: seq<Row>,
                     rankBlind: map<string, int>, rankAware: map<string, int>)
    requires HasAllNames(rows, rankBlind) && HasAllNames(rows, rankAware)
    requires IsReport(l1, rows, rankBlind, rankAware) && IsReport(l2, rows, rankBlind, rankAware)
    ensures l1 == l2
  {
    forall k | 0 <= k < |rows| ensures l1[k] == l2[k] {
      assert LineOf(l1[k], rows[k], rankBlind, rankAware) && LineOf(l2[k], rows[k], rankBlind, rankAware);
    }
  }

  function Deltas(lines: seq<ReportLine>): (ds: seq<int>)
    ensures |ds| == |lines| && forall k :: 0 <= k < |lines| ==> ds[k] == lines[k].rankDelta
  {
    seq(|lines|, k requires 0 <= k < |lines| => lines[k].rankDelta)
  }

  /** Two rank columns that are both permutations of 1 .. N differ by deltas
      that sum to zero. */
  lemma DeltasCancel(rb: seq<int>, ra: seq<int>, ds: seq<int>)
    requires multiset(rb) == multiset(Ranks(|rb|)) && multiset(ra) == multiset(Ranks(|rb|))
    requires |ra| == |rb| == |ds|
    requires forall i :: 0 <= i < |ds| ==> ds[i] == rb[i] - ra[i]
    ensures Sum(ds) == 0
  {
    SumOfPermutation(rb, ra);
    SumOfDifference(rb, ra, ds);
  }

  /** With distinct names, the rank deltas of the report sum to zero. */
  lemma DeltasSumToZero(rows: seq<Row>,
                        orderBlind: seq<nat>, byBlind: seq<Row>, rankBlind: map<string, int>,
                        orderAware: seq<nat>, byAware: seq<Row>, rankAware: map<string, int>,
                        lines: seq<ReportLine>)
    requires NamesDistinct(rows)
    requires IsStableSort(rows, Blind, orderBlind, byBlind) && IsRankMap(rankBlind, byBlind)
    requires IsStableSort(rows, Aware, orderAware, byAware) && IsRankMap(rankAware, byAware)
    requires HasAllNames(rows, rankBlind) && HasAllNames(rows, rankAware)
    requires IsReport(lines, rows, rankBlind, rankAware)
    ensures multiset(RankColumn(rows, rankBlind)) == multiset(Ranks(|rows|))
    ensures multiset(RankColumn(rows, rankAware)) == multiset(Ranks(|rows|))
    ensures Sum(Deltas(lines)) == 0
  {
    OrderedDistinct(Keys(rows, Blind), orderBlind);
    OrderedDistinct(Keys(rows, Aware), orderAware);
    RanksArePermutation(rows, orderBlind, byBlind, rankBlind);
    RanksArePermutation(rows, orderAware, byAware, rankAware);
    var rb, ra := RankColumn(rows, rankBlind), RankColumn(rows, rankAware);
    assert forall i :: 0 <= i < |lines| ==> Deltas(lines)[i] == rb[i] - ra[i] by {
      forall i | 0 <= i < |lines| ensures Deltas(lines)[i] == rb[i] - ra[i] {
        assert LineOf(lines[i], rows[i], rankBlind, rankAware);
      }
    }
    DeltasCancel(rb, ra, Deltas(lines));
  }

  /** A sorted order never repeats a position. */
  lemma OrderedDistinct(keys: seq<real>, ps: seq<nat>)
    requires Ordered(keys, ps)
    ensures Distinct(ps)
  {
    forall k, l | 0 <= k < l < |ps| ensures ps[k] != ps[l] {
      assert Before(keys, ps[k], ps[l]);
    }
  }
}
