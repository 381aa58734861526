/** Vote aggregation as the two read routes do it: `getElectionResults` (counts
    flattened into one report row per candidate plus a TOTAL row) and
    `getVoteCounts` (the nested counts themselves). Both fold over the ballots
    of one election and bump a dictionary `position -> candidate -> count` in
    place. */
module Tally {
  import opened Base
  import opened Store

  /** `Record<number, Record<number, number>>`. */
  type Counts = map<int, map<int, nat>>

  /** One row of the spreadsheet report. */
  datatype ReportRow = ReportRow(position: string, candidate: string, votes: nat)

  /** The body of the `getVoteCounts` answer. */
  datatype VoteCounts = VoteCounts(voteCounts: Counts, totalVotes: nat)

  // ---------------------------------------------------------------------------
  // What the folds compute

  /** Every entry of every ballot, ballot by ballot. */
  function Entries(ballots: seq<Selection>): seq<Choice>
  {
    if ballots == [] then [] else Entries(ballots[..|ballots| - 1]) + ballots[|ballots| - 1]
  }

  lemma {:induction false} EntriesConcat(a: seq<Selection>, b: seq<Selection>)
    ensures Entries(a + b) == Entries(a) + Entries(b)
  {
    if b == [] {
      assert a + b == a;
    } else {
      var n := |b| - 1;
      assert (a + b)[..|a + b| - 1] == a + b[..n];
      EntriesConcat(a, b[..n]);
    }
  }

  /** The number of ballot entries that give position `p` to candidate `c`. */
  function Count(ballots: seq<Selection>, p: int, c: int): nat
  {
    multiset(Entries(ballots))[Choice(p, c)]
  }

  /** `voteCounts[p][c] || 0`. */
  function Lookup(counts: Counts, p: int, c: int): nat
  {
    if p in counts && c in counts[p] then counts[p][c] else 0
  }

  /** The positions named by a list of entries. */
  function Positions(entries: seq<Choice>): set<int>
  {
    if entries == [] then {} else Positions(entries[..|entries| - 1]) + {entries[|entries| - 1].position}
  }

  lemma {:induction false} PositionsAreNamed(entries: seq<Choice>, p: int)
    ensures p in Positions(entries) <==> exists x :: x in entries && x.position == p
  {
    if entries != [] {
      var n := |entries| - 1;
      PositionsAreNamed(entries[..n], p);
      assert entries == entries[..n] + [entries[n]];
    }
  }

  /** The position indices the ballots mention. */
  function Mentioned(ballots: seq<Selection>): set<int>
  {
    Positions(Entries(ballots))
  }

  /** A ballot entry names a position the election does not have. */
  predicate HasStray(n: nat, ballots: seq<Selection>)
  {
    exists x :: x in Entries(ballots) && !(0 <= x.position < n)
  }

  /** Only candidates with at least one vote have a key. */
  predicate OnlyVotedKeys(counts: Counts)
  {
    forall p, c :: p in counts && c in counts[p] ==> counts[p][c] > 0
  }

  /** The counts do not depend on the order of the stored rows. */
  lemma {:induction false} CountIgnoresOrder(a: seq<Selection>, b: seq<Selection>, p: int, c: int)
    requires multiset(a) == multiset(b)
    ensures Count(a, p, c) == Count(b, p, c)
  {
    EntriesPermutation(a, b);
  }

  lemma {:induction false} EntriesPermutation(a: seq<Selection>, b: seq<Selection>)
    requires multiset(a) == multiset(b)
    ensures multiset(Entries(a)) == multiset(Entries(b))
    decreases |a|
  {
    if a != [] {
      var n := |a| - 1;
      var x := a[n];
      assert a == a[..n] + [x];
      assert x in multiset(b);
      var k :| 0 <= k < |b| && b[k] == x;
      var rest := b[..k] + b[k + 1..];
      Without(b, k);
      EntriesPermutation(a[..n], rest);
      EntriesWithout(b, k);
    }
  }

  /** Taking out the ballot at `k` takes one copy of it out of the multiset. */
  lemma Without(b: seq<Selection>, k: nat)
    requires k < |b|
    ensures multiset(b[..k] + b[k + 1..]) == multiset(b) - multiset{b[k]}
  {
    Split(b, k);
  }

  lemma Split<T>(b: seq<T>, k: nat)
    requires k < |b|
    ensures b == (b[..k] + [b[k]]) + b[k + 1..]
  {
  }

  /** ... and takes that ballot's entries out of the entries. */
  lemma EntriesWithout(b: seq<Selection>, k: nat)
    requires k < |b|
    ensures multiset(Entries(b)) == multiset(Entries(b[..k] + b[k + 1..])) + multiset(b[k])
  {
    var x, pre, post := b[k], b[..k], b[k + 1..];
    Split(b, k);
    EntriesConcat(pre + [x], post);
    EntriesConcat(pre, [x]);
    EntriesConcat(pre, post);
    assert Entries([x]) == x by {
      assert [x][..0] == [];
    }
    var ep, eq := Entries(pre), Entries(post);
    assert Entries(b) == ep + x + eq;
    assert Entries(pre + post) == ep + eq;
    assert multiset(ep + x + eq) == multiset(ep + eq) + multiset(x);
  }

  /** A ballot that is a JSON object names each position at most once. */
  predicate WellFormed(ballot: Selection)
  {
    forall i, j :: 0 <= i < j < |ballot| ==> ballot[i].position != ballot[j].position
  }

  /** The number of ballots that give position `p` to candidate `c`. */
  function Voters(ballots: seq<Selection>, p: int, c: int): nat
  {
    if ballots == [] then 0
    else Voters(ballots[..|ballots| - 1], p, c) + (if Choice(p, c) in ballots[|ballots| - 1] then 1 else 0)
  }

  lemma {:induction false} OnceInWellFormed(ballot: Selection, x: Choice)
    requires WellFormed(ballot)
    ensures multiset(ballot)[x] == if x in ballot then 1 else 0
  {
    if ballot != [] {
      var n := |ballot| - 1;
      assert ballot == ballot[..n] + [ballot[n]];
      assert WellFormed(ballot[..n]);
      OnceInWellFormed(ballot[..n], x);
      if x == ballot[n] {
        assert x !in ballot[..n];
      }
    }
  }

  /** When every ballot is a proper object, the count of `(p, c)` is the number
      of ballots that chose `c` for `p`. */
  lemma {:induction false} CountIsVoters(ballots: seq<Selection>, p: int, c: int)
    requires forall i :: 0 <= i < |ballots| ==> WellFormed(ballots[i])
    ensures Count(ballots, p, c) == Voters(ballots, p, c)
  {
    if ballots != [] {
      var n := |ballots| - 1;
      CountIsVoters(ballots[..n], p, c);
      OnceInWellFormed(ballots[n], Choice(p, c));
    }
  }

  // ---------------------------------------------------------------------------
  // The sum of all counts

  lemma SomeKey(m: map<int, nat>)
    ensures m.Keys == {} || exists k :: k in m.Keys
  {
    if !(exists k :: k in m.Keys) {
      assert m.Keys == {};
    }
  }

  /** The sum of the values of a map. */
  ghost function Sum(m: map<int, nat>): nat
    decreases |m.Keys|
  {
    if m.Keys == {} then 0
    else
      SomeKey(m);
      var k :| k in m.Keys;
      assert |(m - {k}).Keys| < |m.Keys| by { assert (m - {k}).Keys == m.Keys - {k}; }
      m[k] + Sum(m - {k})
  }

  lemma {:induction false} SumRemove(m: map<int, nat>, k: int)
    requires k in m
    ensures Sum(m) == m[k] + Sum(m - {k})
    decreases |m.Keys|
  {
    var j :| j in m.Keys && Sum(m) == m[j] + Sum(m - {j});
    if j != k {
      assert (m - {j}).Keys == m.Keys - {j};
      assert (m - {k}).Keys == m.Keys - {k};
      SumRemove(m - {j}, k);
      SumRemove(m - {k}, j);
      assert m - {j} - {k} == m - {k} - {j};
    }
  }

  lemma SumUpdate(m: map<int, nat>, k: int, v: nat)
    ensures Sum(m[k := v]) + (if k in m then m[k] else 0) == Sum(m) + v
  {
    SumRemove(m[k := v], k);
    assert m[k := v] - {k} == m - {k};
    if k in m {
      SumRemove(m, k);
    } else {
      assert m - {k} == m;
    }
  }

  /** The sum of each position's counts, by position. */
  ghost function Sums(counts: Counts): map<int, nat>
  {
    map p | p in counts :: Sum(counts[p])
  }

  /** The sum of every count in the nested dictionary. */
  ghost function Grand(counts: Counts): nat
  {
    Sum(Sums(counts))
  }

  lemma SumsUpdate(counts: Counts, p: int, inner: map<int, nat>)
    ensures Sums(counts[p := inner]) == Sums(counts)[p := Sum(inner)]
  {
  }

  // ---------------------------------------------------------------------------
  // One increment

  /** `voteCounts[pi][ci]` bumped by one, creating what is missing. */
  function Bump(counts: Counts, x: Choice): Counts
  {
    var inner := if x.position in counts then counts[x.position] else map[];
    var was := if x.candidate in inner then inner[x.candidate] else 0;
    counts[x.position := inner[x.candidate := was + 1]]
  }

  lemma BumpCounts(counts: Counts, x: Choice)
    ensures Bump(counts, x).Keys == counts.Keys + {x.position}
    ensures forall p, c :: Lookup(Bump(counts, x), p, c) == Lookup(counts, p, c) + (if Choice(p, c) == x then 1 else 0)
    ensures OnlyVotedKeys(counts) ==> OnlyVotedKeys(Bump(counts, x))
  {
  }

  lemma BumpGrand(counts: Counts, x: Choice)
    ensures Grand(Bump(counts, x)) == Grand(counts) + 1
  {
    var inner := if x.position in counts then counts[x.position] else map[];
    var was := if x.candidate in inner then inner[x.candidate] else 0;
    SumUpdate(inner, x.candidate, was + 1);
    SumsUpdate(counts, x.position, inner[x.candidate := was + 1]);
    SumUpdate(Sums(counts), x.position, Sum(inner) + 1);
    if x.position !in counts {
      assert inner.Keys == {};
    }
  }

  /** The dictionary with an empty entry for each of the `n` positions. */
  method EmptyCounts(n: nat) returns (counts: Counts)
    ensures forall p :: p in counts <==> 0 <= p < n
    ensures forall p :: p in counts ==> counts[p] == map[]
  {
    counts := map[];
    var p := 0;
    while p < n
      invariant 0 <= p <= n
      invariant forall q :: q in counts <==> 0 <= q < p
      invariant forall q :: q in counts ==> counts[q] == map[]
    {
      counts := counts[p := map[]];
      p := p + 1;
    }
  }

  lemma EmptyCountsFacts(counts: Counts)
    requires forall p :: p in counts ==> counts[p] == map[]
    ensures OnlyVotedKeys(counts) && Grand(counts) == 0
    ensures forall p, c :: Lookup(counts, p, c) == 0
  {
    var sums := map p | p in counts :: Sum(counts[p]);
    forall p | p in sums ensures sums[p] == 0 {
      assert counts[p].Keys == {};
    }
    ZeroSum(sums);
  }

  lemma {:induction false} ZeroSum(m: map<int, nat>)
    requires forall k :: k in m ==> m[k] == 0
    ensures Sum(m) == 0
    decreases |m.Keys|
  {
    if m.Keys != {} {
      SomeKey(m);
      var k :| k in m.Keys;
      SumRemove(m, k);
      assert (m - {k}).Keys == m.Keys - {k};
      ZeroSum(m - {k});
    }
  }

  /** `if (!voteCounts[pi]) voteCounts[pi] = {}; if (!voteCounts[pi][ci])
      voteCounts[pi][ci] = 0; voteCounts[pi][ci]++`. */
  method Increment(counts: Counts, x: Choice) returns (r: Counts)
    ensures r == Bump(counts, x)
  {
    r := counts;
    var pi, ci := x.position, x.candidate;
    if pi !in r {
      r := r[pi := map[]];
    }
    if ci !in r[pi] {
      r := r[pi := r[pi][ci := 0]];
    }
    r := r[pi := r[pi][ci := r[pi][ci] + 1]];
    assert r[pi] == Bump(counts, x)[pi];
  }

  lemma EntriesOfOne(ballots: seq<Selection>, i: nat)
    requires i < |ballots|
    ensures Entries(ballots[..i + 1]) == Entries(ballots[..i]) + ballots[i]
  {
    assert ballots[..i + 1][..i] == ballots[..i];
  }

  lemma PrefixSnoc(before: seq<Choice>, ballot: Selection, j: nat)
    requires j < |ballot|
    ensures before + ballot[..j + 1] == (before + ballot[..j]) + [ballot[j]]
  {
    assert ballot[..j + 1] == ballot[..j] + [ballot[j]];
  }

  lemma PositionsSnoc(done: seq<Choice>, x: Choice)
    ensures Positions(done + [x]) == Positions(done) + {x.position}
  {
    assert (done + [x])[..|done|] == done;
  }

  /** The dictionary holds, for every pair, how often `done` has it. */
  ghost predicate Tallies(counts: Counts, done: seq<Choice>)
  {
    forall p, c :: Lookup(counts, p, c) == multiset(done)[Choice(p, c)]
  }

  lemma TalliesStep(counts: Counts, done: seq<Choice>, x: Choice)
    requires Tallies(counts, done)
    ensures Tallies(Bump(counts, x), done + [x])
  {
    BumpCounts(counts, x);
  }

  /** What the lenient fold keeps after counting `done`: a key for each of the
      `n` positions and each position named in `done`, the tallies of `done`,
      no zero counts, and as many votes in total as entries. */
  ghost predicate LenientState(counts: Counts, n: nat, done: seq<Choice>)
  {
    && (forall p :: p in counts <==> 0 <= p < n || p in Positions(done))
    && Tallies(counts, done)
    && OnlyVotedKeys(counts)
    && Grand(counts) == |done|
  }

  lemma LenientStep(counts: Counts, n: nat, done: seq<Choice>, x: Choice)
    requires LenientState(counts, n, done)
    ensures LenientState(Bump(counts, x), n, done + [x])
  {
    BumpCounts(counts, x);
    BumpGrand(counts, x);
    TalliesStep(counts, done, x);
    PositionsSnoc(done, x);
  }

  // ---------------------------------------------------------------------------
  // The folds

  /** The fold of `getVoteCounts` (lines 31-48): a position entry is created on
      demand, so every ballot entry is counted. */
  method CountLenient(n: nat, ballots: seq<Selection>) returns (counts: Counts)
    ensures forall p :: p in counts <==> 0 <= p < n || p in Mentioned(ballots)
    ensures forall p, c :: Lookup(counts, p, c) == Count(ballots, p, c)
    ensures OnlyVotedKeys(counts)
    ensures Grand(counts) == |Entries(ballots)|
  {
    counts := EmptyCounts(n);
    EmptyCountsFacts(counts);
    var i := 0;
    while i < |ballots|
      invariant 0 <= i <= |ballots|
      invariant LenientState(counts, n, Entries(ballots[..i]))
    {
      counts := CountBallot(counts, n, Entries(ballots[..i]), ballots[i]);
      EntriesOfOne(ballots, i);
      i := i + 1;
    }
    assert ballots[..i] == ballots;
  }

  /** The inner loop of the lenient fold: every entry of one ballot, in order. */
  method CountBallot(counts: Counts, n: nat, ghost before: seq<Choice>, ballot: Selection) returns (r: Counts)
    requires LenientState(counts, n, before)
    ensures LenientState(r, n, before + ballot)
  {
    r := counts;
    ghost var done := before;
    var j := 0;
    while j < |ballot|
      invariant 0 <= j <= |ballot|
      invariant done == before + ballot[..j]
      invariant LenientState(r, n, done)
    {
      LenientStep(r, n, done, ballot[j]);
      r := Increment(r, ballot[j]);
      PrefixSnoc(before, ballot, j);
      done := done + [ballot[j]];
      j := j + 1;
    }
    assert ballot[..j] == ballot;
  }

  /** What the strict fold keeps after counting `done`: exactly the keys of
      the `n` positions, the tallies of `done`, and no entry of `done` naming
      another position. */
  ghost predicate StrictState(counts: Counts, n: nat, done: seq<Choice>)
  {
    && (forall p :: p in counts <==> 0 <= p < n)
    && Tallies(counts, done)
    && (forall x :: x in done ==> 0 <= x.position < n)
  }

  lemma StrictStep(counts: Counts, n: nat, done: seq<Choice>, x: Choice)
    requires StrictState(counts, n, done) && 0 <= x.position < n
    ensures StrictState(Bump(counts, x), n, done + [x])
  {
    BumpCounts(counts, x);
    TalliesStep(counts, done, x);
  }

  /** The fold of `getElectionResults` (lines 38-55): only the entries created
      for the election's positions exist, so an entry naming any other position
      reads `undefined[ci]` and throws. `None` is that failure. */
  method CountStrict(n: nat, ballots: seq<Selection>) returns (r: Option<Counts>)
    ensures r.None? <==> HasStray(n, ballots)
    ensures r.Some? ==> forall p :: p in r.value <==> 0 <= p < n
    ensures r.Some? ==> forall p, c :: Lookup(r.value, p, c) == Count(ballots, p, c)
  {
    var counts := EmptyCounts(n);
    EmptyCountsFacts(counts);
    var i := 0;
    while i < |ballots|
      invariant 0 <= i <= |ballots|
      invariant StrictState(counts, n, Entries(ballots[..i]))
    {
      var next := CountBallotStrict(counts, n, Entries(ballots[..i]), ballots[i]);
      if next.None? {
        ghost var j :| 0 <= j < |ballots[i]| && !(0 <= ballots[i][j].position < n);
        StrayFound(ballots, i, j);
        return None;
      }
      counts := next.value;
      EntriesOfOne(ballots, i);
      i := i + 1;
    }
    assert ballots[..i] == ballots;
    r := Some(counts);
  }

  /** The inner loop of the strict fold: it throws at the first entry naming a
      position the election does not have. */
  method CountBallotStrict(counts: Counts, n: nat, ghost before: seq<Choice>, ballot: Selection)
    returns (r: Option<Counts>)
    requires StrictState(counts, n, before)
    ensures r.None? <==> exists j :: 0 <= j < |ballot| && !(0 <= ballot[j].position < n)
    ensures r.Some? ==> StrictState(r.value, n, before + ballot)
  {
    var acc := counts;
    ghost var done := before;
    var j := 0;
    while j < |ballot|
      invariant 0 <= j <= |ballot|
      invariant done == before + ballot[..j]
      invariant forall k :: 0 <= k < j ==> 0 <= ballot[k].position < n
      invariant StrictState(acc, n, done)
    {
      if ballot[j].position !in acc {
        return None;
      }
      StrictStep(acc, n, done, ballot[j]);
      acc := Increment(acc, ballot[j]);
      PrefixSnoc(before, ballot, j);
      done := done + [ballot[j]];
      j := j + 1;
    }
    assert ballot[..j] == ballot;
    r := Some(acc);
  }

  lemma StrayFound(ballots: seq<Selection>, i: nat, j: nat)
    requires i < |ballots| && j < |ballots[i]|
    ensures ballots[i][j] in Entries(ballots)
  {
    EntriesOfOne(ballots, i);
    assert ballots == ballots[..i + 1] + ballots[i + 1..];
    EntriesConcat(ballots[..i + 1], ballots[i + 1..]);
  }

  // ---------------------------------------------------------------------------
  // The report of `getElectionResults`

  /** The report row of candidate `c` of position `p`: `Votes` is the count, 0
      when nobody chose that candidate. */
  function Cell(positions: seq<Position>, ballots: seq<Selection>, p: nat, c: nat): ReportRow
    requires p < |positions| && c < |positions[p].candidates|
  {
    ReportRow(positions[p].name, positions[p].candidates[c], Count(ballots, p, c))
  }

  /** The rows of position `p`, in candidate order. */
  function PositionRows(positions: seq<Position>, ballots: seq<Selection>, p: nat): (r: seq<ReportRow>)
    requires p < |positions|
    ensures |r| == |positions[p].candidates|
    ensures forall c :: 0 <= c < |r| ==> r[c] == Cell(positions, ballots, p, c)
  {
    seq(|positions[p].candidates|, c requires 0 <= c < |positions[p].candidates| => Cell(positions, ballots, p, c))
  }

  /** The rows of the first `p` positions. */
  function CandidateRows(positions: seq<Position>, ballots: seq<Selection>, p: nat): seq<ReportRow>
    requires p <= |positions|
  {
    if p == 0 then [] else CandidateRows(positions, ballots, p - 1) + PositionRows(positions, ballots, p - 1)
  }

  /** The closing row. */
  function TotalRow(total: nat): ReportRow
  {
    ReportRow("TOTAL", "Total Votes Cast", total)
  }

  /** The whole report: the candidate rows, then the TOTAL row with the number
      of ballots. */
  function Report(positions: seq<Position>, ballots: seq<Selection>): seq<ReportRow>
  {
    CandidateRows(positions, ballots, |positions|) + [TotalRow(|ballots|)]
  }

  /** The number of candidates of the first `p` positions: where the rows of
      position `p` begin. */
  function Offset(positions: seq<Position>, p: nat): nat
    requires p <= |positions|
  {
    if p == 0 then 0 else Offset(positions, p - 1) + |positions[p - 1].candidates|
  }

  lemma {:induction false} CandidateRowsLength(positions: seq<Position>, ballots: seq<Selection>, p: nat)
    requires p <= |positions|
    ensures |CandidateRows(positions, ballots, p)| == Offset(positions, p)
  {
    if p > 0 {
      CandidateRowsLength(positions, ballots, p - 1);
    }
  }

  lemma {:induction false} OffsetGrows(positions: seq<Position>, q: nat, p: nat)
    requires q < p <= |positions|
    ensures Offset(positions, q) + |positions[q].candidates| <= Offset(positions, p)
  {
    if q < p - 1 {
      OffsetGrows(positions, q, p - 1);
    }
  }

  lemma {:induction false} CandidateRowsCell(positions: seq<Position>, ballots: seq<Selection>, p: nat, q: nat, c: nat)
    requires q < p <= |positions| && c < |positions[q].candidates|
    ensures Offset(positions, q) + c < |CandidateRows(positions, ballots, p)|
    ensures CandidateRows(positions, ballots, p)[Offset(positions, q) + c] == Cell(positions, ballots, q, c)
  {
    var before := CandidateRows(positions, ballots, p - 1);
    var mine := PositionRows(positions, ballots, p - 1);
    assert CandidateRows(positions, ballots, p) == before + mine;
    CandidateRowsLength(positions, ballots, p - 1);
    var k := Offset(positions, q) + c;
    if q < p - 1 {
      OffsetGrows(positions, q, p - 1);
      CandidateRowsCell(positions, ballots, p - 1, q, c);
      assert (before + mine)[k] == before[k];
    } else {
      assert (before + mine)[k] == mine[c];
    }
  }

  /** The report has one row per candidate of every position plus the TOTAL row. */
  lemma ReportLength(positions: seq<Position>, ballots: seq<Selection>)
    ensures |Report(positions, ballots)| == Offset(positions, |positions|) + 1
  {
    CandidateRowsLength(positions, ballots, |positions|);
  }

  /** Candidate `c` of position `p` sits after the candidates of the earlier
      positions, and its row carries its name, its position's name and its count. */
  lemma ReportCell(positions: seq<Position>, ballots: seq<Selection>, p: nat, c: nat)
    requires p < |positions| && c < |positions[p].candidates|
    ensures Offset(positions, p) + c < |Report(positions, ballots)| - 1
    ensures Report(positions, ballots)[Offset(positions, p) + c] == Cell(positions, ballots, p, c)
  {
    CandidateRowsCell(positions, ballots, |positions|, p, c);
  }

  /** The last row is TOTAL with the number of ballots. */
  lemma ReportTotal(positions: seq<Position>, ballots: seq<Selection>)
    ensures |Report(positions, ballots)| > 0
    ensures Report(positions, ballots)[|Report(positions, ballots)| - 1] == TotalRow(|ballots|)
  {
  }

  /** Every row before the last is the row of some listed candidate: no index
      outside a candidate list is ever reported. */
  lemma {:induction false} ReportOnlyCells(positions: seq<Position>, ballots: seq<Selection>, p: nat, k: nat)
    requires p <= |positions| && k < |CandidateRows(positions, ballots, p)|
    ensures exists q: nat, c: nat :: q < p && c < |positions[q].candidates| && k == Offset(positions, q) + c
                           && CandidateRows(positions, ballots, p)[k] == Cell(positions, ballots, q, c)
  {
    CandidateRowsLength(positions, ballots, p - 1);
    var before := CandidateRows(positions, ballots, p - 1);
    if k < |before| {
      ReportOnlyCells(positions, ballots, p - 1, k);
    } else {
      var c := k - |before|;
      var q := p - 1;
      assert CandidateRows(positions, ballots, p)[k] == Cell(positions, ballots, q, c);
    }
  }

  /** Reordering the stored rows leaves the report unchanged. */
  lemma ReportIgnoresOrder(positions: seq<Position>, a: seq<Selection>, b: seq<Selection>)
    requires multiset(a) == multiset(b)
    ensures Report(positions, a) == Report(positions, b)
  {
    EntriesPermutation(a, b);
    assert |a| == |b| by {
      assert |multiset(a)| == |multiset(b)|;
    }
    forall p | 0 <= p <= |positions|
      ensures CandidateRows(positions, a, p) == CandidateRows(positions, b, p)
    {
      CandidateRowsSame(positions, a, b, p);
    }
  }

  lemma {:induction false} CandidateRowsSame(positions: seq<Position>, a: seq<Selection>, b: seq<Selection>, p: nat)
    requires p <= |positions| && multiset(Entries(a)) == multiset(Entries(b))
    ensures CandidateRows(positions, a, p) == CandidateRows(positions, b, p)
  {
    if p > 0 {
      CandidateRowsSame(positions, a, b, p - 1);
      assert PositionRows(positions, a, p - 1) == PositionRows(positions, b, p - 1);
    }
  }

  /** The formatting loops of `getElectionResults` (lines 58-73): push one row
      per candidate of every position, reading `voteCounts[posIdx][candidateIdx]
      || 0`, then the TOTAL row with the number of ballot rows. */
  method FormatResults(positions: seq<Position>, counts: Counts, ghost ballots: seq<Selection>, total: nat)
    returns (rows: seq<ReportRow>)
    requires forall p, c :: Lookup(counts, p, c) == Count(ballots, p, c)
    requires total == |ballots|
    ensures rows == Report(positions, ballots)
  {
    rows := [];
    var p := 0;
    while p < |positions|
      invariant 0 <= p <= |positions|
      invariant rows == CandidateRows(positions, ballots, p)
    {
      var position := positions[p];
      var c := 0;
      while c < |position.candidates|
        invariant 0 <= c <= |position.candidates|
        invariant rows == CandidateRows(positions, ballots, p) + PositionRows(positions, ballots, p)[..c]
      {
        rows := rows + [ReportRow(position.name, position.candidates[c], Lookup(counts, p, c))];
        assert PositionRows(positions, ballots, p)[..c + 1]
            == PositionRows(positions, ballots, p)[..c] + [Cell(positions, ballots, p, c)];
        c := c + 1;
      }
      assert PositionRows(positions, ballots, p)[..c] == PositionRows(positions, ballots, p);
      p := p + 1;
    }
    rows := rows + [TotalRow(total)];
  }
}
