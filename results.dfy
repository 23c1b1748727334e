/** The results page's projection: published elections, each with its positions, each with its
    candidates sorted by votes, the per-position and per-election totals, every candidate's
    rounded percentage and the winner flag. The three queries become filters of the tables,
    and the query's ordering by `vote_count` becomes an explicit stable sort. */
module Results {
  import opened JsPrims
  import opened DatabaseTypes
  import Tables

  /** A candidate row together with the two fields the page adds to it. */
  datatype CandidateResult = CandidateResult(candidate: Candidate, percentage: int, isWinner: bool)

  datatype PositionResult = PositionResult(position: Position, candidates: seq<CandidateResult>, totalVotes: int)

  datatype ElectionResults = ElectionResults(election: Election, positions: seq<PositionResult>, totalVotes: int)

  predicate NonNegativeCounts(cs: seq<Candidate>) {
    forall i :: 0 <= i < |cs| ==> cs[i].vote_count >= 0
  }

  /** `candidates.reduce((sum, c) => sum + c.vote_count, 0)`: a left fold. With non-negative
      counts the total is non-negative and no single count exceeds it. */
  function SumVotes(cs: seq<Candidate>): (r: int)
    ensures NonNegativeCounts(cs) ==> r >= 0 && forall i :: 0 <= i < |cs| ==> cs[i].vote_count <= r
  {
    if cs == [] then 0 else SumVotes(cs[..|cs| - 1]) + cs[|cs| - 1].vote_count
  }

  /** The fold can equally be taken from the front. */
  lemma {:induction false} SumVotesCons(c: Candidate, s: seq<Candidate>)
    ensures SumVotes([c] + s) == c.vote_count + SumVotes(s)
  {
    if s != [] {
      assert ([c] + s)[..|[c] + s| - 1] == [c] + s[..|s| - 1];
      SumVotesCons(c, s[..|s| - 1]);
    }
  }

  lemma {:induction false} SumVotesAppend(a: seq<Candidate>, b: seq<Candidate>)
    ensures SumVotes(a + b) == SumVotes(a) + SumVotes(b)
  {
    if b == [] {
      assert a + b == a;
    } else {
      assert (a + b)[..|a + b| - 1] == a + b[..|b| - 1];
      SumVotesAppend(a, b[..|b| - 1]);
    }
  }

  /** Candidates ordered by descending `vote_count`. */
  predicate SortedByVotes(s: seq<Candidate>) {
    forall i, j :: 0 <= i < j < |s| ==> s[i].vote_count >= s[j].vote_count
  }

  /** Places c in front of the first candidate that has no more votes than it. */
  function InsertByVotes(c: Candidate, s: seq<Candidate>): (r: seq<Candidate>)
    ensures multiset(r) == multiset{c} + multiset(s)
    ensures |r| == |s| + 1
    ensures r[0] == if s == [] || c.vote_count >= s[0].vote_count then c else s[0]
    ensures SortedByVotes(s) ==> SortedByVotes(r)
  {
    if s == [] || c.vote_count >= s[0].vote_count then [c] + s
    else
      assert s == [s[0]] + s[1..];
      [s[0]] + InsertByVotes(c, s[1..])
  }

  /** `.order("vote_count", { ascending: false })`, ties kept in table order: an insertion sort. */
  function SortByVotes(cs: seq<Candidate>): (r: seq<Candidate>)
    ensures multiset(r) == multiset(cs)
    ensures |r| == |cs|
    ensures SortedByVotes(r)
  {
    if cs == [] then []
    else
      assert cs == [cs[0]] + cs[1..];
      InsertByVotes(cs[0], SortByVotes(cs[1..]))
  }

  /** The candidates holding a given number of votes. */
  function CountIs(v: int): Candidate -> bool {
    (c: Candidate) => c.vote_count == v
  }

  lemma {:induction false} InsertKeepsTies(c: Candidate, s: seq<Candidate>, v: int)
    ensures Filter(InsertByVotes(c, s), CountIs(v)) == Filter([c] + s, CountIs(v))
  {
    if s != [] && c.vote_count < s[0].vote_count {
      InsertKeepsTies(c, s[1..], v);
      assert InsertByVotes(c, s) == [s[0]] + InsertByVotes(c, s[1..]);
      assert s == [s[0]] + s[1..];
      SwapTies(s[0], c, s[1..], InsertByVotes(c, s[1..]), CountIs(v));
    }
  }

  /** Two candidates that are not both kept can change places without changing the filter. */
  lemma SwapTies(x: Candidate, c: Candidate, rest: seq<Candidate>, t: seq<Candidate>, p: Candidate -> bool)
    requires !(p(x) && p(c))
    requires Filter(t, p) == Filter([c] + rest, p)
    ensures Filter([x] + t, p) == Filter([c] + ([x] + rest), p)
  {
    FilterCons(x, t, p);
    FilterCons(c, rest, p);
    FilterCons(c, [x] + rest, p);
    FilterCons(x, rest, p);
  }

  lemma FilterCons(x: Candidate, rest: seq<Candidate>, p: Candidate -> bool)
    ensures Filter([x] + rest, p) == (if p(x) then [x] else []) + Filter(rest, p)
  {
    assert ([x] + rest)[1..] == rest;
  }

  /** The sort is stable: candidates with equal counts keep their table order. */
  lemma {:induction false} SortKeepsTies(cs: seq<Candidate>, v: int)
    ensures Filter(SortByVotes(cs), CountIs(v)) == Filter(cs, CountIs(v))
  {
    if cs != [] {
      SortKeepsTies(cs[1..], v);
      SortStepTies(cs, v);
      assert cs == [cs[0]] + cs[1..];
      FilterCons(cs[0], cs[1..], CountIs(v));
    }
  }

  lemma SortStepTies(cs: seq<Candidate>, v: int)
    requires cs != []
    ensures Filter(SortByVotes(cs), CountIs(v)) == Filter([cs[0]] + SortByVotes(cs[1..]), CountIs(v))
  {
    InsertKeepsTies(cs[0], SortByVotes(cs[1..]), v);
  }

  /** Sorting does not change the total. */
  lemma {:induction false} SortKeepsSum(cs: seq<Candidate>)
    ensures SumVotes(SortByVotes(cs)) == SumVotes(cs)
  {
    if cs != [] {
      SortKeepsSum(cs[1..]);
      SortStepSum(cs);
      SumVotesHead(cs);
    }
  }

  lemma SortStepSum(cs: seq<Candidate>)
    requires cs != []
    ensures SumVotes(SortByVotes(cs)) == cs[0].vote_count + SumVotes(SortByVotes(cs[1..]))
  {
    InsertKeepsSum(cs[0], SortByVotes(cs[1..]));
  }

  lemma SumVotesHead(cs: seq<Candidate>)
    requires cs != []
    ensures SumVotes(cs) == cs[0].vote_count + SumVotes(cs[1..])
  {
    assert cs == [cs[0]] + cs[1..];
    SumVotesCons(cs[0], cs[1..]);
  }

  lemma {:induction false} InsertKeepsSum(c: Candidate, s: seq<Candidate>)
    ensures SumVotes(InsertByVotes(c, s)) == c.vote_count + SumVotes(s)
  {
    if s == [] || c.vote_count >= s[0].vote_count {
      SumVotesCons(c, s);
    } else {
      InsertKeepsSum(c, s[1..]);
      SumVotesCons(s[0], InsertByVotes(c, s[1..]));
      assert s == [s[0]] + s[1..];
      SumVotesCons(s[0], s[1..]);
    }
  }

  /** Reference definition of the winner: the first candidate in table order among those with the most votes. */
  function FirstMaxIndex(cs: seq<Candidate>): (k: nat)
    requires cs != []
    ensures k < |cs|
    ensures forall j :: 0 <= j < |cs| ==> cs[j].vote_count <= cs[k].vote_count
    ensures forall j :: 0 <= j < k ==> cs[j].vote_count < cs[k].vote_count
  {
    if |cs| == 1 then 0
    else
      var k := FirstMaxIndex(cs[1..]);
      assert cs[k + 1] == cs[1..][k];
      if cs[0].vote_count >= cs[k + 1].vote_count then 0 else k + 1
  }

  /** The candidate the sort puts first is the reference winner. */
  lemma {:induction false} SortHeadIsFirstMax(cs: seq<Candidate>)
    requires cs != []
    ensures SortByVotes(cs)[0] == cs[FirstMaxIndex(cs)]
  {
    if |cs| > 1 {
      SortHeadIsFirstMax(cs[1..]);
    }
  }

  /** `Math.round(count / total * 100)`, or 0 when the total is 0: taken over exact rationals. */
  function Percentage(count: int, total: int): (r: int)
    ensures total > 0 ==> 2 * total * r <= 200 * count + total < 2 * total * (r + 1)
    ensures total <= 0 ==> r == 0
    ensures 0 <= count <= total ==> 0 <= r <= 100
  {
    if total > 0 then
      var r := RoundDiv(100 * count, total);
      PercentageBounds(count, total, r);
      r
    else 0
  }

  lemma PercentageBounds(count: int, total: int, r: int)
    requires total > 0 && 2 * total * r <= 200 * count + total < 2 * total * (r + 1)
    ensures 0 <= count <= total ==> 0 <= r <= 100
  {
    if 0 <= count <= total {
      assert total * (r - 101) < 0;
      assert total * (r + 1) > 0;
    }
  }

  /** The candidate list of a position: every sorted row kept as it is, with its percentage of the
      position total, the first one flagged as winner. */
  function ProjectCandidates(sorted: seq<Candidate>, total: int): (r: seq<CandidateResult>)
    ensures |r| == |sorted|
  {
    seq(|sorted|, i requires 0 <= i < |sorted| =>
      CandidateResult(sorted[i], Percentage(sorted[i].vote_count, total), i == 0))
  }

  function CandidateOf(r: CandidateResult): Candidate {
    r.candidate
  }

  /** The candidates of a position, selected by `position_id`. */
  function OfPosition(positionId: string): Candidate -> bool {
    (c: Candidate) => c.position_id == positionId
  }

  /** The positions of an election, selected by `election_id`. */
  function OfElection(electionId: string): Position -> bool {
    (p: Position) => p.election_id == electionId
  }

  function ProjectPosition(p: Position, candidates: seq<Candidate>): (r: PositionResult)
    ensures r.position == p && |r.candidates| == |Filter(candidates, OfPosition(p.id))|
  {
    var sorted := SortByVotes(Filter(candidates, OfPosition(p.id)));
    var total := SumVotes(sorted);
    PositionResult(p, ProjectCandidates(sorted, total), total)
  }

  /** `positionsWithResults.reduce((sum, p) => sum + p.totalVotes, 0)`. */
  function SumTotals(ps: seq<PositionResult>): int {
    if ps == [] then 0 else SumTotals(ps[..|ps| - 1]) + ps[|ps| - 1].totalVotes
  }

  function ProjectElection(e: Election, positions: seq<Position>, candidates: seq<Candidate>): (r: ElectionResults)
    ensures r.election == e && |r.positions| == |Filter(positions, OfElection(e.id))|
  {
    var prs := ProjectPositions(Filter(positions, OfElection(e.id)), candidates);
    ElectionResults(e, prs, SumTotals(prs))
  }

  function ProjectPositions(ps: seq<Position>, candidates: seq<Candidate>): (r: seq<PositionResult>)
    ensures |r| == |ps|
  {
    seq(|ps|, i requires 0 <= i < |ps| => ProjectPosition(ps[i], candidates))
  }

  function IsPublished(e: Election): bool {
    e.results_published
  }

  /** Elections ordered by descending `created_at` (ISO-8601 text compares chronologically). */
  predicate NewestFirst(es: seq<Election>) {
    forall i, j :: 0 <= i < j < |es| ==> !StringLess(es[i].created_at, es[j].created_at)
  }

  /** Places e in front of the first election created no later than it. */
  function InsertByCreated(e: Election, s: seq<Election>): (r: seq<Election>)
    ensures multiset(r) == multiset{e} + multiset(s)
    ensures |r| == |s| + 1
    ensures r[0] == if s == [] || !StringLess(e.created_at, s[0].created_at) then e else s[0]
  {
    if s == [] || !StringLess(e.created_at, s[0].created_at) then [e] + s
    else
      assert s == [s[0]] + s[1..];
      [s[0]] + InsertByCreated(e, s[1..])
  }

  lemma {:induction false} InsertKeepsNewestFirst(e: Election, s: seq<Election>)
    requires NewestFirst(s)
    ensures NewestFirst(InsertByCreated(e, s))
  {
    var r := InsertByCreated(e, s);
    if s == [] || !StringLess(e.created_at, s[0].created_at) {
      forall i, j | 0 <= i < j < |r| ensures !StringLess(r[i].created_at, r[j].created_at) {
        if i == 0 && j > 1 {
          NotLessTransitive(e.created_at, s[0].created_at, s[j - 1].created_at);
        }
      }
    } else {
      var t := s[1..];
      InsertKeepsNewestFirst(e, t);
      StringLessTotal(e.created_at, s[0].created_at);
      var rt := InsertByCreated(e, t);
      forall j | 0 <= j < |rt| ensures !StringLess(s[0].created_at, rt[j].created_at) {
        assert rt[j] in multiset(rt);
        if rt[j] != e {
          assert rt[j] in t;
        }
      }
    }
  }

  /** `.order("created_at", { ascending: false })`, ties kept in table order. */
  function SortByCreated(es: seq<Election>): (r: seq<Election>)
    ensures multiset(r) == multiset(es)
    ensures |r| == |es|
    ensures NewestFirst(r)
  {
    if es == [] then []
    else
      assert es == [es[0]] + es[1..];
      InsertKeepsNewestFirst(es[0], SortByCreated(es[1..]));
      InsertByCreated(es[0], SortByCreated(es[1..]))
  }

  /** `fetchResults`: the published elections, newest first, each projected. */
  function FetchResults(elections: seq<Election>, positions: seq<Position>, candidates: seq<Candidate>): (r: seq<ElectionResults>)
    ensures |r| == |Filter(elections, IsPublished)|
  {
    var pub := SortByCreated(Filter(elections, IsPublished));
    seq(|pub|, i requires 0 <= i < |pub| => ProjectElection(pub[i], positions, candidates))
  }

  function ElectionsOf(rs: seq<ElectionResults>): seq<Election> {
    seq(|rs|, i requires 0 <= i < |rs| => rs[i].election)
  }

  function CandidatesOf(rs: seq<CandidateResult>): seq<Candidate> {
    seq(|rs|, i requires 0 <= i < |rs| => rs[i].candidate)
  }

  predicate IsWinner(r: CandidateResult) {
    r.isWinner
  }

  /** An election is listed exactly when it is in the table with its results published, each
      published row as often as in the table, newest first. */
  lemma PublishedOnly(es: seq<Election>, ps: seq<Position>, cs: seq<Candidate>)
    ensures multiset(ElectionsOf(FetchResults(es, ps, cs))) == multiset(Filter(es, IsPublished))
    ensures forall e :: e in ElectionsOf(FetchResults(es, ps, cs)) <==> e in es && e.results_published
    ensures NewestFirst(ElectionsOf(FetchResults(es, ps, cs)))
  {
    var pub := Filter(es, IsPublished);
    assert ElectionsOf(FetchResults(es, ps, cs)) == SortByCreated(pub);
    forall e ensures e in SortByCreated(pub) <==> e in pub {
      assert e in SortByCreated(pub) <==> e in multiset(SortByCreated(pub));
    }
  }

  /** A position's total is the number of votes of the candidates whose `position_id` names it. */
  lemma PositionTotal(p: Position, cs: seq<Candidate>)
    ensures ProjectPosition(p, cs).totalVotes == SumVotes(Filter(cs, OfPosition(p.id)))
  {
    SortKeepsSum(Filter(cs, OfPosition(p.id)));
  }

  /** The projection keeps the position's candidate rows unchanged: the same rows, each as often
      as in the table, now in descending order of votes with ties in table order. */
  lemma PositionKeepsRows(p: Position, cs: seq<Candidate>)
    ensures multiset(CandidatesOf(ProjectPosition(p, cs).candidates)) == multiset(Filter(cs, OfPosition(p.id)))
    ensures SortedByVotes(CandidatesOf(ProjectPosition(p, cs).candidates))
    ensures forall v :: Filter(CandidatesOf(ProjectPosition(p, cs).candidates), CountIs(v)) == Filter(Filter(cs, OfPosition(p.id)), CountIs(v))
  {
    var own := Filter(cs, OfPosition(p.id));
    assert CandidatesOf(ProjectPosition(p, cs).candidates) == SortByVotes(own);
    forall v {
      SortKeepsTies(own, v);
    }
  }

  /** Every percentage lies in [0, 100] and is the nearest integer to 100 * count / total, a half
      rounded up; with a total of 0 every percentage is 0. */
  predicate RoundedShares(rs: seq<CandidateResult>, total: int) {
    forall i :: 0 <= i < |rs| ==>
      && 0 <= rs[i].percentage <= 100
      && (total > 0 ==>
            2 * total * rs[i].percentage <= 200 * rs[i].candidate.vote_count + total
            < 2 * total * (rs[i].percentage + 1))
      && (total == 0 ==> rs[i].percentage == 0)
  }

  /** With non-negative counts each candidate's percentage is its rounded share of the position total. */
  lemma PercentagesInRange(p: Position, cs: seq<Candidate>)
    requires NonNegativeCounts(cs)
    ensures RoundedShares(ProjectPosition(p, cs).candidates, ProjectPosition(p, cs).totalVotes)
  {
    var own := Filter(cs, OfPosition(p.id));
    var sorted := SortByVotes(own);
    NonNegativeKept(cs, own);
    assert forall d :: d in sorted ==> d in own by {
      forall d | d in sorted ensures d in own {
        assert d in multiset(sorted);
      }
    }
    NonNegativeKept(own, sorted);
    CandidatePercentages(sorted);
  }

  /** Rows drawn from a table with non-negative counts have non-negative counts. */
  lemma NonNegativeKept(cs: seq<Candidate>, ds: seq<Candidate>)
    requires NonNegativeCounts(cs) && forall d :: d in ds ==> d in cs
    ensures NonNegativeCounts(ds)
  {
    forall i | 0 <= i < |ds| ensures ds[i].vote_count >= 0 {
      assert ds[i] in cs;
    }
  }

  lemma CandidatePercentages(sorted: seq<Candidate>)
    requires NonNegativeCounts(sorted)
    ensures RoundedShares(ProjectCandidates(sorted, SumVotes(sorted)), SumVotes(sorted))
  {
    var t := SumVotes(sorted);
    var r := ProjectCandidates(sorted, t);
    forall i | 0 <= i < |r|
      ensures 0 <= r[i].percentage <= 100
    {
      assert r[i].percentage == Percentage(sorted[i].vote_count, t);
      assert 0 <= sorted[i].vote_count <= t;
    }
  }

  /** A position with candidates has exactly one winner, listed first: the candidate with the most
      votes, and among several with the most votes the first in table order. A position without
      candidates has no winner. */
  lemma SingleWinner(p: Position, cs: seq<Candidate>)
    ensures var r := ProjectPosition(p, cs); var own := Filter(cs, OfPosition(p.id));
      && (own == [] ==> Filter(r.candidates, IsWinner) == [])
      && (own != [] ==>
            && Filter(r.candidates, IsWinner) == [r.candidates[0]]
            && r.candidates[0].candidate == own[FirstMaxIndex(own)]
            && forall c :: c in own ==> c.vote_count <= r.candidates[0].candidate.vote_count)
  {
    var r := ProjectPosition(p, cs);
    var own := Filter(cs, OfPosition(p.id));
    if own == [] {
      FilterNone(r.candidates, IsWinner);
    } else {
      FilterOnly(r.candidates, IsWinner, 0);
      SortHeadIsFirstMax(own);
    }
  }

  /** The ids of a list of positions. */
  function IdsOf(ps: seq<Position>): (r: set<string>)
    ensures forall x :: x in r <==> exists i :: 0 <= i < |ps| && ps[i].id == x
  {
    if ps == [] then {} else IdsOf(ps[..|ps| - 1]) + {ps[|ps| - 1].id}
  }

  /** The candidates whose `position_id` is one of the given ids. */
  function OfPositions(ids: set<string>): Candidate -> bool {
    (c: Candidate) => c.position_id in ids
  }

  /** The votes of the candidates a filter keeps, counted from the first row. */
  lemma FilterSumHead(cs: seq<Candidate>, p: Candidate -> bool)
    requires cs != []
    ensures SumVotes(Filter(cs, p)) == (if p(cs[0]) then cs[0].vote_count else 0) + SumVotes(Filter(cs[1..], p))
  {
    if p(cs[0]) {
      SumVotesCons(cs[0], Filter(cs[1..], p));
    } else {
      assert Filter(cs, p) == Filter(cs[1..], p);
    }
  }

  lemma {:induction false} SumOfPositionsSplit(cs: seq<Candidate>, ids: set<string>, id: string)
    requires id !in ids
    ensures SumVotes(Filter(cs, OfPositions(ids + {id})))
         == SumVotes(Filter(cs, OfPositions(ids))) + SumVotes(Filter(cs, OfPosition(id)))
  {
    if cs != [] {
      SumOfPositionsSplit(cs[1..], ids, id);
      FilterSumHead(cs, OfPositions(ids + {id}));
      FilterSumHead(cs, OfPositions(ids));
      FilterSumHead(cs, OfPosition(id));
    }
  }

  lemma {:induction false} TotalsOverPositions(ps: seq<Position>, cs: seq<Candidate>)
    requires KeysDistinct(ps, (p: Position) => p.id)
    ensures SumTotals(ProjectPositions(ps, cs)) == SumVotes(Filter(cs, OfPositions(IdsOf(ps))))
  {
    if ps == [] {
      FilterNone(cs, OfPositions({}));
    } else {
      var n := |ps| - 1;
      assert ProjectPositions(ps, cs)[..n] == ProjectPositions(ps[..n], cs);
      TotalsOverPositions(ps[..n], cs);
      PositionTotal(ps[n], cs);
      SumOfPositionsSplit(cs, IdsOf(ps[..n]), ps[n].id);
    }
  }

  /** An election's total is the sum of its position totals, and, when its positions have distinct
      ids, the number of votes of all candidates standing for one of its positions. */
  lemma ElectionTotal(e: Election, ps: seq<Position>, cs: seq<Candidate>)
    requires KeysDistinct(ps, (p: Position) => p.id)
    ensures var r := ProjectElection(e, ps, cs);
      && r.totalVotes == SumTotals(r.positions)
      && r.totalVotes == SumVotes(Filter(cs, OfPositions(IdsOf(Filter(ps, OfElection(e.id))))))
  {
    var own := Filter(ps, OfElection(e.id));
    FilterKeysDistinct(ps, OfElection(e.id), (p: Position) => p.id);
    TotalsOverPositions(own, cs);
  }

  /** Two candidates tied at 30 votes and one with 10: the shares are 43, 43 and 14 (they need not
      add up to 100), and only the tied candidate listed first in the table is flagged. */
  lemma TiedPositionExample(p: Position, a: Candidate, b: Candidate, c: Candidate)
    requires a.position_id == p.id && b.position_id == p.id && c.position_id == p.id
    requires a.vote_count == 30 && b.vote_count == 30 && c.vote_count == 10
    ensures var r := ProjectPosition(p, [a, b, c]);
      && r.totalVotes == 70
      && r.candidates == [CandidateResult(a, 43, true), CandidateResult(b, 43, false), CandidateResult(c, 14, false)]
  {
    var cs := [a, b, c];
    FilterAll(cs, OfPosition(p.id));
    ExampleSorted(a, b, c);
    ExampleSum(a, b, c);
    ExampleShares(a, b, c);
  }

  lemma ExampleSorted(a: Candidate, b: Candidate, c: Candidate)
    requires a.vote_count == 30 && b.vote_count == 30 && c.vote_count == 10
    ensures SortByVotes([a, b, c]) == [a, b, c]
  {
    assert [a, b, c][1..] == [b, c] && [b, c][1..] == [c];
    assert SortByVotes([c]) == [c];
    assert SortByVotes([b, c]) == [b, c];
  }

  lemma ExampleSum(a: Candidate, b: Candidate, c: Candidate)
    requires a.vote_count == 30 && b.vote_count == 30 && c.vote_count == 10
    ensures SumVotes([a, b, c]) == 70
  {
    assert [a, b, c][..2] == [a, b] && [a, b][..1] == [a] && [a][..0] == [];
    assert SumVotes([a]) == 30;
    assert SumVotes([a, b]) == 60;
  }

  lemma ExampleShares(a: Candidate, b: Candidate, c: Candidate)
    requires a.vote_count == 30 && b.vote_count == 30 && c.vote_count == 10
    ensures ProjectCandidates([a, b, c], 70) == [CandidateResult(a, 43, true), CandidateResult(b, 43, false), CandidateResult(c, 14, false)]
  {
    assert Percentage(30, 70) == 43;
    assert Percentage(10, 70) == 14;
    var rs := ProjectCandidates([a, b, c], 70);
    assert rs[0] == CandidateResult(a, 43, true);
    assert rs[1] == CandidateResult(b, 43, false);
    assert rs[2] == CandidateResult(c, 14, false);
  }

  /** The results page: the listing and its two spinners. The first fetch runs only when a
      session token is present; a fetch that fails keeps the previous listing, and both spinners
      stop whichever way it ends. */
  class ResultsPage {
    const db: Tables.Database
    var elections: seq<ElectionResults>
    var loading: bool
    var refreshing: bool

    constructor (db: Tables.Database)
      ensures this.db == db && elections == [] && loading && !refreshing
    {
      this.db := db;
      elections, loading, refreshing := [], true, false;
    }

    /** The mount effect: `fetchResults()` if `getToken()` yields a token, otherwise nothing. */
    method Initialize(hasToken: bool, queryOk: bool)
      modifies this`elections, this`loading, this`refreshing
      ensures !hasToken ==> elections == old(elections) && loading == old(loading) && refreshing == old(refreshing)
      ensures hasToken && queryOk ==> elections == FetchResults(db.elections, db.positions, db.candidates)
      ensures hasToken && !queryOk ==> elections == old(elections)
      ensures hasToken ==> !loading && !refreshing
    {
      if hasToken {
        Fetch(false, queryOk);
      }
    }

    /** `fetchResults(isRefresh)`: the published results when every query succeeds; on a thrown
        error the listing stays. `loading` and `refreshing` are cleared in `finally`. */
    method Fetch(isRefresh: bool, queryOk: bool)
      modifies this`elections, this`loading, this`refreshing
      ensures queryOk ==> elections == FetchResults(db.elections, db.positions, db.candidates)
      ensures !queryOk ==> elections == old(elections)
      ensures !loading && !refreshing
    {
      if isRefresh {
        refreshing := true;
      }
      if queryOk {
        elections := FetchResults(db.elections, db.positions, db.candidates);
      }
      loading := false;
      refreshing := false;
    }

    /** `handleRefresh`: a fetch flagged as a refresh. */
    method HandleRefresh(queryOk: bool)
      modifies this`elections, this`loading, this`refreshing
      ensures queryOk ==> elections == FetchResults(db.elections, db.positions, db.candidates)
      ensures !queryOk ==> elections == old(elections)
      ensures !loading && !refreshing
    {
      Fetch(true, queryOk);
    }
  }
}
