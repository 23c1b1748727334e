/** The voting portal: the listing of active elections with their positions and candidates, the
    loaded votes of the signed-in user, the candidate selection per position, the display gate
    that hides choices for positions already voted on, and the submission that appends the
    ballot and then raises one counter per vote. */
module VoterDashboard {
  import opened JsPrims
  import opened DatabaseTypes
  import opened DemoData
  import opened Tables
  import Results

  datatype PositionView = PositionView(position: Position, candidates: seq<Candidate>)

  datatype ElectionView = ElectionView(election: Election, positions: seq<PositionView>)

  function IsActive(e: Election): bool {
    e.is_active
  }

  /** An election with its positions (by `election_id`) and each position's candidates (by `position_id`). */
  function ViewOf(e: Election, ps: seq<Position>, cs: seq<Candidate>): (v: ElectionView)
    ensures v.election == e
    ensures |v.positions| == |Filter(ps, Results.OfElection(e.id))|
  {
    var own := Filter(ps, Results.OfElection(e.id));
    ElectionView(e, seq(|own|, i requires 0 <= i < |own| =>
      PositionView(own[i], Filter(cs, Results.OfPosition(own[i].id)))))
  }

  /** The grouping of the demo path: the active elections in table order, each with its positions
      and candidates. */
  function GroupActive(es: seq<Election>, ps: seq<Position>, cs: seq<Candidate>): (r: seq<ElectionView>)
    ensures |r| == |Filter(es, IsActive)|
  {
    var active := Filter(es, IsActive);
    seq(|active|, i requires 0 <= i < |active| => ViewOf(active[i], ps, cs))
  }

  /** The listing keeps exactly the active elections; each carries exactly the positions naming it
      and each position exactly the candidates naming it, in table order. */
  lemma GroupActiveContents(es: seq<Election>, ps: seq<Position>, cs: seq<Candidate>)
    ensures var r := GroupActive(es, ps, cs);
      && (forall v :: v in r ==> v.election in es && v.election.is_active)
      && (forall e :: e in es && e.is_active ==> exists i :: 0 <= i < |r| && r[i].election == e)
      && (forall i :: 0 <= i < |r| ==> ViewContents(r[i], ps, cs))
  {
    var r := GroupActive(es, ps, cs);
    var active := Filter(es, IsActive);
    forall e | e in es && e.is_active ensures exists i :: 0 <= i < |r| && r[i].election == e {
      assert e in active;
      var i :| 0 <= i < |active| && active[i] == e;
      assert r[i].election == e;
    }
    forall i | 0 <= i < |r| ensures ViewContents(r[i], ps, cs) {
      ViewOfContents(active[i], ps, cs);
    }
  }

  /** A view carries exactly the positions naming its election, and each position exactly the
      candidates naming it. */
  ghost predicate ViewContents(v: ElectionView, ps: seq<Position>, cs: seq<Candidate>) {
    && (forall pv :: pv in v.positions ==> pv.position in ps && pv.position.election_id == v.election.id)
    && (forall p :: p in ps && p.election_id == v.election.id ==>
          exists j :: 0 <= j < |v.positions| && v.positions[j].position == p)
    && (forall pv :: pv in v.positions ==>
          forall c :: c in cs && c.position_id == pv.position.id <==> c in pv.candidates)
  }

  lemma ViewOfContents(e: Election, ps: seq<Position>, cs: seq<Candidate>)
    ensures ViewContents(ViewOf(e, ps, cs), ps, cs)
  {
    var v := ViewOf(e, ps, cs);
    var own := Filter(ps, Results.OfElection(e.id));
    forall p | p in ps && p.election_id == e.id
      ensures exists j :: 0 <= j < |v.positions| && v.positions[j].position == p
    {
      assert p in own;
      var j :| 0 <= j < |own| && own[j] == p;
      assert v.positions[j].position == p;
    }
  }

  /** `userVotes.some(v => v.position_id === positionId)`. */
  function HasVotedForPosition(votes: seq<Vote>, positionId: string): (b: bool)
    ensures b <==> exists i :: 0 <= i < |votes| && votes[i].position_id == positionId
  {
    if votes == [] then false
    else
      assert forall i :: 1 <= i < |votes| ==> votes[i] == votes[1..][i - 1];
      votes[0].position_id == positionId || HasVotedForPosition(votes[1..], positionId)
  }

  /** `selectedCandidates[positionId]` is truthy: a candidate id is chosen for the position. */
  predicate Selected(sel: map<string, string>, positionId: string) {
    positionId in sel && sel[positionId] != ""
  }

  function HasSelection(sel: map<string, string>): PositionView -> bool {
    (pv: PositionView) => Selected(sel, pv.position.id)
  }

  /** `votesToSubmit`: one row per position of the election with a selection, in position order. */
  function BuildBallot(positions: seq<PositionView>, sel: map<string, string>, userId: string, electionId: string)
    : (r: seq<VoteInsert>)
    ensures |r| == |Filter(positions, HasSelection(sel))|
  {
    var chosen := Filter(positions, HasSelection(sel));
    seq(|chosen|, i requires 0 <= i < |chosen| =>
      VoteInsert(None, userId, sel[chosen[i].position.id], chosen[i].position.id, electionId, None))
  }

  /** The ballot's rows carry the user's id, the election's id and the chosen candidate; the
      positions it names are exactly the positions of the election with a selection, one row
      each, in the election's position order. */
  lemma BallotContents(positions: seq<PositionView>, sel: map<string, string>, userId: string, electionId: string)
    ensures var b := BuildBallot(positions, sel, userId, electionId);
      && (forall i :: 0 <= i < |b| ==> b[i].position_id == Filter(positions, HasSelection(sel))[i].position.id)
      && (forall i :: 0 <= i < |b| ==>
            && b[i].user_id == userId && b[i].election_id == electionId
            && Selected(sel, b[i].position_id) && b[i].candidate_id == sel[b[i].position_id])
      && (forall pid :: (exists i :: 0 <= i < |b| && b[i].position_id == pid) <==>
            (exists j :: 0 <= j < |positions| && positions[j].position.id == pid) && Selected(sel, pid))
  {
    var b := BuildBallot(positions, sel, userId, electionId);
    var chosen := Filter(positions, HasSelection(sel));
    forall pid ensures (exists i :: 0 <= i < |b| && b[i].position_id == pid) <==>
      (exists j :: 0 <= j < |positions| && positions[j].position.id == pid) && Selected(sel, pid)
    {
      if exists i :: 0 <= i < |b| && b[i].position_id == pid {
        var i :| 0 <= i < |b| && b[i].position_id == pid;
        assert chosen[i] in positions;
      }
      if (exists j :: 0 <= j < |positions| && positions[j].position.id == pid) && Selected(sel, pid) {
        var j :| 0 <= j < |positions| && positions[j].position.id == pid;
        assert positions[j] in chosen;
        var i :| 0 <= i < |chosen| && chosen[i] == positions[j];
        assert b[i].position_id == pid;
      }
    }
  }

  /** No user holds two votes for one position. */
  predicate OneVotePerPosition(vs: seq<Vote>) {
    forall i, j :: 0 <= i < j < |vs| ==> vs[i].user_id == vs[j].user_id ==> vs[i].position_id != vs[j].position_id
  }

  function OfUser(userId: string): Vote -> bool {
    (v: Vote) => v.user_id == userId
  }

  /** The display gate: a choice control is shown only for a position the user has not voted on,
      so every selection names such a position. */
  predicate GateHolds(userVotes: seq<Vote>, sel: map<string, string>) {
    forall pid :: pid in sel && sel[pid] != "" ==> !HasVotedForPosition(userVotes, pid)
  }

  function PositionIdOf(pv: PositionView): string {
    pv.position.id
  }

  /** Under the display gate, with the user's loaded votes up to date and the election's positions
      distinct, recording the ballot keeps at most one vote per user and position. */
  lemma GateKeepsOneVotePerPosition(
    votes: seq<Vote>, positions: seq<PositionView>, sel: map<string, string>,
    userId: string, electionId: string, ids: nat -> string, now: string)
    requires OneVotePerPosition(votes)
    requires KeysDistinct(positions, PositionIdOf)
    requires GateHolds(Filter(votes, OfUser(userId)), sel)
    ensures OneVotePerPosition(votes + RecordedVotes(BuildBallot(positions, sel, userId, electionId), ids, now))
  {
    var b := BuildBallot(positions, sel, userId, electionId);
    var added := RecordedVotes(b, ids, now);
    var all := votes + added;
    var chosen := Filter(positions, HasSelection(sel));
    BallotContents(positions, sel, userId, electionId);
    FilterKeysDistinct(positions, HasSelection(sel), PositionIdOf);
    forall i, j | 0 <= i < j < |all| && all[i].user_id == all[j].user_id
      ensures all[i].position_id != all[j].position_id
    {
      if j >= |votes| {
        var pj := all[j].position_id;
        assert all[j] == added[j - |votes|];
        assert Selected(sel, pj);
        if i < |votes| {
          assert all[i] in Filter(votes, OfUser(userId));
          var k :| 0 <= k < |Filter(votes, OfUser(userId))| && Filter(votes, OfUser(userId))[k] == all[i];
          assert !HasVotedForPosition(Filter(votes, OfUser(userId)), pj);
        } else {
          assert all[i] == added[i - |votes|];
          assert chosen[i - |votes|].position.id != chosen[j - |votes|].position.id;
        }
      }
    }
  }

  /** Without the gate nothing stops a second identical submission: once a ballot is recorded,
      recording it again gives the user two votes for the same position. */
  lemma ResubmitDuplicates(
    votes: seq<Vote>, positions: seq<PositionView>, sel: map<string, string>,
    userId: string, electionId: string, ids: nat -> string, now: string)
    requires BuildBallot(positions, sel, userId, electionId) != []
    ensures var once := RecordedVotes(BuildBallot(positions, sel, userId, electionId), ids, now);
      !OneVotePerPosition(votes + once + once)
  {
    var once := RecordedVotes(BuildBallot(positions, sel, userId, electionId), ids, now);
    var all := votes + once + once;
    BallotContents(positions, sel, userId, electionId);
    assert all[|votes|] == once[0] && all[|votes| + |once|] == once[0];
  }

  /** `elections.find(e => e.id === electionId)`. */
  function FindElection(es: seq<ElectionView>, id: string): (r: Option<ElectionView>)
    ensures r.Some? ==> r.value in es && r.value.election.id == id
    ensures r.None? <==> forall i :: 0 <= i < |es| ==> es[i].election.id != id
    ensures r.Some? ==>
      exists i :: 0 <= i < |es| && es[i] == r.value && forall j :: 0 <= j < i ==> es[j].election.id != id
  {
    if es == [] then None
    else if es[0].election.id == id then Some(es[0])
    else
      var r := FindElection(es[1..], id);
      assert forall i :: 1 <= i < |es| ==> es[i] == es[1..][i - 1];
      if r.Some? then
        var i :| 0 <= i < |es| - 1 && es[1..][i] == r.value &&
          (forall j :: 0 <= j < i ==> es[1..][j].election.id != id);
        assert es[i + 1] == r.value && forall j :: 0 <= j < i + 1 ==> es[j].election.id != id;
        r
      else r
  }

  /** The submit button is shown for a verified user when the election has an unvoted position. */
  predicate ShowsSubmit(verified: bool, userVotes: seq<Vote>, e: ElectionView) {
    verified && exists i :: 0 <= i < |e.positions| && !HasVotedForPosition(userVotes, e.positions[i].position.id)
  }

  /** The shown button is enabled when no submission is running and an unvoted position has a selection. */
  predicate SubmitEnabled(verified: bool, submitting: bool, userVotes: seq<Vote>, sel: map<string, string>, e: ElectionView) {
    && ShowsSubmit(verified, userVotes, e)
    && !submitting
    && exists i :: 0 <= i < |e.positions| &&
         !HasVotedForPosition(userVotes, e.positions[i].position.id) && Selected(sel, e.positions[i].position.id)
  }

  /** An enabled button submits a non-empty ballot. */
  lemma EnabledSubmitHasBallot(verified: bool, submitting: bool, userVotes: seq<Vote>, sel: map<string, string>,
                               e: ElectionView, userId: string)
    requires SubmitEnabled(verified, submitting, userVotes, sel, e)
    ensures BuildBallot(e.positions, sel, userId, e.election.id) != []
  {
    var i :| 0 <= i < |e.positions| && Selected(sel, e.positions[i].position.id);
    assert e.positions[i] in Filter(e.positions, HasSelection(sel));
  }

  /** The vote the demo path shows as already cast by the user. */
  function DemoVote(userId: string, now: string): (v: Vote)
    ensures v.user_id == userId && v.position_id == "demo-position-1"
  {
    Vote("demo-vote-1", userId, "demo-candidate-1", "demo-position-1", "demo-election-1", now)
  }

  /** `profile?.id` is truthy. */
  predicate HasProfileId(profileId: Option<string>) {
    Truthy(profileId)
  }

  /** The candidate ids of a ballot, in order. */
  function CandidateIds(b: seq<VoteInsert>): (r: seq<string>)
    ensures |r| == |b| && forall i :: 0 <= i < |b| ==> r[i] == b[i].candidate_id
  {
    seq(|b|, i requires 0 <= i < |b| => b[i].candidate_id)
  }

  class VoterDashboardPage {
    const db: Database
    const hasValidCredentials: bool
    const profileId: Option<string>
    var elections: seq<ElectionView>
    var selected: map<string, string>
    var userVotes: seq<Vote>
    var loading: bool
    var submitting: bool

    constructor (db: Database, hasValidCredentials: bool, profileId: Option<string>)
      ensures this.db == db && this.hasValidCredentials == hasValidCredentials && this.profileId == profileId
      ensures elections == [] && selected == map[] && userVotes == [] && loading && !submitting
    {
      this.db := db;
      this.hasValidCredentials := hasValidCredentials;
      this.profileId := profileId;
      elections, selected, userVotes, loading, submitting := [], map[], [], true, false;
    }

    /** `fetchActiveElections`: the demo grouping without credentials; otherwise the active
        elections newest first, with positions and candidates, unless a query fails. */
    method FetchActiveElections(queryOk: bool)
      modifies this
      ensures !hasValidCredentials ==> elections == GroupActive(DemoElections, DemoPositions, DemoCandidates)
      ensures hasValidCredentials && queryOk ==>
        elections == ActiveListing(db.elections, db.positions, db.candidates)
      ensures hasValidCredentials && !queryOk ==> elections == old(elections)
      ensures !loading
      ensures selected == old(selected) && userVotes == old(userVotes) && submitting == old(submitting)
    {
      if !hasValidCredentials {
        elections := GroupActive(DemoElections, DemoPositions, DemoCandidates);
        loading := false;
        return;
      }
      if queryOk {
        elections := ActiveListing(db.elections, db.positions, db.candidates);
      }
      loading := false;
    }

    /** `fetchUserVotes`: nothing without a profile id; the fixed demo vote without credentials;
        otherwise the user's rows of the votes table, unless the query fails. */
    method FetchUserVotes(queryOk: bool, now: string)
      modifies this`userVotes
      ensures !HasProfileId(profileId) ==> userVotes == old(userVotes)
      ensures HasProfileId(profileId) && !hasValidCredentials ==> userVotes == [DemoVote(profileId.value, now)]
      ensures HasProfileId(profileId) && hasValidCredentials && queryOk ==>
        userVotes == Filter(db.votes, OfUser(profileId.value))
      ensures HasProfileId(profileId) && hasValidCredentials && !queryOk ==> userVotes == old(userVotes)
    {
      if !HasProfileId(profileId) {
        return;
      }
      if !hasValidCredentials {
        userVotes := [DemoVote(profileId.value, now)];
        return;
      }
      if queryOk {
        userVotes := Filter(db.votes, OfUser(profileId.value));
      }
    }

    /** The radio group's `onValueChange`: only the position's entry of the selection changes. */
    method SelectCandidate(positionId: string, candidateId: string)
      modifies this`selected
      ensures selected == old(selected)[positionId := candidateId]
    {
      selected := selected[positionId := candidateId];
    }

    /** `submitVotes(electionId)`. Without a profile id nothing happens. In demo mode the votes are
        reloaded and the selection cleared. Otherwise, when the election is listed, its ballot is
        inserted; if the insert fails nothing else changes; if it succeeds one `increment_vote`
        call follows per ballot row, the i-th succeeding iff `incrementOk(i)`, then the votes are
        reloaded and the selection cleared. */
    method SubmitVotes(electionId: string, insertOk: bool, incrementOk: nat -> bool,
                       newIds: nat -> string, now: string, reloadOk: bool)
      modifies this, db
      ensures HasProfileId(profileId) ==> !submitting
      ensures elections == old(elections)
      ensures !HasProfileId(profileId) ==>
        selected == old(selected) && userVotes == old(userVotes) && submitting == old(submitting) && unchanged(db)
      ensures HasProfileId(profileId) && !hasValidCredentials ==>
        selected == map[] && userVotes == [DemoVote(profileId.value, now)] && unchanged(db)
      ensures HasProfileId(profileId) && hasValidCredentials && FindElection(old(elections), electionId).None? ==>
        selected == old(selected) && userVotes == old(userVotes) && unchanged(db)
      ensures HasProfileId(profileId) && hasValidCredentials && FindElection(old(elections), electionId).Some? ==>
        var ballot := BuildBallot(FindElection(old(elections), electionId).value.positions, old(selected),
                                  profileId.value, electionId);
        && (!insertOk ==> selected == old(selected) && userVotes == old(userVotes) && unchanged(db))
        && (insertOk ==>
              && db.votes == old(db.votes) + RecordedVotes(ballot, newIds, now)
              && db.candidates == ApplyIncrements(old(db.candidates), CandidateIds(ballot), incrementOk)
              && db.users == old(db.users) && db.elections == old(db.elections) && db.positions == old(db.positions)
              && selected == map[]
              && (reloadOk ==> userVotes == Filter(db.votes, OfUser(profileId.value)))
              && (!reloadOk ==> userVotes == old(userVotes)))
    {
      if !HasProfileId(profileId) {
        return;
      }
      submitting := true;
      if !hasValidCredentials {
        FetchUserVotes(true, now);
        selected := map[];
        submitting := false;
        return;
      }
      var found := FindElection(elections, electionId);
      if found.None? {
        submitting := false;
        return;
      }
      var ballot := BuildBallot(found.value.positions, selected, profileId.value, electionId);
      if !insertOk {
        submitting := false;
        return;
      }
      db.InsertVotes(ballot, newIds, now);
      var cids := CandidateIds(ballot);
      var k := 0;
      while k < |cids|
        invariant 0 <= k <= |cids|
        invariant db.candidates == ApplyIncrements(old(db.candidates), cids[..k], incrementOk)
        invariant db.votes == old(db.votes) + RecordedVotes(ballot, newIds, now)
        invariant db.users == old(db.users) && db.elections == old(db.elections) && db.positions == old(db.positions)
        invariant selected == old(selected) && elections == old(elections) && userVotes == old(userVotes)
      {
        assert cids[..k + 1][..k] == cids[..k];
        if incrementOk(k) {
          db.IncrementVote(cids[k]);
        }
        k := k + 1;
      }
      assert cids[..k] == cids;
      FetchUserVotes(reloadOk, now);
      selected := map[];
      submitting := false;
    }
  }

  /** The listing with credentials: the active elections, newest first, with positions and candidates. */
  function ActiveListing(es: seq<Election>, ps: seq<Position>, cs: seq<Candidate>): (r: seq<ElectionView>)
    ensures |r| == |Filter(es, IsActive)|
  {
    var active := Results.SortByCreated(Filter(es, IsActive));
    seq(|active|, i requires 0 <= i < |active| => ViewOf(active[i], ps, cs))
  }

  /** The elections a listing shows, in its order. */
  function ListedElections(vs: seq<ElectionView>): (r: seq<Election>)
    ensures |r| == |vs| && forall i :: 0 <= i < |vs| ==> r[i] == vs[i].election
  {
    seq(|vs|, i requires 0 <= i < |vs| => vs[i].election)
  }

  /** The listing shows the active elections, each once, newest first, each view carrying
      exactly its own positions and their candidates. */
  lemma ActiveListingContents(es: seq<Election>, ps: seq<Position>, cs: seq<Candidate>)
    ensures var r := ActiveListing(es, ps, cs);
      && multiset(ListedElections(r)) == multiset(Filter(es, IsActive))
      && Results.NewestFirst(ListedElections(r))
      && (forall i :: 0 <= i < |r| ==> ViewContents(r[i], ps, cs))
  {
    var r := ActiveListing(es, ps, cs);
    var active := Results.SortByCreated(Filter(es, IsActive));
    assert ListedElections(r) == active;
    forall i | 0 <= i < |r| ensures ViewContents(r[i], ps, cs) {
      ViewOfContents(active[i], ps, cs);
    }
  }
}
