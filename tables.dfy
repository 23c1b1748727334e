/** The voting database as the application sees it: five tables held in memory. Each query the
    pages and webhooks send (`insert`, `update(...).eq("id", ...)`, `delete().eq("id", ...)`,
    `upsert`, and the `increment_vote` procedure) is a function on the table it touches and a
    method of `Database` that applies it. An election or user insert naming an id already present is
    refused, as a primary key would refuse it; the vote rows of a ballot are appended under the
    fresh ids the caller supplies, unchecked. */
module Tables {
  import opened JsPrims
  import opened DatabaseTypes

  /** `update(u).eq("id", id)` on elections: the rows with that id take the update, the others are kept. */
  function UpdateElections(es: seq<Election>, id: string, u: ElectionUpdate): (r: seq<Election>)
    ensures |r| == |es|
    ensures forall i :: 0 <= i < |es| && es[i].id != id ==> r[i] == es[i]
    ensures forall i :: 0 <= i < |es| && es[i].id == id ==> r[i] == ApplyElectionUpdate(es[i], u)
  {
    seq(|es|, i requires 0 <= i < |es| => if es[i].id == id then ApplyElectionUpdate(es[i], u) else es[i])
  }

  /** `update(u).eq("id", id)` on users. */
  function UpdateUsers(us: seq<User>, id: string, u: UserUpdate): (r: seq<User>)
    ensures |r| == |us|
    ensures forall i :: 0 <= i < |us| && us[i].id != id ==> r[i] == us[i]
    ensures forall i :: 0 <= i < |us| && us[i].id == id ==> r[i] == ApplyUserUpdate(us[i], u)
  {
    seq(|us|, i requires 0 <= i < |us| => if us[i].id == id then ApplyUserUpdate(us[i], u) else us[i])
  }

  function HasId(id: string): User -> bool {
    (u: User) => u.id == id
  }

  function OtherId(id: string): User -> bool {
    (u: User) => u.id != id
  }

  /** `delete().eq("id", id)` on users: every row with that id goes, every other row stays, in order. */
  function DeleteUsers(us: seq<User>, id: string): (r: seq<User>)
    ensures forall x :: x in r <==> x in us && x.id != id
  {
    Filter(us, OtherId(id))
  }

  predicate UserIdPresent(us: seq<User>, id: string) {
    exists i :: 0 <= i < |us| && us[i].id == id
  }

  /** `upsert(row)` on users keyed by id: when a row with the id exists, the columns the row names
      overwrite it; otherwise the row is inserted with the column defaults. */
  function UpsertUsers(us: seq<User>, ins: UserInsert, now: string): (r: seq<User>)
  {
    if UserIdPresent(us, ins.id) then UpdateUsers(us, ins.id, UpdateOfInsert(ins))
    else us + [UserFromInsert(ins, now)]
  }

  /** The columns an upserted row names, as an update. */
  function UpdateOfInsert(ins: UserInsert): (u: UserUpdate)
    ensures u.id == Some(ins.id) && u.email == Some(ins.email) && u.voter_id == Some(ins.voter_id)
    ensures u.first_name == Some(ins.first_name) && u.last_name == Some(ins.last_name)
    ensures u.role == ins.role && u.is_verified == ins.is_verified
  {
    UserUpdate(Some(ins.id), Some(ins.email), Some(ins.voter_id), Some(ins.first_name), Some(ins.last_name),
               ins.role, ins.is_verified, ins.created_at, ins.updated_at)
  }

  /** After an upsert there is exactly one row with the id, holding the named columns; every other
      row is as it was; ids stay distinct. */
  lemma UpsertResult(us: seq<User>, ins: UserInsert, now: string)
    requires KeysDistinct(us, (u: User) => u.id)
    ensures UpsertedTable(us, ins, UpsertUsers(us, ins, now))
  {
    if UserIdPresent(us, ins.id) {
      UpsertExisting(us, ins);
    } else {
      UpsertNew(us, ins, now);
    }
  }

  /** What an upsert of `ins` into `us` leaves: distinct ids, one row with the id holding the
      named columns, and every other row kept both ways. */
  predicate UpsertedTable(us: seq<User>, ins: UserInsert, r: seq<User>) {
    && KeysDistinct(r, (u: User) => u.id)
    && |Filter(r, HasId(ins.id))| == 1
    && (forall x :: x in r && x.id == ins.id ==>
          && x.email == ins.email && x.voter_id == ins.voter_id && x.first_name == ins.first_name
          && x.last_name == ins.last_name
          && (ins.role.Some? ==> x.role == ins.role.value)
          && (ins.is_verified.Some? ==> x.is_verified == ins.is_verified.value))
    && (forall x :: x in us && x.id != ins.id ==> x in r)
    && (forall x :: x in r && x.id != ins.id ==> x in us)
  }

  lemma UpsertExisting(us: seq<User>, ins: UserInsert)
    requires KeysDistinct(us, (u: User) => u.id) && UserIdPresent(us, ins.id)
    ensures UpsertedTable(us, ins, UpdateUsers(us, ins.id, UpdateOfInsert(ins)))
  {
    var r := UpdateUsers(us, ins.id, UpdateOfInsert(ins));
    var k :| 0 <= k < |us| && us[k].id == ins.id;
    UpdateKeepsIds(us, ins);
    assert KeysDistinct(r, (x: User) => x.id) by {
      forall i, j | 0 <= i < j < |r| ensures r[i].id != r[j].id {
        assert r[i].id == us[i].id && r[j].id == us[j].id;
      }
    }
    FilterOnly(r, HasId(ins.id), k);
    UpdatedRowsHoldColumns(us, ins);
    UpdateKeepsOtherRows(us, ins);
  }

  /** The upsert's update rewrites the id column with the value it already has. */
  lemma UpdateKeepsIds(us: seq<User>, ins: UserInsert)
    ensures var r := UpdateUsers(us, ins.id, UpdateOfInsert(ins));
      forall i :: 0 <= i < |r| ==> r[i].id == us[i].id
  {
  }

  lemma UpdatedRowsHoldColumns(us: seq<User>, ins: UserInsert)
    ensures forall x :: x in UpdateUsers(us, ins.id, UpdateOfInsert(ins)) && x.id == ins.id ==>
      && x.email == ins.email && x.voter_id == ins.voter_id && x.first_name == ins.first_name
      && x.last_name == ins.last_name
      && (ins.role.Some? ==> x.role == ins.role.value)
      && (ins.is_verified.Some? ==> x.is_verified == ins.is_verified.value)
  {
    var r := UpdateUsers(us, ins.id, UpdateOfInsert(ins));
    UpdateKeepsIds(us, ins);
    forall x | x in r && x.id == ins.id
      ensures x.email == ins.email && x.voter_id == ins.voter_id && x.first_name == ins.first_name
      ensures x.last_name == ins.last_name
      ensures ins.role.Some? ==> x.role == ins.role.value
      ensures ins.is_verified.Some? ==> x.is_verified == ins.is_verified.value
    {
      var i :| 0 <= i < |r| && r[i] == x;
      assert x == ApplyUserUpdate(us[i], UpdateOfInsert(ins));
    }
  }

  lemma UpdateKeepsOtherRows(us: seq<User>, ins: UserInsert)
    ensures var r := UpdateUsers(us, ins.id, UpdateOfInsert(ins));
      && (forall x :: x in us && x.id != ins.id ==> x in r)
      && (forall x :: x in r && x.id != ins.id ==> x in us)
  {
    var r := UpdateUsers(us, ins.id, UpdateOfInsert(ins));
    UpdateKeepsIds(us, ins);
    forall x | x in us && x.id != ins.id ensures x in r {
      var i :| 0 <= i < |us| && us[i] == x;
      assert r[i] == x;
    }
    forall x | x in r && x.id != ins.id ensures x in us {
      var i :| 0 <= i < |r| && r[i] == x;
      assert r[i] == us[i];
    }
  }

  lemma UpsertNew(us: seq<User>, ins: UserInsert, now: string)
    requires KeysDistinct(us, (u: User) => u.id) && !UserIdPresent(us, ins.id)
    ensures UpsertedTable(us, ins, us + [UserFromInsert(ins, now)])
  {
    var r := us + [UserFromInsert(ins, now)];
    assert KeysDistinct(r, (u: User) => u.id) by {
      forall i, j | 0 <= i < j < |r| ensures r[i].id != r[j].id {
        if j == |us| {
          assert r[i] == us[i];
        }
      }
    }
    FilterOnly(r, HasId(ins.id), |us|);
  }

  /** `insert(row)` on users: refused when the id is already present. */
  function InsertUsers(us: seq<User>, ins: UserInsert, now: string): (r: Option<seq<User>>)
    ensures r.None? <==> UserIdPresent(us, ins.id)
    ensures r.Some? ==> r.value == us + [UserFromInsert(ins, now)]
  {
    if UserIdPresent(us, ins.id) then None else Some(us + [UserFromInsert(ins, now)])
  }

  /** `insert(row)` on elections, the id and defaults filled in by the database. */
  function InsertElections(es: seq<Election>, ins: ElectionInsert, newId: string, now: string): (r: Option<seq<Election>>)
    ensures r.None? <==> exists i :: 0 <= i < |es| && es[i].id == ins.id.GetOr(newId)
    ensures r.Some? ==> r.value == es + [ElectionFromInsert(ins, newId, now)]
  {
    if exists i :: 0 <= i < |es| && es[i].id == ins.id.GetOr(newId) then None
    else Some(es + [ElectionFromInsert(ins, newId, now)])
  }

  /** The vote rows a batch insert appends, each with a generated id and the insertion time. */
  function RecordedVotes(rows: seq<VoteInsert>, ids: nat -> string, now: string): (r: seq<Vote>)
    ensures |r| == |rows|
    ensures forall i :: 0 <= i < |rows| ==>
      r[i].user_id == rows[i].user_id && r[i].candidate_id == rows[i].candidate_id
      && r[i].position_id == rows[i].position_id && r[i].election_id == rows[i].election_id
  {
    var r := seq(|rows|, i requires 0 <= i < |rows| => VoteFromInsert(rows[i], ids(i), now));
    assert forall i :: 0 <= i < |rows| ==> r[i] == VoteFromInsert(rows[i], ids(i), now);
    r
  }

  /** `rpc("increment_vote", { candidate_id })`: one more vote for the candidate with that id. The
      procedure's SQL is not part of this model; this is the behaviour its name and use promise. */
  function Incremented(cs: seq<Candidate>, cid: string): (r: seq<Candidate>)
    ensures |r| == |cs|
    ensures forall i :: 0 <= i < |cs| ==> r[i] == cs[i].(vote_count := r[i].vote_count)
    ensures forall i :: 0 <= i < |cs| ==> r[i].vote_count == cs[i].vote_count + (if cs[i].id == cid then 1 else 0)
  {
    seq(|cs|, i requires 0 <= i < |cs| =>
      if cs[i].id == cid then cs[i].(vote_count := cs[i].vote_count + 1) else cs[i])
  }

  /** The successful calls of a sequence of `increment_vote` calls that name the candidate `cid`. */
  function Hits(cids: seq<string>, ok: nat -> bool, cid: string): (n: nat)
    ensures n <= |cids|
  {
    if cids == [] then 0
    else Hits(cids[..|cids| - 1], ok, cid) + (if ok(|cids| - 1) && cids[|cids| - 1] == cid then 1 else 0)
  }

  /** The candidates table after calls naming `cids` in order, the i-th succeeding iff `ok(i)`. */
  function ApplyIncrements(cs: seq<Candidate>, cids: seq<string>, ok: nat -> bool): (r: seq<Candidate>)
    ensures |r| == |cs|
  {
    if cids == [] then cs
    else
      var prev := ApplyIncrements(cs, cids[..|cids| - 1], ok);
      if ok(|cids| - 1) then Incremented(prev, cids[|cids| - 1]) else prev
  }

  /** Each candidate row is kept, its count raised by the number of successful calls naming it. */
  lemma {:induction false} IncrementsPerCandidate(cs: seq<Candidate>, cids: seq<string>, ok: nat -> bool)
    ensures var r := ApplyIncrements(cs, cids, ok);
      forall i :: 0 <= i < |cs| ==>
        r[i] == cs[i].(vote_count := cs[i].vote_count + Hits(cids, ok, cs[i].id))
  {
    if cids != [] {
      IncrementsPerCandidate(cs, cids[..|cids| - 1], ok);
    }
  }

  predicate CandidateIdPresent(cs: seq<Candidate>, cid: string) {
    exists i :: 0 <= i < |cs| && cs[i].id == cid
  }

  /** With distinct ids, one successful call naming a present candidate raises the table total by
      one, and a call naming no candidate changes nothing. */
  lemma {:induction false} IncrementedTotal(cs: seq<Candidate>, cid: string)
    requires KeysDistinct(cs, (c: Candidate) => c.id)
    ensures TotalVotes(Incremented(cs, cid)) == TotalVotes(cs) + (if CandidateIdPresent(cs, cid) then 1 else 0)
  {
    if cs != [] {
      var t := cs[1..];
      assert KeysDistinct(t, (c: Candidate) => c.id) by {
        forall i, j | 0 <= i < j < |t| ensures t[i].id != t[j].id {
          assert t[i] == cs[i + 1] && t[j] == cs[j + 1];
        }
      }
      IncrementedTotal(t, cid);
      assert Incremented(cs, cid)[1..] == Incremented(t, cid);
      if cs[0].id == cid {
        assert !CandidateIdPresent(t, cid) by {
          forall i | 0 <= i < |t| ensures t[i].id != cid {
            assert t[i] == cs[i + 1];
          }
        }
      } else {
        assert CandidateIdPresent(cs, cid) <==> CandidateIdPresent(t, cid) by {
          if CandidateIdPresent(cs, cid) {
            var i :| 0 <= i < |cs| && cs[i].id == cid;
            assert t[i - 1] == cs[i];
          }
          if CandidateIdPresent(t, cid) {
            var i :| 0 <= i < |t| && t[i].id == cid;
            assert cs[i + 1] == t[i];
          }
        }
      }
    }
  }

  /** The votes counted on all candidates of a table, summed from the first row. */
  function TotalVotes(cs: seq<Candidate>): int {
    if cs == [] then 0 else cs[0].vote_count + TotalVotes(cs[1..])
  }

  /** The calls that succeed and name a candidate of the table. */
  function Effective(cs: seq<Candidate>, cids: seq<string>, ok: nat -> bool): (n: nat)
    ensures n <= |cids|
  {
    if cids == [] then 0
    else
      var last := if ok(|cids| - 1) && CandidateIdPresent(cs, cids[|cids| - 1]) then 1 else 0;
      Effective(cs, cids[..|cids| - 1], ok) + last
  }

  /** With distinct ids, a run of calls raises the total by the number of effective calls: never
      more than the number of calls, and exactly that many when every call succeeds and names a
      candidate of the table. */
  lemma {:induction false} IncrementsTotal(cs: seq<Candidate>, cids: seq<string>, ok: nat -> bool)
    requires KeysDistinct(cs, (c: Candidate) => c.id)
    ensures TotalVotes(ApplyIncrements(cs, cids, ok)) == TotalVotes(cs) + Effective(cs, cids, ok)
    ensures TotalVotes(ApplyIncrements(cs, cids, ok)) <= TotalVotes(cs) + |cids|
    ensures (forall i :: 0 <= i < |cids| ==> ok(i) && CandidateIdPresent(cs, cids[i])) ==>
      TotalVotes(ApplyIncrements(cs, cids, ok)) == TotalVotes(cs) + |cids|
  {
    if cids != [] {
      var n := |cids| - 1;
      IncrementsTotal(cs, cids[..n], ok);
      var prev := ApplyIncrements(cs, cids[..n], ok);
      IncrementsPerCandidate(cs, cids[..n], ok);
      assert KeysDistinct(prev, (c: Candidate) => c.id) by {
        forall i, j | 0 <= i < j < |prev| ensures prev[i].id != prev[j].id {
          assert prev[i].id == cs[i].id && prev[j].id == cs[j].id;
        }
      }
      assert CandidateIdPresent(prev, cids[n]) <==> CandidateIdPresent(cs, cids[n]) by {
        if CandidateIdPresent(cs, cids[n]) {
          var i :| 0 <= i < |cs| && cs[i].id == cids[n];
          assert prev[i].id == cids[n];
        }
      }
      if ok(n) {
        IncrementedTotal(prev, cids[n]);
      }
      assert (forall i :: 0 <= i < |cids| ==> ok(i) && CandidateIdPresent(cs, cids[i])) ==>
        (forall i :: 0 <= i < n ==> ok(i) && CandidateIdPresent(cs, cids[..n][i]));
    }
  }

  /** The tables, updated in place by the queries. */
  class Database {
    var users: seq<User>
    var elections: seq<Election>
    var positions: seq<Position>
    var candidates: seq<Candidate>
    var votes: seq<Vote>

    constructor (us: seq<User>, es: seq<Election>, ps: seq<Position>, cs: seq<Candidate>, vs: seq<Vote>)
      ensures users == us && elections == es && positions == ps && candidates == cs && votes == vs
    {
      users, elections, positions, candidates, votes := us, es, ps, cs, vs;
    }

    method UpdateElection(id: string, u: ElectionUpdate)
      modifies this
      ensures elections == UpdateElections(old(elections), id, u)
      ensures unchanged(this`users) && unchanged(this`positions) && unchanged(this`candidates) && unchanged(this`votes)
    {
      elections := UpdateElections(elections, id, u);
    }

    /** Returns whether the insert was accepted. */
    method InsertElection(ins: ElectionInsert, newId: string, now: string) returns (ok: bool)
      modifies this
      ensures ok == InsertElections(old(elections), ins, newId, now).Some?
      ensures elections == InsertElections(old(elections), ins, newId, now).GetOr(old(elections))
      ensures unchanged(this`users) && unchanged(this`positions) && unchanged(this`candidates) && unchanged(this`votes)
    {
      var r := InsertElections(elections, ins, newId, now);
      ok := r.Some?;
      elections := r.GetOr(elections);
    }

    method UpdateUser(id: string, u: UserUpdate)
      modifies this
      ensures users == UpdateUsers(old(users), id, u)
      ensures unchanged(this`elections) && unchanged(this`positions) && unchanged(this`candidates) && unchanged(this`votes)
    {
      users := UpdateUsers(users, id, u);
    }

    method InsertUser(ins: UserInsert, now: string) returns (ok: bool)
      modifies this
      ensures ok == InsertUsers(old(users), ins, now).Some?
      ensures users == InsertUsers(old(users), ins, now).GetOr(old(users))
      ensures unchanged(this`elections) && unchanged(this`positions) && unchanged(this`candidates) && unchanged(this`votes)
    {
      var r := InsertUsers(users, ins, now);
      ok := r.Some?;
      users := r.GetOr(users);
    }

    method DeleteUser(id: string)
      modifies this
      ensures users == DeleteUsers(old(users), id)
      ensures unchanged(this`elections) && unchanged(this`positions) && unchanged(this`candidates) && unchanged(this`votes)
    {
      users := DeleteUsers(users, id);
    }

    method UpsertUser(ins: UserInsert, now: string)
      modifies this
      ensures users == UpsertUsers(old(users), ins, now)
      ensures unchanged(this`elections) && unchanged(this`positions) && unchanged(this`candidates) && unchanged(this`votes)
    {
      users := UpsertUsers(users, ins, now);
    }

    method InsertVotes(rows: seq<VoteInsert>, ids: nat -> string, now: string)
      modifies this
      ensures votes == old(votes) + RecordedVotes(rows, ids, now)
      ensures unchanged(this`users) && unchanged(this`elections) && unchanged(this`positions) && unchanged(this`candidates)
    {
      votes := votes + RecordedVotes(rows, ids, now);
    }

    method IncrementVote(cid: string)
      modifies this
      ensures candidates == Incremented(old(candidates), cid)
      ensures unchanged(this`users) && unchanged(this`elections) && unchanged(this`positions) && unchanged(this`votes)
    {
      candidates := Incremented(candidates, cid);
    }
  }
}
