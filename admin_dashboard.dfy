/** The administrator's dashboard: the election and user listings, the creation form, the two
    election flags and the user verification switch (each writes the negation of the value it is
    handed), and the four stat counters. */
module AdminDashboard {
  import opened JsPrims
  import opened DatabaseTypes
  import opened DemoData
  import opened Tables
  import Results
  import VoterDashboard

  /** `toggleElectionStatus(id, isActive)` on the table: `is_active := !isActive` on the rows with that id. */
  function ToggleActive(es: seq<Election>, id: string, isActive: bool): (r: seq<Election>)
    ensures |r| == |es|
    ensures forall i :: 0 <= i < |es| ==>
      r[i] == if es[i].id == id then es[i].(is_active := !isActive) else es[i]
  {
    UpdateElections(es, id, NoElectionChange.(is_active := Some(!isActive)))
  }

  /** `toggleResultsPublication(id, isPublished)` on the table: `results_published := !isPublished`. */
  function TogglePublished(es: seq<Election>, id: string, isPublished: bool): (r: seq<Election>)
    ensures |r| == |es|
    ensures forall i :: 0 <= i < |es| ==>
      r[i] == if es[i].id == id then es[i].(results_published := !isPublished) else es[i]
  {
    UpdateElections(es, id, NoElectionChange.(results_published := Some(!isPublished)))
  }

  /** `verifyUser(id, isVerified)` on the table: `is_verified := !isVerified` on the rows with that id. */
  function SetVerified(us: seq<User>, id: string, isVerified: bool): (r: seq<User>)
    ensures |r| == |us|
    ensures forall i :: 0 <= i < |us| ==>
      r[i] == if us[i].id == id then us[i].(is_verified := !isVerified) else us[i]
  {
    UpdateUsers(us, id, NoUserChange.(is_verified := Some(!isVerified)))
  }

  /** The new value comes from the argument, not from the row: repeating a call is idempotent. */
  lemma TogglesIdempotent(es: seq<Election>, us: seq<User>, id: string, v: bool)
    ensures ToggleActive(ToggleActive(es, id, v), id, v) == ToggleActive(es, id, v)
    ensures TogglePublished(TogglePublished(es, id, v), id, v) == TogglePublished(es, id, v)
    ensures SetVerified(SetVerified(us, id, v), id, v) == SetVerified(us, id, v)
  {
    assert ToggleActive(ToggleActive(es, id, v), id, v) == ToggleActive(es, id, v);
    assert TogglePublished(TogglePublished(es, id, v), id, v) == TogglePublished(es, id, v);
    assert SetVerified(SetVerified(us, id, v), id, v) == SetVerified(us, id, v);
  }

  /** The buttons pass the value currently shown: handing each call the stored value undoes the
      previous one. */
  lemma TogglesInvolutive(es: seq<Election>, us: seq<User>, id: string, a: bool, p: bool, v: bool)
    requires forall i :: 0 <= i < |es| && es[i].id == id ==> es[i].is_active == a && es[i].results_published == p
    requires forall i :: 0 <= i < |us| && us[i].id == id ==> us[i].is_verified == v
    ensures ToggleActive(ToggleActive(es, id, a), id, !a) == es
    ensures TogglePublished(TogglePublished(es, id, p), id, !p) == es
    ensures SetVerified(SetVerified(us, id, v), id, !v) == us
  {
    assert ToggleActive(ToggleActive(es, id, a), id, !a) == es;
    assert TogglePublished(TogglePublished(es, id, p), id, !p) == es;
    assert SetVerified(SetVerified(us, id, v), id, !v) == us;
  }

  /** The flags are independent: each toggle leaves the other flag of every row as it was, the two
      commute, and together they reach each of the four combinations. */
  lemma FlagsIndependent(es: seq<Election>, id: string, a: bool, p: bool)
    ensures forall i :: 0 <= i < |es| ==> ToggleActive(es, id, a)[i].results_published == es[i].results_published
    ensures forall i :: 0 <= i < |es| ==> TogglePublished(es, id, p)[i].is_active == es[i].is_active
    ensures ToggleActive(TogglePublished(es, id, p), id, a) == TogglePublished(ToggleActive(es, id, a), id, p)
    ensures forall i :: 0 <= i < |es| && es[i].id == id ==>
      ToggleActive(TogglePublished(es, id, p), id, a)[i] == es[i].(is_active := !a, results_published := !p)
  {
    assert ToggleActive(TogglePublished(es, id, p), id, a) == TogglePublished(ToggleActive(es, id, a), id, p);
  }

  predicate IsVerified(u: User) {
    u.is_verified
  }

  /** The four counters: total elections, registered users, verified voters, active elections. */
  datatype Stats = Stats(totalElections: nat, registeredUsers: nat, verifiedVoters: nat, activeElections: nat)

  /** `stats`: the counters are filter counts, so each part is at most its whole. */
  function StatsOf(es: seq<Election>, us: seq<User>): (s: Stats)
    ensures s.verifiedVoters <= s.registeredUsers && s.activeElections <= s.totalElections
    ensures s.totalElections == |es| && s.registeredUsers == |us|
    ensures s.verifiedVoters == |Filter(us, IsVerified)|
    ensures s.activeElections == |Filter(es, VoterDashboard.IsActive)|
  {
    Stats(|es|, |us|, |Filter(us, IsVerified)|, |Filter(es, VoterDashboard.IsActive)|)
  }

  /** Verifying one unverified user (ids distinct) raises the verified count by one; revoking a
      verified one lowers it by one; the number of users is unchanged. */
  lemma {:induction false} VerifyChangesCount(us: seq<User>, id: string, v: bool)
    requires KeysDistinct(us, (u: User) => u.id)
    requires exists i :: 0 <= i < |us| && us[i].id == id && us[i].is_verified == v
    ensures |Filter(SetVerified(us, id, v), IsVerified)| == |Filter(us, IsVerified)| + (if v then -1 else 1)
  {
    var k :| 0 <= k < |us| && us[k].id == id && us[k].is_verified == v;
    var r := SetVerified(us, id, v);
    SetVerifiedAround(us, id, v, k);
    CountAround(us, k, IsVerified);
    CountAround(r, k, IsVerified);
  }

  /** The verified-voters counter after `verifyUser(id, v)` on one matching row moves by one,
      and the other three counters stay. */
  lemma VerifiedCounterMoves(es: seq<Election>, us: seq<User>, id: string, v: bool)
    requires KeysDistinct(us, (u: User) => u.id)
    requires exists i :: 0 <= i < |us| && us[i].id == id && us[i].is_verified == v
    ensures var before, after := StatsOf(es, us), StatsOf(es, SetVerified(us, id, v));
      && after.verifiedVoters == before.verifiedVoters + (if v then -1 else 1)
      && after.totalElections == before.totalElections
      && after.registeredUsers == before.registeredUsers
      && after.activeElections == before.activeElections
  {
    VerifyChangesCount(us, id, v);
  }

  /** With distinct ids, only the row at k changes, and it gets the new flag. */
  lemma SetVerifiedAround(us: seq<User>, id: string, v: bool, k: nat)
    requires KeysDistinct(us, (u: User) => u.id)
    requires k < |us| && us[k].id == id
    ensures var r := SetVerified(us, id, v);
      r[..k] == us[..k] && r[k + 1..] == us[k + 1..] && r[k].is_verified == !v
  {
    var r := SetVerified(us, id, v);
    assert r[..k] == us[..k] by {
      forall i | 0 <= i < k ensures r[i] == us[i] {
        assert us[i].id != id;
      }
    }
    assert r[k + 1..] == us[k + 1..] by {
      forall i | k + 1 <= i < |us| ensures r[i] == us[i] {
        assert us[i].id != id;
      }
    }
  }

  /** A filter count split around index k. */
  lemma CountAround<T(!new)>(s: seq<T>, k: nat, p: T -> bool)
    requires k < |s|
    ensures |Filter(s, p)| == |Filter(s[..k], p)| + (if p(s[k]) then 1 else 0) + |Filter(s[k + 1..], p)|
  {
    assert s == s[..k] + ([s[k]] + s[k + 1..]);
    FilterAppend(s[..k], [s[k]] + s[k + 1..], p);
    FilterAppend([s[k]], s[k + 1..], p);
  }

  /** Publishing an election's results through the toggle makes it appear on the results page. */
  lemma PublishingShowsResults(es: seq<Election>, ps: seq<Position>, cs: seq<Candidate>, k: nat)
    requires k < |es| && !es[k].results_published
    ensures es[k].(results_published := true) in
      Results.ElectionsOf(Results.FetchResults(TogglePublished(es, es[k].id, false), ps, cs))
  {
    var r := TogglePublished(es, es[k].id, false);
    assert r[k] == es[k].(results_published := true);
    Results.PublishedOnly(r, ps, cs);
  }

  /** The creation dialog's four text fields. */
  datatype ElectionForm = ElectionForm(title: string, description: string, startDate: string, endDate: string)

  const EmptyForm := ElectionForm("", "", "", "")

  /** The row `createElection` sends: the form's fields, and `created_by` = the profile id or "". */
  function ElectionInsertOf(form: ElectionForm, profileId: Option<string>): (ins: ElectionInsert)
    ensures ins.title == form.title && ins.description == Some(form.description)
    ensures ins.start_date == form.startDate && ins.end_date == form.endDate
    ensures ins.created_by == OrElse(profileId, "")
    ensures ins.id.None? && ins.is_active.None? && ins.results_published.None?
  {
    ElectionInsert(None, form.title, Some(form.description), form.startDate, form.endDate,
                   None, None, OrElse(profileId, ""), None, None)
  }

  class AdminDashboardPage {
    const db: Database
    const hasValidCredentials: bool
    const profileId: Option<string>
    var elections: seq<Election>
    var users: seq<User>
    var loading: bool
    var createOpen: bool
    var form: ElectionForm

    constructor (db: Database, hasValidCredentials: bool, profileId: Option<string>)
      ensures this.db == db && this.hasValidCredentials == hasValidCredentials && this.profileId == profileId
      ensures elections == [] && users == [] && loading && !createOpen && form == EmptyForm
    {
      this.db := db;
      this.hasValidCredentials := hasValidCredentials;
      this.profileId := profileId;
      elections, users, loading, createOpen, form := [], [], true, false, EmptyForm;
    }

    /** `fetchElections`: the demo elections, or the whole table newest first unless the query fails. */
    method FetchElections(queryOk: bool)
      modifies this`elections
      ensures !hasValidCredentials ==> elections == DemoElections
      ensures hasValidCredentials && queryOk ==> elections == Results.SortByCreated(db.elections)
      ensures hasValidCredentials && !queryOk ==> elections == old(elections)
    {
      if !hasValidCredentials {
        elections := DemoElections;
        return;
      }
      if queryOk {
        elections := Results.SortByCreated(db.elections);
      }
    }

    /** `fetchUsers`: the demo users, or the users table unless the query fails; loading ends either way. */
    method FetchUsers(queryOk: bool)
      modifies this`users, this`loading
      ensures !hasValidCredentials ==> users == DemoUsers
      ensures hasValidCredentials && queryOk ==> users == db.users
      ensures hasValidCredentials && !queryOk ==> users == old(users)
      ensures !loading
    {
      if !hasValidCredentials {
        users := DemoUsers;
        loading := false;
        return;
      }
      if queryOk {
        users := db.users;
      }
      loading := false;
    }

    /** `createElection`. In demo mode the dialog closes and the form is emptied, the table untouched.
        Otherwise the row is inserted (`accepted` says whether the database takes it); on success
        the dialog closes, the form is emptied and the listing reloaded; on failure nothing changes. */
    method CreateElection(accepted: bool, newId: string, now: string, reloadOk: bool)
      modifies this`createOpen, this`form, this`elections, db
      ensures !hasValidCredentials ==> !createOpen && form == EmptyForm && db.elections == old(db.elections) && elections == old(elections)
      ensures hasValidCredentials ==>
        var inserted := accepted && InsertElections(old(db.elections), ElectionInsertOf(old(form), profileId), newId, now).Some?;
        && (inserted ==>
              && db.elections == old(db.elections) + [ElectionFromInsert(ElectionInsertOf(old(form), profileId), newId, now)]
              && !createOpen && form == EmptyForm
              && (reloadOk ==> elections == Results.SortByCreated(db.elections))
              && (!reloadOk ==> elections == old(elections)))
        && (!inserted ==> db.elections == old(db.elections) && createOpen == old(createOpen) && form == old(form) && elections == old(elections))
      ensures db.users == old(db.users) && db.positions == old(db.positions)
      ensures db.candidates == old(db.candidates) && db.votes == old(db.votes)
    {
      if !hasValidCredentials {
        createOpen := false;
        form := EmptyForm;
        return;
      }
      if !accepted {
        return;
      }
      var ok := db.InsertElection(ElectionInsertOf(form, profileId), newId, now);
      if !ok {
        return;
      }
      createOpen := false;
      form := EmptyForm;
      FetchElections(reloadOk);
    }

    /** `toggleElectionStatus(id, isActive)`: in demo mode nothing changes; otherwise the update is
        written (when the database accepts it) and the listing reloaded. */
    method ToggleElectionStatus(id: string, isActive: bool, accepted: bool, reloadOk: bool)
      modifies this`elections, db
      ensures !hasValidCredentials || !accepted ==> unchanged(db) && elections == old(elections)
      ensures hasValidCredentials && accepted ==> db.elections == ToggleActive(old(db.elections), id, isActive)
      ensures hasValidCredentials && accepted && reloadOk ==> elections == Results.SortByCreated(db.elections)
      ensures hasValidCredentials && accepted && !reloadOk ==> elections == old(elections)
      ensures db.users == old(db.users) && db.positions == old(db.positions)
      ensures db.candidates == old(db.candidates) && db.votes == old(db.votes)
    {
      if !hasValidCredentials || !accepted {
        return;
      }
      db.UpdateElection(id, NoElectionChange.(is_active := Some(!isActive)));
      FetchElections(reloadOk);
    }

    /** `toggleResultsPublication(id, isPublished)`, the same shape on the other flag. */
    method ToggleResultsPublication(id: string, isPublished: bool, accepted: bool, reloadOk: bool)
      modifies this`elections, db
      ensures !hasValidCredentials || !accepted ==> unchanged(db) && elections == old(elections)
      ensures hasValidCredentials && accepted ==> db.elections == TogglePublished(old(db.elections), id, isPublished)
      ensures hasValidCredentials && accepted && reloadOk ==> elections == Results.SortByCreated(db.elections)
      ensures hasValidCredentials && accepted && !reloadOk ==> elections == old(elections)
      ensures db.users == old(db.users) && db.positions == old(db.positions)
      ensures db.candidates == old(db.candidates) && db.votes == old(db.votes)
    {
      if !hasValidCredentials || !accepted {
        return;
      }
      db.UpdateElection(id, NoElectionChange.(results_published := Some(!isPublished)));
      FetchElections(reloadOk);
    }

    /** `verifyUser(id, isVerified)`: in demo mode nothing changes; otherwise `is_verified := !isVerified`. */
    method VerifyUser(id: string, isVerified: bool, accepted: bool, reloadOk: bool)
      modifies this`users, this`loading, db
      ensures !hasValidCredentials || !accepted ==> unchanged(db) && users == old(users)
      ensures hasValidCredentials && accepted ==> db.users == SetVerified(old(db.users), id, isVerified)
      ensures hasValidCredentials && accepted && reloadOk ==> users == db.users
      ensures hasValidCredentials && accepted && !reloadOk ==> users == old(users)
      ensures hasValidCredentials && accepted ==> !loading
      ensures !hasValidCredentials || !accepted ==> loading == old(loading)
      ensures db.elections == old(db.elections) && db.positions == old(db.positions)
      ensures db.candidates == old(db.candidates) && db.votes == old(db.votes)
    {
      if !hasValidCredentials || !accepted {
        return;
      }
      db.UpdateUser(id, NoUserChange.(is_verified := Some(!isVerified)));
      FetchUsers(reloadOk);
    }
  }
}
