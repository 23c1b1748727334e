/** The Express Clerk webhook: secret and signature gating, then a dispatch on the event type
    that inserts, updates or deletes a users row. Failures inside the three sub-handlers are
    swallowed, so every dispatched request answers 200. The clock and the random source of the
    voter id are inputs. */
module ClerkWebhookServer {
  import opened JsPrims
  import opened DatabaseTypes
  import opened Tables
  import opened ClerkEvents

  /** `email_addresses.find(e => e.id === primary_email_address_id)`: the first address with
      that id, if any. */
  function PrimaryEmail(d: UserData): (r: Option<EmailAddress>)
    ensures r.Some? <==> exists i :: 0 <= i < |d.email_addresses| && d.email_addresses[i].id == d.primary_email_address_id
    ensures r.Some? ==> r.value in d.email_addresses && r.value.id == d.primary_email_address_id
  {
    FindEmail(d.email_addresses, d.primary_email_address_id)
  }

  function FindEmail(es: seq<EmailAddress>, id: string): (r: Option<EmailAddress>)
    ensures r.Some? <==> exists i :: 0 <= i < |es| && es[i].id == id
    ensures r.Some? ==>
      exists i :: 0 <= i < |es| && es[i] == r.value && es[i].id == id && (forall j :: 0 <= j < i ==> es[j].id != id)
  {
    if es == [] then None
    else if es[0].id == id then Some(es[0])
    else
      var r := FindEmail(es[1..], id);
      if r.Some? then
        var i :| 0 <= i < |es| - 1 && es[1..][i] == r.value && es[1..][i].id == id &&
          (forall j :: 0 <= j < i ==> es[1..][j].id != id);
        assert es[i + 1] == r.value && forall j :: 0 <= j < i + 1 ==> es[j].id != id;
        r
      else r
  }

  /** `"V" + Date.now().toString().slice(-6) + Math.random().toString(36).substring(2, 5).toUpperCase()`,
      with the clock reading in milliseconds and the base-36 text of the random number as inputs. */
  function VoterId(nowMs: nat, randomText: string): (r: string)
    ensures |r| >= 2 && |r| <= 10 && r[0] == 'V'
  {
    "V" + SliceLast(DecimalString(nowMs), 6) + ToUpperCase(Substring(randomText, 2, 5))
  }

  /** The voter id is "V", then the clock's last six decimal digits (all of them for a clock
      below 100000), then at most three characters none of which is a lower-case letter. */
  lemma VoterIdShape(nowMs: nat, randomText: string)
    ensures var r := VoterId(nowMs, randomText);
      var k := if nowMs >= 100000 then 6 else |DecimalString(nowMs)|;
      && 1 <= k <= 6 && k + 1 <= |r| <= k + 4
      && (forall i :: 1 <= i < k + 1 ==> IsDigit(r[i]))
      && DecimalValue(r[1..k + 1]) == nowMs % 1000000
      && (forall i :: k + 1 <= i < |r| ==> !('a' <= r[i] <= 'z'))
  {
    var d := SliceLast(DecimalString(nowMs), 6);
    var u := ToUpperCase(Substring(randomText, 2, 5));
    var r := VoterId(nowMs, randomText);
    DigitCount(nowMs);
    assert r == "V" + d + u;
    assert r[1..|d| + 1] == d;
    assert forall i :: |d| + 1 <= i < |r| ==> r[i] == u[i - |d| - 1];
    LastDigitsValue(nowMs, 6);
    assert Pow10(6) == 1000000;
  }

  /** A clock reading has at least six decimal digits exactly when it is at least 100000. */
  lemma DigitCount(n: nat)
    ensures n >= 100000 <==> |DecimalString(n)| >= 6
  {
    var m := |DecimalString(n)|;
    DecimalRoundTrip(n);
    DecimalAtLeast(n);
    assert Pow10(5) == 100000;
    if m <= 5 {
      PowMonotone(m, 5);
    } else {
      PowMonotone(5, m - 1);
    }
  }

  /** A decimal string of m digits spells a number of at least 10^(m-1), unless it is "0". */
  lemma {:induction false} DecimalAtLeast(n: nat)
    ensures n == 0 || n >= Pow10(|DecimalString(n)| - 1)
  {
    if n >= 10 {
      DecimalAtLeast(n / 10);
      assert DecimalString(n) == DecimalString(n / 10) + [DigitChar(n % 10)];
    }
  }

  /** The row `handleUserCreated` inserts: a verified voter, names defaulting to "", both
      timestamps the event's creation time. */
  function CreatedRow(d: UserData, primary: EmailAddress, nowMs: nat, randomText: string): (r: UserInsert)
    ensures r.id == d.id && r.email == primary.email_address
    ensures r.role == Some(Voter) && r.is_verified == Some(true)
    ensures r.first_name == OrElse(d.first_name, "") && r.last_name == OrElse(d.last_name, "")
    ensures r.created_at == Some(d.created_at) && r.updated_at == Some(d.created_at)
    ensures |r.voter_id| >= 2 && r.voter_id[0] == 'V'
  {
    UserInsert(d.id, primary.email_address, VoterId(nowMs, randomText), OrElse(d.first_name, ""),
               OrElse(d.last_name, ""), Some(Voter), Some(true), Some(d.created_at), Some(d.created_at))
  }

  /** The columns `handleUserUpdated` writes: e-mail, names and the update time, nothing else. */
  function UpdatedColumns(primary: EmailAddress, d: UserData, nowIso: string): (u: UserUpdate)
    ensures u.email == Some(primary.email_address) && u.updated_at == Some(nowIso)
    ensures u.first_name == Some(OrElse(d.first_name, "")) && u.last_name == Some(OrElse(d.last_name, ""))
    ensures u.id.None? && u.voter_id.None? && u.role.None? && u.is_verified.None? && u.created_at.None?
  {
    UserUpdate(None, Some(primary.email_address), None, Some(OrElse(d.first_name, "")),
               Some(OrElse(d.last_name, "")), None, None, None, Some(nowIso))
  }

  /** An update keeps the role, the verification flag, the voter id and the creation time of
      every row, and touches only the rows with the event's id. */
  lemma UpdateKeepsAccountColumns(us: seq<User>, primary: EmailAddress, d: UserData, nowIso: string)
    ensures var r := UpdateUsers(us, d.id, UpdatedColumns(primary, d, nowIso));
      && |r| == |us|
      && forall i :: 0 <= i < |us| ==>
           && r[i].id == us[i].id && r[i].role == us[i].role && r[i].is_verified == us[i].is_verified
           && r[i].voter_id == us[i].voter_id && r[i].created_at == us[i].created_at
           && (us[i].id != d.id ==> r[i] == us[i])
           && (us[i].id == d.id ==> r[i].email == primary.email_address && r[i].updated_at == nowIso)
  {
  }

  /** `handleUserCreated`: without a primary address nothing is written; an insert the table
      refuses (`dbError`, or an id already present) leaves the table as it was. */
  method HandleUserCreated(db: Database, d: UserData, nowMs: nat, randomText: string, dbError: bool, now: string)
    modifies db
    ensures var p := PrimaryEmail(d);
      db.users == if p.None? || dbError then old(db.users)
                  else InsertUsers(old(db.users), CreatedRow(d, p.value, nowMs, randomText), now).GetOr(old(db.users))
    ensures db.elections == old(db.elections) && db.positions == old(db.positions)
    ensures db.candidates == old(db.candidates) && db.votes == old(db.votes)
  {
    var primary := PrimaryEmail(d);
    if primary.None? {
      return;
    }
    if !dbError {
      var ok := db.InsertUser(CreatedRow(d, primary.value, nowMs, randomText), now);
    }
  }

  method HandleUserUpdated(db: Database, d: UserData, nowIso: string, dbError: bool)
    modifies db
    ensures var p := PrimaryEmail(d);
      db.users == if p.None? || dbError then old(db.users)
                  else UpdateUsers(old(db.users), d.id, UpdatedColumns(p.value, d, nowIso))
    ensures db.elections == old(db.elections) && db.positions == old(db.positions)
    ensures db.candidates == old(db.candidates) && db.votes == old(db.votes)
  {
    var primary := PrimaryEmail(d);
    if primary.None? {
      return;
    }
    if !dbError {
      db.UpdateUser(d.id, UpdatedColumns(primary.value, d, nowIso));
    }
  }

  method HandleUserDeleted(db: Database, d: UserData, dbError: bool)
    modifies db
    ensures db.users == if dbError then old(db.users) else DeleteUsers(old(db.users), d.id)
    ensures db.elections == old(db.elections) && db.positions == old(db.positions)
    ensures db.candidates == old(db.candidates) && db.votes == old(db.votes)
  {
    if !dbError {
      db.DeleteUser(d.id);
    }
  }

  /** What a dispatched event does to the users table. */
  function Dispatched(us: seq<User>, event: Event, nowMs: nat, randomText: string, nowIso: string,
                      dbError: bool, now: string): (r: seq<User>)
    ensures event.kind !in {"user.created", "user.updated", "user.deleted"} ==> r == us
    ensures event.kind == "user.deleted" && !dbError ==> forall x :: x in r <==> x in us && x.id != event.data.id
    ensures PrimaryEmail(event.data).None? && event.kind != "user.deleted" ==> r == us
  {
    var d := event.data;
    var p := PrimaryEmail(d);
    if event.kind == "user.created" then
      (if p.None? || dbError then us else InsertUsers(us, CreatedRow(d, p.value, nowMs, randomText), now).GetOr(us))
    else if event.kind == "user.updated" then
      (if p.None? || dbError then us else UpdateUsers(us, d.id, UpdatedColumns(p.value, d, nowIso)))
    else if event.kind == "user.deleted" then
      (if dbError then us else DeleteUsers(us, d.id))
    else us
  }

  /** `handleClerkWebhook`: 500 without a configured secret, 400 on a bad signature, and 200
      once the event is dispatched, whatever the sub-handler did. */
  method HandleClerkWebhook(db: Database, secret: Option<string>, signatureValid: bool, event: Event,
                            nowMs: nat, randomText: string, nowIso: string, dbError: bool, now: string)
    returns (status: int)
    modifies db
    ensures !Truthy(secret) ==> status == 500 && db.users == old(db.users)
    ensures Truthy(secret) && !signatureValid ==> status == 400 && db.users == old(db.users)
    ensures Truthy(secret) && signatureValid ==>
      status == 200 && db.users == Dispatched(old(db.users), event, nowMs, randomText, nowIso, dbError, now)
    ensures db.elections == old(db.elections) && db.positions == old(db.positions)
    ensures db.candidates == old(db.candidates) && db.votes == old(db.votes)
  {
    if !Truthy(secret) {
      return 500;
    }
    if !signatureValid {
      return 400;
    }
    match event.kind {
      case "user.created" => HandleUserCreated(db, event.data, nowMs, randomText, dbError, now);
      case "user.updated" => HandleUserUpdated(db, event.data, nowIso, dbError);
      case "user.deleted" => HandleUserDeleted(db, event.data, dbError);
      case _ =>
    }
    status := 200;
  }

  /** A created user lands as a single new row at the end when the id was new; an id already
      present leaves the table unchanged. */
  lemma CreatedIsAppended(us: seq<User>, d: UserData, nowMs: nat, randomText: string, now: string)
    requires PrimaryEmail(d).Some?
    ensures var r := Dispatched(us, Event("user.created", d), nowMs, randomText, "", false, now);
      && (UserIdPresent(us, d.id) ==> r == us)
      && (!UserIdPresent(us, d.id) ==>
            |r| == |us| + 1 && r[..|us|] == us && r[|us|].id == d.id &&
            r[|us|].role == Voter && r[|us|].is_verified && |r[|us|].voter_id| >= 2 && r[|us|].voter_id[0] == 'V')
  {
    var row := CreatedRow(d, PrimaryEmail(d).value, nowMs, randomText);
    assert UserFromInsert(row, now).voter_id == row.voter_id;
  }
}
