/** The serverless Clerk webhook: method and header gating, signature check, and an upsert of
    the user row built from a `user.created` or `user.updated` event. The svix signature check
    is an input; the database's own refusals are an input too, besides the two the table's
    types decide (an unknown role and a null name). */
module ClerkWebhookApi {
  import opened JsPrims
  import opened DatabaseTypes
  import opened Tables
  import opened ClerkEvents

  /** `!svixId || !svixTimestamp || !svixSignature` is false. */
  predicate HeadersPresent(h: SvixHeaders) {
    Truthy(h.svixId) && Truthy(h.svixTimestamp) && Truthy(h.svixSignature)
  }

  predicate IsUserEvent(kind: string) {
    kind == "user.created" || kind == "user.updated"
  }

  /** The row the handler upserts, or None when the users table refuses it: the role column
      accepts only the two role names and the name columns are not nullable. */
  function UpsertRow(d: UserData): (r: Option<UserInsert>)
    ensures r.Some? <==> ParseRole(OrElse(d.metadata_role, "voter")).Some? && d.first_name.Some? && d.last_name.Some?
    ensures r.Some? ==>
      && r.value.id == d.id
      && r.value.email == (if |d.email_addresses| > 0 then d.email_addresses[0].email_address else "")
      && r.value.voter_id == OrElse(d.metadata_voter_id, "")
      && r.value.first_name == d.first_name.value && r.value.last_name == d.last_name.value
      && r.value.role == Some(if Truthy(d.metadata_role) && d.metadata_role.value == "admin" then Admin else Voter)
      && r.value.is_verified == Some(d.verification_status == Some("verified"))
      && r.value.created_at.None? && r.value.updated_at.None?
  {
    var email := if |d.email_addresses| > 0 then d.email_addresses[0].email_address else "";
    var role := ParseRole(OrElse(d.metadata_role, "voter"));
    if role.None? || d.first_name.None? || d.last_name.None? then None
    else Some(UserInsert(d.id, email, OrElse(d.metadata_voter_id, ""), d.first_name.value, d.last_name.value,
                         Some(role.value), Some(d.verification_status == Some("verified")), None, None))
  }

  /** Without a role in the metadata the row is a voter's; only metadata naming "voter" or
      "admin" (or naming nothing) gives a row at all. */
  lemma RoleDefault(d: UserData)
    requires !Truthy(d.metadata_role) && d.first_name.Some? && d.last_name.Some?
    ensures UpsertRow(d).Some? && UpsertRow(d).value.role == Some(Voter)
  {
  }

  /** After a written event the table holds exactly one row for the Clerk user, verified exactly
      when Clerk says so, with the first address as e-mail; every other user row is kept. */
  lemma UpsertedUser(us: seq<User>, d: UserData, now: string)
    requires KeysDistinct(us, (u: User) => u.id)
    requires UpsertRow(d).Some?
    ensures var r := UpsertUsers(us, UpsertRow(d).value, now);
      && KeysDistinct(r, (u: User) => u.id)
      && |Filter(r, HasId(d.id))| == 1
      && (forall x :: x in r && x.id == d.id ==>
            && x.is_verified == (d.verification_status == Some("verified"))
            && x.email == (if |d.email_addresses| > 0 then d.email_addresses[0].email_address else ""))
      && (forall x :: x in us && x.id != d.id ==> x in r)
  {
    UpsertResult(us, UpsertRow(d).value, now);
  }

  /** The handler. `verifyCalled` says whether the signature check ran; `dbError` is a refusal by
      the database that the model does not derive, `now` the time the database stamps. */
  method HandleWebhook(db: Database, httpMethod: string, headers: SvixHeaders, signatureValid: bool,
                       event: Event, dbError: bool, now: string)
    returns (status: int, verifyCalled: bool)
    modifies db
    ensures httpMethod != "POST" ==> status == 405 && !verifyCalled
    ensures httpMethod == "POST" && !HeadersPresent(headers) ==> status == 400 && !verifyCalled
    ensures httpMethod == "POST" && HeadersPresent(headers) ==> verifyCalled
    ensures httpMethod == "POST" && HeadersPresent(headers) && !signatureValid ==> status == 400
    ensures var accepted := httpMethod == "POST" && HeadersPresent(headers) && signatureValid;
      var row := UpsertRow(event.data);
      var written := accepted && IsUserEvent(event.kind) && row.Some? && !dbError;
      && (accepted && !IsUserEvent(event.kind) ==> status == 200)
      && (accepted && IsUserEvent(event.kind) ==> status == (if written then 200 else 500))
      && db.users == (if written then UpsertUsers(old(db.users), row.value, now) else old(db.users))
    ensures db.elections == old(db.elections) && db.positions == old(db.positions)
    ensures db.candidates == old(db.candidates) && db.votes == old(db.votes)
  {
    verifyCalled := false;
    if httpMethod != "POST" {
      return 405, verifyCalled;
    }
    if !HeadersPresent(headers) {
      return 400, verifyCalled;
    }
    verifyCalled := true;
    if !signatureValid {
      return 400, verifyCalled;
    }
    if IsUserEvent(event.kind) {
      var row := UpsertRow(event.data);
      if row.None? || dbError {
        return 500, verifyCalled;
      }
      db.UpsertUser(row.value, now);
    }
    status := 200;
  }
}
