/** The five tables of the voting database: a Row type per table (what a
    select returns), the Insert types (what the application may send, with the
    columns the database fills in left optional) and the Update types (every
    column optional: an update writes only the columns it names). */
module DatabaseTypes {
  import opened JsPrims

  /** The `user_role` enumeration: exactly "voter" or "admin". */
  datatype Role = Voter | Admin

  function RoleName(r: Role): string {
    match r
    case Voter => "voter"
    case Admin => "admin"
  }

  /** The enumeration column accepts a string only if it is one of the two role names. */
  function ParseRole(s: string): (r: Option<Role>)
    ensures r.Some? <==> s == "voter" || s == "admin"
    ensures r.Some? ==> RoleName(r.value) == s
  {
    if s == "voter" then Some(Voter) else if s == "admin" then Some(Admin) else None
  }

  /** Every role is written as one of the two names and read back unchanged. */
  lemma RoleRoundTrip(r: Role)
    ensures ParseRole(RoleName(r)) == Some(r)
  {
  }

  datatype User = User(
    id: string, email: string, voter_id: string, first_name: string, last_name: string,
    role: Role, is_verified: bool, created_at: string, updated_at: string)

  datatype UserInsert = UserInsert(
    id: string, email: string, voter_id: string, first_name: string, last_name: string,
    role: Option<Role>, is_verified: Option<bool>, created_at: Option<string>, updated_at: Option<string>)

  datatype UserUpdate = UserUpdate(
    id: Option<string>, email: Option<string>, voter_id: Option<string>,
    first_name: Option<string>, last_name: Option<string>, role: Option<Role>,
    is_verified: Option<bool>, created_at: Option<string>, updated_at: Option<string>)

  /** `description` is nullable: an absent Option is SQL NULL. */
  datatype Election = Election(
    id: string, title: string, description: Option<string>, start_date: string, end_date: string,
    is_active: bool, results_published: bool, created_by: string, created_at: string, updated_at: string)

  datatype ElectionInsert = ElectionInsert(
    id: Option<string>, title: string, description: Option<string>, start_date: string, end_date: string,
    is_active: Option<bool>, results_published: Option<bool>, created_by: string,
    created_at: Option<string>, updated_at: Option<string>)

  /** In an update the nullable `description` is Option<Option<string>>: absent, set to NULL, or set to a text. */
  datatype ElectionUpdate = ElectionUpdate(
    id: Option<string>, title: Option<string>, description: Option<Option<string>>,
    start_date: Option<string>, end_date: Option<string>, is_active: Option<bool>,
    results_published: Option<bool>, created_by: Option<string>, created_at: Option<string>,
    updated_at: Option<string>)

  datatype Position = Position(
    id: string, election_id: string, title: string, description: Option<string>, max_votes: int, created_at: string)

  datatype PositionInsert = PositionInsert(
    id: Option<string>, election_id: string, title: string, description: Option<string>,
    max_votes: Option<int>, created_at: Option<string>)

  datatype Candidate = Candidate(
    id: string, position_id: string, name: string, bio: Option<string>, image_url: Option<string>,
    vote_count: int, created_at: string)

  datatype CandidateInsert = CandidateInsert(
    id: Option<string>, position_id: string, name: string, bio: Option<string>, image_url: Option<string>,
    vote_count: Option<int>, created_at: Option<string>)

  datatype Vote = Vote(
    id: string, user_id: string, candidate_id: string, position_id: string, election_id: string, created_at: string)

  datatype VoteInsert = VoteInsert(
    id: Option<string>, user_id: string, candidate_id: string, position_id: string, election_id: string,
    created_at: Option<string>)

  /** An update that names no column. */
  const NoElectionChange := ElectionUpdate(None, None, None, None, None, None, None, None, None, None)
  const NoUserChange := UserUpdate(None, None, None, None, None, None, None, None, None)

  /** The row an election update produces: each named column takes its new value, every other column keeps its old one. */
  function ApplyElectionUpdate(e: Election, u: ElectionUpdate): (r: Election)
    ensures r.id == u.id.GetOr(e.id) && r.title == u.title.GetOr(e.title)
    ensures r.description == u.description.GetOr(e.description)
    ensures r.start_date == u.start_date.GetOr(e.start_date) && r.end_date == u.end_date.GetOr(e.end_date)
    ensures r.is_active == u.is_active.GetOr(e.is_active)
    ensures r.results_published == u.results_published.GetOr(e.results_published)
    ensures r.created_by == u.created_by.GetOr(e.created_by)
    ensures r.created_at == u.created_at.GetOr(e.created_at) && r.updated_at == u.updated_at.GetOr(e.updated_at)
  {
    Election(u.id.GetOr(e.id), u.title.GetOr(e.title), u.description.GetOr(e.description),
             u.start_date.GetOr(e.start_date), u.end_date.GetOr(e.end_date),
             u.is_active.GetOr(e.is_active), u.results_published.GetOr(e.results_published),
             u.created_by.GetOr(e.created_by), u.created_at.GetOr(e.created_at),
             u.updated_at.GetOr(e.updated_at))
  }

  function ApplyUserUpdate(x: User, u: UserUpdate): (r: User)
    ensures r.id == u.id.GetOr(x.id) && r.email == u.email.GetOr(x.email)
    ensures r.voter_id == u.voter_id.GetOr(x.voter_id)
    ensures r.first_name == u.first_name.GetOr(x.first_name) && r.last_name == u.last_name.GetOr(x.last_name)
    ensures r.role == u.role.GetOr(x.role) && r.is_verified == u.is_verified.GetOr(x.is_verified)
    ensures r.created_at == u.created_at.GetOr(x.created_at) && r.updated_at == u.updated_at.GetOr(x.updated_at)
  {
    User(u.id.GetOr(x.id), u.email.GetOr(x.email), u.voter_id.GetOr(x.voter_id),
         u.first_name.GetOr(x.first_name), u.last_name.GetOr(x.last_name), u.role.GetOr(x.role),
         u.is_verified.GetOr(x.is_verified), u.created_at.GetOr(x.created_at), u.updated_at.GetOr(x.updated_at))
  }

  /** An update naming no column leaves a row as it was. */
  lemma EmptyUpdateKeepsRow(e: Election, x: User)
    ensures ApplyElectionUpdate(e, NoElectionChange) == e
    ensures ApplyUserUpdate(x, NoUserChange) == x
  {
  }

  /* The rows the database builds from inserts. The schema's column defaults are not part of this
     model; they are taken here as: a generated id, the insertion time, both election flags false,
     `max_votes` 1, `vote_count` 0, role voter and `is_verified` false. */

  function ElectionFromInsert(ins: ElectionInsert, newId: string, now: string): (r: Election)
    ensures r.title == ins.title && r.description == ins.description
    ensures r.start_date == ins.start_date && r.end_date == ins.end_date && r.created_by == ins.created_by
    ensures ins.id.Some? ==> r.id == ins.id.value
    ensures ins.is_active.Some? ==> r.is_active == ins.is_active.value
    ensures ins.results_published.Some? ==> r.results_published == ins.results_published.value
    ensures ins.created_at.Some? ==> r.created_at == ins.created_at.value
    ensures ins.updated_at.Some? ==> r.updated_at == ins.updated_at.value
  {
    Election(ins.id.GetOr(newId), ins.title, ins.description, ins.start_date, ins.end_date,
             ins.is_active.GetOr(false), ins.results_published.GetOr(false), ins.created_by,
             ins.created_at.GetOr(now), ins.updated_at.GetOr(now))
  }

  function PositionFromInsert(ins: PositionInsert, newId: string, now: string): (r: Position)
    ensures r.election_id == ins.election_id && r.title == ins.title && r.description == ins.description
    ensures ins.max_votes.Some? ==> r.max_votes == ins.max_votes.value
  {
    Position(ins.id.GetOr(newId), ins.election_id, ins.title, ins.description,
             ins.max_votes.GetOr(1), ins.created_at.GetOr(now))
  }

  function CandidateFromInsert(ins: CandidateInsert, newId: string, now: string): (r: Candidate)
    ensures r.position_id == ins.position_id && r.name == ins.name && r.bio == ins.bio
    ensures ins.vote_count.Some? ==> r.vote_count == ins.vote_count.value
  {
    Candidate(ins.id.GetOr(newId), ins.position_id, ins.name, ins.bio, ins.image_url,
              ins.vote_count.GetOr(0), ins.created_at.GetOr(now))
  }

  function VoteFromInsert(ins: VoteInsert, newId: string, now: string): (r: Vote)
    ensures r.user_id == ins.user_id && r.candidate_id == ins.candidate_id
    ensures r.position_id == ins.position_id && r.election_id == ins.election_id
    ensures ins.id.Some? ==> r.id == ins.id.value
  {
    Vote(ins.id.GetOr(newId), ins.user_id, ins.candidate_id, ins.position_id, ins.election_id,
         ins.created_at.GetOr(now))
  }

  function UserFromInsert(ins: UserInsert, now: string): (r: User)
    ensures r.id == ins.id && r.email == ins.email && r.voter_id == ins.voter_id
    ensures r.first_name == ins.first_name && r.last_name == ins.last_name
    ensures ins.role.Some? ==> r.role == ins.role.value
    ensures ins.is_verified.Some? ==> r.is_verified == ins.is_verified.value
  {
    User(ins.id, ins.email, ins.voter_id, ins.first_name, ins.last_name, ins.role.GetOr(Voter),
         ins.is_verified.GetOr(false), ins.created_at.GetOr(now), ins.updated_at.GetOr(now))
  }

  /** Election -> Position -> Candidate ownership: every position names an election of the
      table, every candidate a position of the table. */
  ghost predicate OwnershipTree(es: seq<Election>, ps: seq<Position>, cs: seq<Candidate>) {
    && (forall i :: 0 <= i < |ps| ==> exists j :: 0 <= j < |es| && es[j].id == ps[i].election_id)
    && (forall i :: 0 <= i < |cs| ==> exists j :: 0 <= j < |ps| && ps[j].id == cs[i].position_id)
  }

  /** Every vote names a user, a candidate, a position and an election of the tables. */
  ghost predicate VotesReferenced(vs: seq<Vote>, us: seq<User>, es: seq<Election>, ps: seq<Position>, cs: seq<Candidate>) {
    forall i :: 0 <= i < |vs| ==>
      && (exists j :: 0 <= j < |us| && us[j].id == vs[i].user_id)
      && (exists j :: 0 <= j < |cs| && cs[j].id == vs[i].candidate_id)
      && (exists j :: 0 <= j < |ps| && ps[j].id == vs[i].position_id)
      && (exists j :: 0 <= j < |es| && es[j].id == vs[i].election_id)
  }

  /** A key column holds no value twice (the primary-key constraint). */
  predicate KeysDistinct<T>(s: seq<T>, key: T -> string) {
    forall i, j :: 0 <= i < j < |s| ==> key(s[i]) != key(s[j])
  }

  /** A filtered table keeps its keys distinct. */
  lemma {:induction false} FilterKeysDistinct<T(!new)>(s: seq<T>, p: T -> bool, key: T -> string)
    requires KeysDistinct(s, key)
    ensures KeysDistinct(Filter(s, p), key)
  {
    if s != [] {
      var t := s[1..];
      assert KeysDistinct(t, key) by {
        forall i, j | 0 <= i < j < |t| ensures key(t[i]) != key(t[j]) {
          assert t[i] == s[i + 1] && t[j] == s[j + 1];
        }
      }
      FilterKeysDistinct(t, p, key);
      var ft := Filter(t, p);
      forall j | 0 <= j < |ft| ensures key(s[0]) != key(ft[j]) {
        assert ft[j] in t;
        var k :| 0 <= k < |t| && t[k] == ft[j];
        assert s[k + 1] == ft[j];
      }
    }
  }
}
