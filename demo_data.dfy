/** The timestamps of the demo elections, kept apart from the demo tables so that facts about
    the characters of the strings are proved without the tables in view. */
module DemoDates {
  import opened JsPrims

  const Election1Start := "2024-01-01T00:00:00Z"
  const Election1End := "2024-12-31T23:59:59Z"
  const Election2Start := "2024-06-01T00:00:00Z"
  const Election2End := "2024-06-30T23:59:59Z"

  lemma Election1DatesOrdered()
    ensures StringLess(Election1Start, Election1End)
  {
    var a, b := Election1Start, Election1End;
    assert a[..5] == b[..5];
    StringLessAt(a, b, 5);
  }

  lemma Election2DatesOrdered()
    ensures StringLess(Election2Start, Election2End)
  {
    var c, d := Election2Start, Election2End;
    assert c[..8] == d[..8];
    StringLessAt(c, d, 8);
  }
}

/** The fixture the application falls back on when no database credentials are
    configured: two elections, six users, two positions and five candidates. */
module DemoData {
  import opened JsPrims
  import opened DatabaseTypes
  import opened DemoDates

  const T0 := "2024-01-01T00:00:00Z"

  const DemoElections: seq<Election> := [
    Election("demo-election-1", "Student Council Election 2024",
             Some("Annual student council election for the academic year 2024-2025"),
             Election1Start, Election1End, true, true, "demo-admin", T0, T0),
    Election("demo-election-2", "Board of Directors Election",
             Some("Election for the board of directors positions"),
             Election2Start, Election2End, false, false, "demo-admin", T0, T0)
  ]

  const DemoUsers: seq<User> := [
    User("demo-admin", "admin@jaytec.com", "ADMIN001", "Demo", "Administrator", Admin, true, T0, T0),
    User("demo-user-1", "john@example.com", "VOTER001", "John", "Doe", Voter, true, T0, T0),
    User("demo-user-2", "jane@example.com", "VOTER002", "Jane", "Smith", Voter, false, T0, T0),
    User("demo-user-3", "mike@example.com", "VOTER003", "Mike", "Johnson", Voter, true, T0, T0),
    User("demo-user-4", "sarah@example.com", "VOTER004", "Sarah", "Wilson", Voter, true, T0, T0),
    User("demo-user-5", "voter@jaytec.com", "VOTER005", "Demo", "Voter", Voter, true, T0, T0)
  ]

  const DemoPositions: seq<Position> := [
    Position("demo-position-1", "demo-election-1", "President",
             Some("Student body president for the academic year"), 1, T0),
    Position("demo-position-2", "demo-election-1", "Vice President",
             Some("Student body vice president"), 1, T0)
  ]

  const DemoCandidates: seq<Candidate> := [
    Candidate("demo-candidate-1", "demo-position-1", "Alice Johnson",
              Some("Computer Science major with leadership experience"), None, 245, T0),
    Candidate("demo-candidate-2", "demo-position-1", "Bob Wilson",
              Some("Business Administration student and debate team captain"), None, 189, T0),
    Candidate("demo-candidate-3", "demo-position-1", "Carol Davis",
              Some("Environmental Science major and sustainability advocate"), None, 156, T0),
    Candidate("demo-candidate-4", "demo-position-2", "David Brown",
              Some("Engineering student with student government experience"), None, 198, T0),
    Candidate("demo-candidate-5", "demo-position-2", "Emma Garcia",
              Some("Psychology major and peer counselor"), None, 234, T0)
  ]

  datatype DemoTables = DemoTables(
    elections: seq<Election>, users: seq<User>, positions: seq<Position>, candidates: seq<Candidate>)

  /** `getDemoData()`: the four demo tables in one record. */
  function GetDemoData(): (d: DemoTables)
    ensures |d.elections| == 2 && |d.users| == 6 && |d.positions| == 2 && |d.candidates| == 5
  {
    DemoTables(DemoElections, DemoUsers, DemoPositions, DemoCandidates)
  }

  /** The demo tables form an ownership tree: each position names a demo election, each candidate a demo position. */
  lemma DemoOwnershipTree()
    ensures OwnershipTree(DemoElections, DemoPositions, DemoCandidates)
  {
    var es, ps, cs := DemoElections, DemoPositions, DemoCandidates;
    assert es[0].id == ps[0].election_id && es[0].id == ps[1].election_id;
    assert ps[0].id == cs[0].position_id && ps[0].id == cs[1].position_id && ps[0].id == cs[2].position_id;
    assert ps[1].id == cs[3].position_id && ps[1].id == cs[4].position_id;
  }

  /** Ids are distinct within every demo table, and every demo position allows one vote. */
  lemma DemoKeysDistinct()
    ensures KeysDistinct(DemoElections, (e: Election) => e.id)
    ensures KeysDistinct(DemoUsers, (u: User) => u.id)
    ensures KeysDistinct(DemoPositions, (p: Position) => p.id)
    ensures KeysDistinct(DemoCandidates, (c: Candidate) => c.id)
    ensures forall i :: 0 <= i < |DemoPositions| ==> DemoPositions[i].max_votes == 1
  {
  }

  /** demo-election-1 is active with published results; demo-election-2 is neither. */
  lemma DemoElectionFlags()
    ensures DemoElections[0].id == "demo-election-1" && DemoElections[0].is_active && DemoElections[0].results_published
    ensures DemoElections[1].id == "demo-election-2" && !DemoElections[1].is_active && !DemoElections[1].results_published
  {
  }

  predicate IsAdmin(u: User) {
    u.role == Admin
  }

  predicate IsUnverified(u: User) {
    !u.is_verified
  }

  /** Exactly one demo user is an administrator, and demo-user-2 is the only unverified one. */
  lemma DemoUserRoles()
    ensures |Filter(DemoUsers, IsAdmin)| == 1
    ensures Filter(DemoUsers, IsUnverified) == [DemoUsers[2]]
    ensures DemoUsers[2].id == "demo-user-2"
  {
    FilterOnly(DemoUsers, IsAdmin, 0);
    FilterOnly(DemoUsers, IsUnverified, 2);
  }

  /** Every demo election starts before it ends. */
  lemma DemoElectionDatesOrdered()
    ensures StringLess(DemoElections[0].start_date, DemoElections[0].end_date)
    ensures StringLess(DemoElections[1].start_date, DemoElections[1].end_date)
  {
    Election1DatesOrdered();
    Election2DatesOrdered();
  }
}
