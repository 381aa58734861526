/** The API routes over the database: `submitVote`, `createElection` and
    `closeElection` write to it, `getElectionResults` and `getVoteCounts` only
    read it. The database is one object whose two tables the routes read and
    reassign; each route is one method, called one request at a time. */
module Database {
  import opened Base
  import opened Text
  import opened Store
  import opened Tally

  class Db {
    var elections: seq<Election>
    var votes: seq<VoteRow>

    /** The table invariants: election ids are a key, no voter has two rows in
        the same election, and every vote row belongs to an existing election
        (`submitVote` inserts only after finding the election, and no route
        deletes one). */
    ghost predicate Valid()
      reads this
    {
      && UniqueIds(elections)
      && OneVotePerVoter(votes)
      && forall i :: 0 <= i < |votes| ==> Find(elections, votes[i].electionId).Some?
    }

    constructor ()
      ensures Valid() && elections == [] && votes == []
    {
      elections := [];
      votes := [];
    }

    /** `POST /api/submitVote` with body `{ id, votes, email }`. The gates run in
        this order: method, email present, no earlier vote by this voter in this
        election, election exists, election open. Only when all pass is one row
        inserted. `fault` stands for a failing database query. */
    method SubmitVote(reqMethod: string, id: string, ballot: Selection, email: Option<string>,
                      hash: string -> string, fault: bool) returns (r: Response<()>)
      requires Valid()
      modifies this
      ensures Valid()
      ensures elections == old(elections)
      ensures reqMethod != "POST" ==> r == Ended(405)
      ensures reqMethod == "POST" && !Given(email) ==> r == Rejected(400, "Email required")
      ensures reqMethod == "POST" && Given(email) && fault ==> r == Rejected(500, "Database error")
      ensures reqMethod == "POST" && Given(email) && !fault ==>
        var voter := VoterHash(hash, email.value);
        var election := Find(old(elections), id);
        r == if HasVoted(old(votes), id, voter) then Rejected(409, "You have already voted in this election")
             else if election.None? then Rejected(404, "Election not found")
             else if election.value.closed then Rejected(400, "This election has been closed")
             else Ok(())
      ensures r.Ok? ==> votes == old(votes) + [VoteRow(id, VoterHash(hash, email.value), ballot)]
      ensures r.Ok? ==> Ballots(votes, id) == Ballots(old(votes), id) + [ballot]
      ensures !r.Ok? ==> votes == old(votes)
      // a closed or unknown election never gains a vote
      ensures (Find(elections, id).None? || Find(elections, id).value.closed) ==> votes == old(votes)
    {
      if reqMethod != "POST" {
        return Ended(405);
      }
      if !Given(email) {
        return Rejected(400, "Email required");
      }
      var emailHash := hash(NormalizeEmail(email.value));
      if fault {
        return Rejected(500, "Database error");
      }
      if HasVoted(votes, id, emailHash) {
        return Rejected(409, "You have already voted in this election");
      }
      var election := Find(elections, id);
      if election.None? {
        return Rejected(404, "Election not found");
      }
      if election.value.closed {
        return Rejected(400, "This election has been closed");
      }
      var row := VoteRow(id, emailHash, ballot);
      AppendKeepsOneVotePerVoter(votes, row);
      BallotsAfterAppend(votes, row, id);
      votes := votes + [row];
      r := Ok(());
    }

    /** `POST /api/createElection` with body `{ id, title, positions, createdBy }`:
        inserts one open election; `createdBy || null` stores an absent or empty
        creator as NULL and `created_at` takes the database clock `now`. The
        insert fails, leaving the table as it was, when the store fails or the id
        is already taken. */
    method CreateElection(reqMethod: string, id: string, title: string, positions: seq<Position>,
                          createdBy: Option<string>, now: int, fault: bool) returns (r: Response<()>)
      requires Valid()
      modifies this
      ensures Valid()
      ensures votes == old(votes)
      ensures reqMethod != "POST" ==> r == Ended(405)
      ensures reqMethod == "POST" ==>
        r == if fault || Find(old(elections), id).Some? then Rejected(500, "db") else Ok(())
      ensures r.Ok? ==> elections == old(elections) + [Election(id, title, positions, false,
                                                            if Given(createdBy) then createdBy else None, now)]
      ensures !r.Ok? ==> elections == old(elections)
    {
      if reqMethod != "POST" {
        return Ended(405);
      }
      if fault || Find(elections, id).Some? {
        return Rejected(500, "db");
      }
      var creator := if Given(createdBy) then createdBy else None;
      var before := elections;
      elections := elections + [Election(id, title, positions, false, creator, now)];
      forall i | 0 <= i < |votes| ensures Find(elections, votes[i].electionId).Some? {
        var k :| 0 <= k < |before| && before[k].id == votes[i].electionId;
        assert elections[k] == before[k];
      }
      r := Ok(());
    }

    /** `POST /api/closeElection` with body `{ id }`: sets `closed` on the rows
        with that id (there is no existence check) and answers with the ballots
        stored for that id. */
    method CloseElection(reqMethod: string, id: string) returns (r: Response<seq<Selection>>)
      requires Valid()
      modifies this
      ensures Valid()
      ensures votes == old(votes)
      ensures reqMethod != "POST" ==> r == Ended(405) && elections == old(elections)
      ensures reqMethod == "POST" ==> elections == CloseRows(old(elections), id) && r == Ok(Ballots(votes, id))
      ensures reqMethod == "POST" && Find(old(elections), id).None? ==> r == Ok([])
    {
      if reqMethod != "POST" {
        return Ended(405);
      }
      CloseKeepsUniqueIds(elections, id);
      var before := elections;
      elections := CloseRows(elections, id);
      forall i | 0 <= i < |votes| ensures Find(elections, votes[i].electionId).Some? {
        FindAfterClose(before, id, votes[i].electionId);
      }
      if Find(before, id).None? {
        NoBallotsForUnknown(before, votes, id);
      }
      r := Ok(Ballots(votes, id));
    }

    /** `GET /api/getElectionResults?id=…`: the election's positions and ballots,
        counted by the strict fold and flattened into the report. A ballot
        naming a position the election does not have makes the fold throw,
        which the `catch` turns into 500. `electionFault` and `votesFault`
        stand for a failure of the first and of the second query. */
    method ElectionResults(id: Option<string>, electionFault: bool, votesFault: bool)
      returns (r: Response<seq<ReportRow>>)
      ensures !Given(id) ==> r == Rejected(400, "Election ID required")
      ensures Given(id) && electionFault ==> r == Rejected(500, "Database error")
      ensures Given(id) && !electionFault && Find(elections, id.value).None? ==>
        r == Rejected(404, "Election not found")
      ensures Given(id) && !electionFault && Find(elections, id.value).Some? ==>
        var positions := Find(elections, id.value).value.positions;
        var ballots := Ballots(votes, id.value);
        r == if votesFault || HasStray(|positions|, ballots) then Rejected(500, "Database error")
             else Ok(Report(positions, ballots))
    {
      if !Given(id) {
        return Rejected(400, "Election ID required");
      }
      if electionFault {
        return Rejected(500, "Database error");
      }
      var election := Find(elections, id.value);
      if election.None? {
        return Rejected(404, "Election not found");
      }
      if votesFault {
        return Rejected(500, "Database error");
      }
      var positions := election.value.positions;
      var ballots := Ballots(votes, id.value);
      var counts := CountStrict(|positions|, ballots);
      if counts.None? {
        return Rejected(500, "Database error");
      }
      var rows := FormatResults(positions, counts.value, ballots, |ballots|);
      r := Ok(rows);
    }

    /** `GET /api/getVoteCounts?id=…`: the nested counts of the lenient fold and
        the number of ballot rows. */
    method VoteCountsOf(id: Option<string>, electionFault: bool, votesFault: bool)
      returns (r: Response<VoteCounts>)
      ensures !Given(id) ==> r == Rejected(400, "Election ID required")
      ensures Given(id) && electionFault ==> r == Rejected(500, "Database error")
      ensures Given(id) && !electionFault && Find(elections, id.value).None? ==>
        r == Rejected(404, "Election not found")
      ensures Given(id) && !electionFault && Find(elections, id.value).Some? && votesFault ==>
        r == Rejected(500, "Database error")
      ensures Given(id) && !electionFault && Find(elections, id.value).Some? && !votesFault ==>
        var n := |Find(elections, id.value).value.positions|;
        var ballots := Ballots(votes, id.value);
        && r.Ok?
        && r.body.totalVotes == |ballots|
        && (forall p :: p in r.body.voteCounts <==> 0 <= p < n || p in Mentioned(ballots))
        && (forall p, c :: Lookup(r.body.voteCounts, p, c) == Count(ballots, p, c))
        && OnlyVotedKeys(r.body.voteCounts)
        && Grand(r.body.voteCounts) == |Entries(ballots)|
    {
      if !Given(id) {
        return Rejected(400, "Election ID required");
      }
      if electionFault {
        return Rejected(500, "Database error");
      }
      var election := Find(elections, id.value);
      if election.None? {
        return Rejected(404, "Election not found");
      }
      if votesFault {
        return Rejected(500, "Database error");
      }
      var ballots := Ballots(votes, id.value);
      var counts := CountLenient(|election.value.positions|, ballots);
      r := Ok(VoteCounts(counts, |ballots|));
    }
  }

  /** A first vote in a freshly created election goes through. */
  method VoteInNewElection(hash: string -> string, id: string, positions: seq<Position>,
                           email: string, ballot: Selection)
    returns (db: Db, first: Response<()>)
    requires email != []
    ensures fresh(db) && db.Valid()
    ensures first == Ok(())
    ensures db.elections == [Election(id, "Council", positions, false, None, 0)]
    ensures db.votes == [VoteRow(id, VoterHash(hash, email), ballot)]
  {
    db := new Db();
    var created := db.CreateElection("POST", id, "Council", positions, None, 0, false);
    var election := Election(id, "Council", positions, false, None, 0);
    assert db.elections == [election] && db.votes == [];
    assert Find(db.elections, id) == Some(election);
    assert !HasVoted(db.votes, id, VoterHash(hash, email));
    first := db.SubmitVote("POST", id, ballot, Some(email), hash, false);
  }

  /** A voter who comes back with the same address in another letter case and
      with spaces around it is turned away with 409, even after the election has
      been closed: the duplicate check runs before the closed check. */
  method RepeatVoterTurnedAway(hash: string -> string, id: string, positions: seq<Position>,
                               email: string, variant: string, ws1: string, ws2: string,
                               ballot: Selection, another: Selection)
    returns (first: Response<()>, second: Response<()>)
    requires email != [] && SameIgnoringCase(variant, email)
    requires AllWhitespace(ws1) && AllWhitespace(ws2)
    ensures first == Ok(())
    ensures second == Rejected(409, "You have already voted in this election")
  {
    var db;
    db, first := VoteInNewElection(hash, id, positions, email, ballot);
    var closed := db.CloseElection("POST", id);
    var address := ws1 + variant + ws2;
    assert |address| >= |email| > 0;
    SameVoterIgnoringCaseAndSpaces(hash, variant, email, ws1, ws2);
    assert db.votes[0] == VoteRow(id, VoterHash(hash, address), ballot);
    second := db.SubmitVote("POST", id, another, Some(address), hash, false);
  }
}
