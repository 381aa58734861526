/** The two database tables the API routes share, as values, and the queries
    the routes run against them.

    - `elections(id, title, data, closed, created_by, created_at)`: one
      `Election` per row, in table order; `data` holds the positions.
    - `votes(election_id, email_hash, vote_json)`: one `VoteRow` per row, in
      insertion order; `vote_json` is the voter's JSON object from position
      index to candidate index, kept as the list of its entries. */
module Store {
  import opened Base
  import opened Text

  datatype Position = Position(name: string, candidates: seq<string>)

  datatype Election = Election(
    id: string,
    title: string,
    positions: seq<Position>,
    closed: bool,
    createdBy: Option<string>,
    createdAt: int)

  /** One entry `[posIdx, candidateIdx]` of a ballot object. */
  datatype Choice = Choice(position: int, candidate: int)

  /** A ballot: the entries of its JSON object, in `Object.entries` order. */
  type Selection = seq<Choice>

  datatype VoteRow = VoteRow(electionId: string, emailHash: string, selection: Selection)

  /** The election ids are a key of the elections table. */
  predicate UniqueIds(elections: seq<Election>)
  {
    forall i, j :: 0 <= i < j < |elections| ==> elections[i].id != elections[j].id
  }

  /** `SELECT ... FROM elections WHERE id = $1`, taking `rows[0]`. */
  function Find(elections: seq<Election>, id: string): (r: Option<Election>)
    ensures r.None? <==> forall i :: 0 <= i < |elections| ==> elections[i].id != id
    ensures r.Some? ==> r.value in elections && r.value.id == id
  {
    if elections == [] then None
    else if elections[0].id == id then Some(elections[0])
    else Find(elections[1..], id)
  }

  /** In a table with unique ids, the row `Find` returns is the only row with that id. */
  lemma FindUnique(elections: seq<Election>, i: nat)
    requires UniqueIds(elections) && i < |elections|
    ensures Find(elections, elections[i].id) == Some(elections[i])
  {
    if i > 0 {
      assert elections[0].id != elections[i].id;
      assert elections[1..][i - 1] == elections[i];
      FindUnique(elections[1..], i - 1);
    }
  }

  /** `... FROM votes WHERE election_id = $1`: the rows of one election. The
      query has no `ORDER BY`; the model returns them in table order. */
  function RowsFor(votes: seq<VoteRow>, id: string): (r: seq<VoteRow>)
    ensures |r| <= |votes|
    ensures forall row :: row in r ==> row in votes && row.electionId == id
    ensures forall row :: row in votes && row.electionId == id ==> row in r
  {
    if votes == [] then []
    else (if votes[0].electionId == id then [votes[0]] else []) + RowsFor(votes[1..], id)
  }

  /** Each row of the election is selected exactly as often as it is stored,
      and no other row at all. */
  lemma {:induction false} RowsForMultiplicity(votes: seq<VoteRow>, id: string, row: VoteRow)
    ensures multiset(RowsFor(votes, id))[row] == if row.electionId == id then multiset(votes)[row] else 0
  {
    if votes != [] {
      assert votes == [votes[0]] + votes[1..];
      RowsForMultiplicity(votes[1..], id, row);
    }
  }

  /** Selecting rows distributes over the concatenation of tables. */
  lemma {:induction false} RowsForConcat(a: seq<VoteRow>, b: seq<VoteRow>, id: string)
    ensures RowsFor(a + b, id) == RowsFor(a, id) + RowsFor(b, id)
  {
    if a == [] {
      assert a + b == b;
    } else {
      assert (a + b)[1..] == a[1..] + b;
      RowsForConcat(a[1..], b, id);
    }
  }

  /** `SELECT vote_json FROM votes WHERE election_id = $1`. */
  function Ballots(votes: seq<VoteRow>, id: string): (r: seq<Selection>)
    ensures |r| == |RowsFor(votes, id)|
    ensures forall i :: 0 <= i < |r| ==> r[i] == RowsFor(votes, id)[i].selection
  {
    var rows := RowsFor(votes, id);
    seq(|rows|, i requires 0 <= i < |rows| => rows[i].selection)
  }

  /** Appending a row adds its ballot to the ballots of its own election and to
      no other. */
  lemma BallotsAfterAppend(votes: seq<VoteRow>, row: VoteRow, id: string)
    ensures Ballots(votes + [row], id) ==
      Ballots(votes, id) + (if row.electionId == id then [row.selection] else [])
  {
    RowsForConcat(votes, [row], id);
    var mine := if row.electionId == id then [row] else [];
    assert RowsFor([row], id) == mine by {
      assert [row][1..] == [];
    }
    SelectionsAppend(Ballots(votes + [row], id), RowsFor(votes, id), mine,
                     Ballots(votes, id), if row.electionId == id then [row.selection] else []);
  }

  /** Reading the ballots of two runs of rows reads those of each, one after the other. */
  lemma SelectionsAppend(l: seq<Selection>, a: seq<VoteRow>, b: seq<VoteRow>, la: seq<Selection>, lb: seq<Selection>)
    requires |l| == |a + b| && forall i :: 0 <= i < |l| ==> l[i] == (a + b)[i].selection
    requires |la| == |a| && forall i :: 0 <= i < |la| ==> la[i] == a[i].selection
    requires |lb| == |b| && forall i :: 0 <= i < |lb| ==> lb[i] == b[i].selection
    ensures l == la + lb
  {
  }

  /** When every vote row belongs to an existing election, an id that names no
      election has no ballots. */
  lemma NoBallotsForUnknown(elections: seq<Election>, votes: seq<VoteRow>, id: string)
    requires forall i :: 0 <= i < |votes| ==> Find(elections, votes[i].electionId).Some?
    requires Find(elections, id).None?
    ensures Ballots(votes, id) == []
  {
    forall row | row in votes ensures row.electionId != id {
      var i :| 0 <= i < |votes| && votes[i] == row;
    }
    NoRowsFor(votes, id);
  }

  lemma {:induction false} NoRowsFor(votes: seq<VoteRow>, id: string)
    requires forall row :: row in votes ==> row.electionId != id
    ensures RowsFor(votes, id) == []
  {
    if votes != [] {
      assert votes[0] in votes;
      assert forall row :: row in votes[1..] ==> row in votes;
      NoRowsFor(votes[1..], id);
    }
  }

  /** `SELECT id FROM votes WHERE election_id = $1 AND email_hash = $2` finds a row. */
  predicate HasVoted(votes: seq<VoteRow>, id: string, emailHash: string)
  {
    exists i :: 0 <= i < |votes| && votes[i].electionId == id && votes[i].emailHash == emailHash
  }

  /** No two vote rows share `(election_id, email_hash)`. */
  predicate OneVotePerVoter(votes: seq<VoteRow>)
  {
    forall i, j :: 0 <= i < j < |votes| ==>
      votes[i].electionId != votes[j].electionId || votes[i].emailHash != votes[j].emailHash
  }

  /** Appending a row for a voter who has no row in that election keeps one vote per voter. */
  lemma AppendKeepsOneVotePerVoter(votes: seq<VoteRow>, row: VoteRow)
    requires OneVotePerVoter(votes) && !HasVoted(votes, row.electionId, row.emailHash)
    ensures OneVotePerVoter(votes + [row])
  {
    var v := votes + [row];
    forall i, j | 0 <= i < j < |v|
      ensures v[i].electionId != v[j].electionId || v[i].emailHash != v[j].emailHash
    {
      if j == |votes| {
        assert v[i] == votes[i];
      }
    }
  }

  /** The string that is hashed for a voter: `email.toLowerCase().trim()`. */
  function NormalizeEmail(email: string): (r: string)
    ensures Trimmed(r)
    ensures forall i :: 0 <= i < |r| ==> !('A' <= r[i] <= 'Z')
  {
    var lower := Lower(email);
    TrimIsTrimmed(lower);
    TrimKeepsMiddle(lower);
    assert forall i :: 0 <= i < |Trim(lower)| ==> Trim(lower)[i] == lower[Leading(lower) + i];
    Trim(lower)
  }

  /** `email_hash`: the digest (SHA-256 in the app, any deterministic function
      here) of the normalised email. */
  function VoterHash(hash: string -> string, email: string): string
  {
    hash(NormalizeEmail(email))
  }

  /** Two emails that differ only in letter case and in surrounding whitespace
      get the same hash, so they are the same voter. */
  lemma SameVoterIgnoringCaseAndSpaces(hash: string -> string, a: string, b: string, ws1: string, ws2: string)
    requires SameIgnoringCase(a, b) && AllWhitespace(ws1) && AllWhitespace(ws2)
    ensures VoterHash(hash, ws1 + a + ws2) == VoterHash(hash, b)
  {
    LowerConcat(ws1 + a, ws2);
    LowerConcat(ws1, a);
    LowerKeepsWhitespace(ws1);
    LowerKeepsWhitespace(ws2);
    LowerIgnoresCase(a, b);
    assert Lower(ws1 + a + ws2) == ws1 + Lower(b) + ws2;
    TrimIgnoresSurroundingWhitespace(ws1, Lower(b), ws2);
  }

  /** `UPDATE elections SET closed = true WHERE id = $1`, row by row. */
  function CloseRows(elections: seq<Election>, id: string): (r: seq<Election>)
    ensures |r| == |elections|
    ensures forall i :: 0 <= i < |r| ==>
      r[i] == if elections[i].id == id then elections[i].(closed := true) else elections[i]
  {
    if elections == [] then []
    else [if elections[0].id == id then elections[0].(closed := true) else elections[0]]
         + CloseRows(elections[1..], id)
  }

  /** Closing changes no id, so the ids stay unique. */
  lemma CloseKeepsUniqueIds(elections: seq<Election>, id: string)
    requires UniqueIds(elections)
    ensures UniqueIds(CloseRows(elections, id))
  {
  }

  /** After closing, looking the election up finds it closed (if it exists at
      all), and every other lookup is as before. */
  lemma {:induction false} FindAfterClose(elections: seq<Election>, id: string, other: string)
    ensures Find(CloseRows(elections, id), other) ==
      match Find(elections, other)
      case None => None
      case Some(e) => Some(if other == id then e.(closed := true) else e)
  {
    if elections != [] {
      assert CloseRows(elections, id)[1..] == CloseRows(elections[1..], id);
      FindAfterClose(elections[1..], id, other);
    }
  }

  /** Closing twice leaves the table as closing once. */
  lemma CloseIdempotent(elections: seq<Election>, id: string)
    ensures CloseRows(CloseRows(elections, id), id) == CloseRows(elections, id)
  {
  }
}
