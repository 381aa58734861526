/** `GET /api/getMyElections?email=…`: the elections a host created, each with
    its number of votes, newest first. The query is a filter, a left join
    counted per election and an ordering, and the handler maps each row to a
    summary; nothing is written. */
module Listing {
  import opened Base
  import opened Store

  /** One entry of the answer: exactly `id`, `title`, `closed`, `created_at`
      and `voteCount`. */
  datatype Summary = Summary(id: string, title: string, closed: bool, createdAt: int, voteCount: nat)

  /** An election row of the answer, with `COUNT(v.id)` over the rows of the
      left join: the number of vote rows of that election, 0 when it has none. */
  function SummaryOf(e: Election, votes: seq<VoteRow>): (r: Summary)
    ensures r.id == e.id && r.title == e.title && r.closed == e.closed && r.createdAt == e.createdAt
    ensures r.voteCount == |RowsFor(votes, e.id)|
    ensures (forall row :: row in votes ==> row.electionId != e.id) ==> r.voteCount == 0
  {
    var rows := RowsFor(votes, e.id);
    assert rows == [] || rows[0] in rows;
    Summary(e.id, e.title, e.closed, e.createdAt, |rows|)
  }

  /** `WHERE e.created_by = $1`, in table order. */
  function Hosted(elections: seq<Election>, email: string): (r: seq<Election>)
    ensures |r| <= |elections|
    ensures forall e :: e in r <==> e in elections && e.createdBy == Some(email)
  {
    if elections == [] then []
    else (if elections[0].createdBy == Some(email) then [elections[0]] else [])
         + Hosted(elections[1..], email)
  }

  /** Each election the host created is kept exactly as often as it is
      stored, and no other election at all. */
  lemma {:induction false} HostedMultiplicity(elections: seq<Election>, email: string, e: Election)
    ensures multiset(Hosted(elections, email))[e] ==
      if e.createdBy == Some(email) then multiset(elections)[e] else 0
  {
    if elections != [] {
      assert elections == [elections[0]] + elections[1..];
      HostedMultiplicity(elections[1..], email, e);
    }
  }

  /** The summaries of a list of elections, in the same order. */
  function Summaries(elections: seq<Election>, votes: seq<VoteRow>): (r: seq<Summary>)
    ensures |r| == |elections|
    ensures forall i :: 0 <= i < |r| ==> r[i] == SummaryOf(elections[i], votes)
  {
    seq(|elections|, i requires 0 <= i < |elections| => SummaryOf(elections[i], votes))
  }

  /** `ORDER BY created_at DESC`: no entry is older than one after it. */
  predicate NewestFirst(s: seq<Summary>)
  {
    forall i, j :: 0 <= i < j < |s| ==> s[i].createdAt >= s[j].createdAt
  }

  /** Puts `x` before the first entry that is not newer than it. */
  function Insert(x: Summary, s: seq<Summary>): (r: seq<Summary>)
    ensures multiset(r) == multiset(s) + multiset{x}
  {
    if s == [] || x.createdAt >= s[0].createdAt then
      [x] + s
    else
      assert s == [s[0]] + s[1..];
      [s[0]] + Insert(x, s[1..])
  }

  /** Inserting keeps every entry no newer than a bound both sides respect. */
  lemma InsertBounded(x: Summary, s: seq<Summary>, bound: int)
    requires x.createdAt <= bound
    requires forall y :: y in s ==> y.createdAt <= bound
    ensures forall y :: y in Insert(x, s) ==> y.createdAt <= bound
  {
    forall y | y in Insert(x, s) ensures y.createdAt <= bound {
      assert y in multiset(Insert(x, s));
      if y != x {
        assert y in multiset(s);
      }
    }
  }

  /** An entry no older than anything after it may go in front. */
  lemma ConsNewestFirst(h: Summary, rest: seq<Summary>)
    requires NewestFirst(rest)
    requires forall y :: y in rest ==> y.createdAt <= h.createdAt
    ensures NewestFirst([h] + rest)
  {
    var r := [h] + rest;
    forall i, j | 0 <= i < j < |r| ensures r[i].createdAt >= r[j].createdAt {
      assert r[j] == rest[j - 1];
      if i > 0 {
        assert r[i] == rest[i - 1];
      } else {
        assert rest[j - 1] in rest;
      }
    }
  }

  lemma {:induction false} InsertNewestFirst(x: Summary, s: seq<Summary>)
    requires NewestFirst(s)
    ensures NewestFirst(Insert(x, s))
  {
    if s == [] || x.createdAt >= s[0].createdAt {
      assert forall y :: y in s ==> y.createdAt <= x.createdAt by {
        forall y | y in s ensures y.createdAt <= x.createdAt {
          var k :| 0 <= k < |s| && s[k] == y;
          assert s[0].createdAt >= s[k].createdAt;
        }
      }
      ConsNewestFirst(x, s);
    } else {
      var rest := Insert(x, s[1..]);
      assert Insert(x, s) == [s[0]] + rest;
      InsertNewestFirst(x, s[1..]);
      assert forall y :: y in s[1..] ==> y.createdAt <= s[0].createdAt;
      InsertBounded(x, s[1..], s[0].createdAt);
      ConsNewestFirst(s[0], rest);
    }
  }

  /** Orders the summaries newest first, by insertion. */
  function SortNewestFirst(s: seq<Summary>): (r: seq<Summary>)
    ensures multiset(r) == multiset(s)
  {
    if s == [] then []
    else
      assert s == [s[0]] + s[1..];
      Insert(s[0], SortNewestFirst(s[1..]))
  }

  lemma {:induction false} SortIsNewestFirst(s: seq<Summary>)
    ensures NewestFirst(SortNewestFirst(s))
  {
    if s != [] {
      SortIsNewestFirst(s[1..]);
      InsertNewestFirst(s[0], SortNewestFirst(s[1..]));
    }
  }

  /** The whole handler. `fault` stands for a failing query. */
  function MyElections(elections: seq<Election>, votes: seq<VoteRow>, email: Option<string>, fault: bool)
    : (r: Response<seq<Summary>>)
    ensures !Given(email) ==> r == Rejected(400, "Email required")
    ensures Given(email) && fault ==> r == Rejected(500, "Database error")
    ensures Given(email) && !fault ==> r.Ok?
  {
    if !Given(email) then Rejected(400, "Email required")
    else if fault then Rejected(500, "Database error")
    else Ok(SortNewestFirst(Summaries(Hosted(elections, email.value), votes)))
  }

  /** The answer is newest first, and it holds one entry for each election the
      host created: an election's summary is in it exactly when its creator is
      the host, and there are as many entries as such elections. */
  lemma MyElectionsAnswer(elections: seq<Election>, votes: seq<VoteRow>, email: string)
    requires email != ""
    ensures var r := MyElections(elections, votes, Some(email), false);
      && r.Ok?
      && NewestFirst(r.body)
      && |r.body| == |Hosted(elections, email)|
      && multiset(r.body) == multiset(Summaries(Hosted(elections, email), votes))
      && forall e :: e in elections ==> (e.createdBy == Some(email) ==> SummaryOf(e, votes) in r.body)
  {
    var hosted := Hosted(elections, email);
    var all := Summaries(hosted, votes);
    var r := SortNewestFirst(all);
    SortIsNewestFirst(all);
    assert |r| == |multiset(r)| == |multiset(all)| == |all|;
    forall e | e in elections && e.createdBy == Some(email)
      ensures SummaryOf(e, votes) in r
    {
      var i :| 0 <= i < |hosted| && hosted[i] == e;
      assert all[i] == SummaryOf(e, votes);
      assert SummaryOf(e, votes) in multiset(all);
    }
  }

  /** Every entry of the answer is the summary of an election the host
      created. */
  lemma MyElectionsOnlyHosted(elections: seq<Election>, votes: seq<VoteRow>, email: string, s: Summary)
    requires email != ""
    requires var r := MyElections(elections, votes, Some(email), false); r.Ok? && s in r.body
    ensures exists e :: e in elections && e.createdBy == Some(email) && s == SummaryOf(e, votes)
  {
    var hosted := Hosted(elections, email);
    var all := Summaries(hosted, votes);
    assert s in multiset(SortNewestFirst(all));
    assert s in all;
    var i :| 0 <= i < |all| && all[i] == s;
    assert hosted[i] in hosted;
  }
}
