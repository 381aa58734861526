/** The election form of the host page: a title and a list of positions, each
    with its candidate names. The editing handlers change the form in place;
    `handleCreate` validates it and, when it passes, sends the positions with
    their blank candidates dropped. */
module HostForm {
  import opened Base
  import opened Text
  import opened Store

  // ---------------------------------------------------------------------------
  // The pure parts

  /** `candidates.filter(c => c.trim())`: the candidates that are not blank, in
      their original order. */
  function NonBlank(candidates: seq<string>): (r: seq<string>)
    ensures |r| <= |candidates|
  {
    if candidates == [] then []
    else
      var last := candidates[|candidates| - 1];
      assert candidates == candidates[..|candidates| - 1] + [last];
      NonBlank(candidates[..|candidates| - 1]) + (if IsBlank(last) then [] else [last])
  }

  /** The filter keeps exactly the candidates that are not blank. */
  lemma {:induction false} NonBlankMembers(candidates: seq<string>, c: string)
    ensures c in NonBlank(candidates) <==> c in candidates && !IsBlank(c)
  {
    if candidates != [] {
      var n := |candidates| - 1;
      NonBlankMembers(candidates[..n], c);
      assert candidates == candidates[..n] + [candidates[n]];
    }
  }

  lemma {:induction false} NonBlankConcat(a: seq<string>, b: seq<string>)
    ensures NonBlank(a + b) == NonBlank(a) + NonBlank(b)
  {
    if b == [] {
      assert a + b == a;
    } else {
      var n := |b| - 1;
      assert (a + b)[..|a + b| - 1] == a + b[..n];
      NonBlankConcat(a, b[..n]);
    }
  }

  /** Filtering twice drops nothing more. */
  lemma {:induction false} NonBlankIdempotent(candidates: seq<string>)
    ensures NonBlank(NonBlank(candidates)) == NonBlank(candidates)
  {
    if candidates != [] {
      var n := |candidates| - 1;
      var last := candidates[n];
      NonBlankIdempotent(candidates[..n]);
      NonBlankConcat(NonBlank(candidates[..n]), if IsBlank(last) then [] else [last]);
      if !IsBlank(last) {
        assert [last][..0] == [];
      }
    }
  }

  /** A list without blank candidates passes the filter unchanged. */
  lemma {:induction false} NonBlankKeepsNamed(candidates: seq<string>)
    requires forall i :: 0 <= i < |candidates| ==> !IsBlank(candidates[i])
    ensures NonBlank(candidates) == candidates
  {
    if candidates != [] {
      var n := |candidates| - 1;
      NonBlankKeepsNamed(candidates[..n]);
      assert candidates == candidates[..n] + [candidates[n]];
    }
  }

  /** What one position needs: a name that is not blank and at least one
      candidate that is not blank. */
  predicate PositionOk(p: Position)
  {
    !IsBlank(p.name) && NonBlank(p.candidates) != []
  }

  /** The positions as sent: `{ ...p, candidates: p.candidates.filter(...) }`. */
  function Payload(positions: seq<Position>): (r: seq<Position>)
    ensures |r| == |positions|
    ensures forall i :: 0 <= i < |r| ==>
      r[i].name == positions[i].name && r[i].candidates == NonBlank(positions[i].candidates)
  {
    seq(|positions|, i requires 0 <= i < |positions| => Position(positions[i].name, NonBlank(positions[i].candidates)))
  }

  /** A sent election is well formed: every position has a name that is not
      blank and a non-empty list of candidates, none of them blank. */
  lemma PayloadOfValidated(positions: seq<Position>)
    requires forall i :: 0 <= i < |positions| ==> PositionOk(positions[i])
    ensures forall i :: 0 <= i < |Payload(positions)| ==>
      var p := Payload(positions)[i];
      !IsBlank(p.name) && p.candidates != [] && forall c :: c in p.candidates ==> !IsBlank(c)
  {
    forall i, c | 0 <= i < |positions| && c in Payload(positions)[i].candidates
      ensures !IsBlank(c)
    {
      NonBlankMembers(positions[i].candidates, c);
    }
  }

  /** `positions.filter((_, i) => i !== k)`. */
  function Without<T>(s: seq<T>, k: nat): (r: seq<T>)
  {
    if s == [] then []
    else Without(s[..|s| - 1], k) + (if |s| - 1 == k then [] else [s[|s| - 1]])
  }

  /** Dropping by index removes exactly the entry at `k` and keeps the order of
      the rest; an index past the end removes nothing. */
  lemma {:induction false} WithoutIsSplice<T>(s: seq<T>, k: nat)
    ensures k < |s| ==> Without(s, k) == s[..k] + s[k + 1..]
    ensures k >= |s| ==> Without(s, k) == s
  {
    if s != [] {
      var n := |s| - 1;
      WithoutIsSplice(s[..n], k);
      if k < n {
        assert s[..n][..k] == s[..k];
        assert s[..n][k + 1..] + [s[n]] == s[k + 1..];
      } else if k == n {
        assert s[..n][..k] == s[..k];
        assert s[k + 1..] == [];
      } else {
        assert s == s[..n] + [s[n]];
      }
    }
  }

  /** The outcome of `handleCreate`'s checks: the alert it shows, or none. */
  datatype Verdict = Accepted | BlankTitle | UnnamedPosition(index: nat) | NoCandidates(index: nat)

  /** The JSON body `handleCreate` posts to `/api/createElection`: the fresh
      `uuidv4()` id, the title as typed (untrimmed), the filtered positions, and
      `user?.phoneNumber` as the creator. */
  datatype CreateBody = CreateBody(id: string, title: string, positions: seq<Position>, createdBy: Option<string>)

  // ---------------------------------------------------------------------------
  // The form

  class Form {
    var title: string
    var positions: seq<Position>

    /** What the editing buttons keep: at least one position, and at least one
        candidate (possibly blank) in each. */
    ghost predicate Valid()
      reads this
    {
      positions != [] && forall i :: 0 <= i < |positions| ==> positions[i].candidates != []
    }

    /** The initial state: an empty title and one unnamed position with one
        empty candidate. */
    constructor ()
      ensures Valid()
      ensures title == "" && positions == [Position("", [""])]
    {
      title := "";
      positions := [Position("", [""])];
    }

    /** `addPosition`: one more unnamed position with one empty candidate. */
    method AddPosition()
      requires Valid()
      modifies this
      ensures Valid()
      ensures title == old(title)
      ensures positions == old(positions) + [Position("", [""])]
    {
      positions := positions + [Position("", [""])];
    }

    /** `addCandidate(posIdx)`: one more empty candidate at the end of that
        position's list; no other position changes. */
    method AddCandidate(posIdx: nat)
      requires Valid() && posIdx < |positions|
      modifies this
      ensures Valid()
      ensures title == old(title)
      ensures |positions| == |old(positions)|
      ensures positions[posIdx] == old(positions[posIdx]).(candidates := old(positions[posIdx].candidates) + [""])
      ensures forall i :: 0 <= i < |positions| && i != posIdx ==> positions[i] == old(positions[i])
    {
      var p := positions[posIdx];
      positions := positions[posIdx := p.(candidates := p.candidates + [""])];
    }

    /** The remove button of candidate `ci` of position `pi`, shown only while
        that position has more than one candidate: `splice(ci, 1)`. */
    method RemoveCandidate(pi: nat, ci: nat)
      requires Valid() && pi < |positions| && ci < |positions[pi].candidates|
      modifies this
      ensures Valid()
      ensures title == old(title)
      ensures |positions| == |old(positions)|
      ensures |old(positions[pi].candidates)| > 1 ==>
        positions[pi] == old(positions[pi]).(candidates := old(positions[pi].candidates[..ci] + positions[pi].candidates[ci + 1..]))
      ensures |old(positions[pi].candidates)| <= 1 ==> positions == old(positions)
      ensures forall i :: 0 <= i < |positions| && i != pi ==> positions[i] == old(positions[i])
    {
      var p := positions[pi];
      if |p.candidates| > 1 {
        positions := positions[pi := p.(candidates := p.candidates[..ci] + p.candidates[ci + 1..])];
      }
    }

    /** The remove button of position `pi`, shown only while there is more than
        one position: the others stay, in their order. */
    method RemovePosition(pi: nat)
      requires Valid() && pi < |positions|
      modifies this
      ensures Valid()
      ensures title == old(title)
      ensures |old(positions)| > 1 ==> positions == old(positions[..pi] + positions[pi + 1..])
      ensures |old(positions)| <= 1 ==> positions == old(positions)
    {
      if |positions| > 1 {
        WithoutIsSplice(positions, pi);
        positions := Without(positions, pi);
      }
    }

    /** The title input. */
    method SetTitle(value: string)
      modifies this
      ensures title == value && positions == old(positions)
    {
      title := value;
    }

    /** The name input of position `pi`. */
    method SetPositionName(pi: nat, value: string)
      requires Valid() && pi < |positions|
      modifies this
      ensures Valid()
      ensures title == old(title)
      ensures positions == old(positions[pi := positions[pi].(name := value)])
    {
      positions := positions[pi := positions[pi].(name := value)];
    }

    /** The input of candidate `ci` of position `pi`. */
    method SetCandidate(pi: nat, ci: nat, value: string)
      requires Valid() && pi < |positions| && ci < |positions[pi].candidates|
      modifies this
      ensures Valid()
      ensures title == old(title)
      ensures positions == old(positions[pi := positions[pi].(candidates := positions[pi].candidates[ci := value])])
    {
      var p := positions[pi];
      positions := positions[pi := p.(candidates := p.candidates[ci := value])];
    }

    /** `handleCreate`: the checks, then the request body it would send. Only a
        form that passes every check is sent, with each position's blank
        candidates dropped. `id` stands for `uuidv4()` and `phone` for the
        signed-in user's phone number. */
    method HandleCreate(id: string, phone: Option<string>) returns (v: Verdict, sent: Option<CreateBody>)
      ensures v == Judge(title, positions)
      ensures sent.Some? <==> v == Accepted
      ensures sent.Some? ==> sent.value.id == id && sent.value.title == title
      ensures sent.Some? ==> sent.value.positions == Payload(positions)
      ensures sent.Some? ==> sent.value.createdBy == phone
    {
      v := Check(title, positions);
      sent := if v == Accepted then Some(CreateBody(id, title, Payload(positions), phone)) else None;
    }
  }

  /** The verdict on the positions from index `i` on: the first one with a
      blank name or without a candidate that is not blank, if any. */
  function FirstProblem(positions: seq<Position>, i: nat): Verdict
    requires i <= |positions|
    decreases |positions| - i
  {
    if i == |positions| then Accepted
    else if IsBlank(positions[i].name) then UnnamedPosition(i)
    else if NonBlank(positions[i].candidates) == [] then NoCandidates(i)
    else FirstProblem(positions, i + 1)
  }

  /** The verdict of `handleCreate`'s checks on a form. */
  function Judge(title: string, positions: seq<Position>): Verdict
  {
    if IsBlank(title) then BlankTitle else FirstProblem(positions, 0)
  }

  lemma {:induction false} FirstProblemMeaning(positions: seq<Position>, i: nat)
    requires i <= |positions|
    ensures var v := FirstProblem(positions, i);
      && (v == Accepted <==> forall k :: i <= k < |positions| ==> PositionOk(positions[k]))
      && (v.UnnamedPosition? ==>
            && i <= v.index < |positions| && IsBlank(positions[v.index].name)
            && forall k :: i <= k < v.index ==> PositionOk(positions[k]))
      && (v.NoCandidates? ==>
            && i <= v.index < |positions| && !IsBlank(positions[v.index].name)
            && NonBlank(positions[v.index].candidates) == []
            && forall k :: i <= k < v.index ==> PositionOk(positions[k]))
      && !v.BlankTitle?
    decreases |positions| - i
  {
    if i < |positions| && PositionOk(positions[i]) {
      FirstProblemMeaning(positions, i + 1);
    }
  }

  /** The form is refused for a blank title before anything else; otherwise it
      passes exactly when every position is complete, and when it does not, the
      alert names the first incomplete position in index order, for a blank
      name if its name is blank and for missing candidates otherwise. */
  lemma JudgeMeaning(title: string, positions: seq<Position>)
    ensures IsBlank(title) ==> Judge(title, positions) == BlankTitle
    ensures !IsBlank(title) ==>
      (Judge(title, positions) == Accepted <==> forall i :: 0 <= i < |positions| ==> PositionOk(positions[i]))
    ensures var v := Judge(title, positions);
      v.UnnamedPosition? ==>
        && v.index < |positions| && IsBlank(positions[v.index].name)
        && forall k :: 0 <= k < v.index ==> PositionOk(positions[k])
    ensures var v := Judge(title, positions);
      v.NoCandidates? ==>
        && v.index < |positions| && !IsBlank(positions[v.index].name)
        && NonBlank(positions[v.index].candidates) == []
        && forall k :: 0 <= k < v.index ==> PositionOk(positions[k])
  {
    FirstProblemMeaning(positions, 0);
  }

  /** The checks of `handleCreate` (lines 40-56), in their order: the title,
      then each position's name and candidates. */
  method Check(title: string, positions: seq<Position>) returns (v: Verdict)
    ensures v == Judge(title, positions)
  {
    if IsBlank(title) {
      return BlankTitle;
    }
    var i := 0;
    while i < |positions|
      invariant 0 <= i <= |positions|
      invariant FirstProblem(positions, i) == FirstProblem(positions, 0)
    {
      if IsBlank(positions[i].name) {
        return UnnamedPosition(i);
      }
      var valid := NonBlank(positions[i].candidates);
      if |valid| < 1 {
        return NoCandidates(i);
      }
      i := i + 1;
    }
    v := Accepted;
  }
}
