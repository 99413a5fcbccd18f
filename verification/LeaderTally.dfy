/** Leader election: counting votes whatever order the hash maps are walked in, with ties to the smallest id. */
module LeaderTally {
  import opened Wrappers
  import opened Collections

  type MemberId = string

  /** Lexicographic order of ids. */
  predicate AtMost(a: MemberId, b: MemberId) {
    a == "" || (b != "" && (a[0] < b[0] || (a[0] == b[0] && AtMost(a[1..], b[1..]))))
  }

  lemma {:induction false} AtMostTotal(a: MemberId, b: MemberId)
    ensures AtMost(a, b) || AtMost(b, a)
  {
    if a != "" && b != "" && a[0] == b[0] { AtMostTotal(a[1..], b[1..]); }
  }

  lemma {:induction false} AtMostAntisymmetric(a: MemberId, b: MemberId)
    requires AtMost(a, b) && AtMost(b, a)
    ensures a == b
  {
    if a != "" && b != "" {
      AtMostAntisymmetric(a[1..], b[1..]);
      assert a == [a[0]] + a[1..] && b == [b[0]] + b[1..];
    }
  }

  lemma {:induction false} AtMostTransitive(a: MemberId, b: MemberId, c: MemberId)
    requires AtMost(a, b) && AtMost(b, c)
    ensures AtMost(a, c)
  {
    if a != "" && a[0] == b[0] == c[0] { AtMostTransitive(a[1..], b[1..], c[1..]); }
  }

  /** Who voted for a candidate, among some voters. */
  ghost function VotersFor(votes: map<MemberId, MemberId>, voters: set<MemberId>,
                           candidate: MemberId): (r: set<MemberId>)
  {
    set v | v in voters && v in votes && votes[v] == candidate
  }

  ghost function Tally(votes: map<MemberId, MemberId>, candidate: MemberId): (n: nat) {
    |VotersFor(votes, votes.Keys, candidate)|
  }

  /** The smallest id among those of `candidates` with the most votes. */
  ghost predicate IsBest(votes: map<MemberId, MemberId>, candidates: set<MemberId>, w: MemberId) {
    && w in candidates
    && (forall c <- candidates :: Tally(votes, c) <= Tally(votes, w))
    && (forall c <- candidates :: Tally(votes, c) == Tally(votes, w) ==> AtMost(w, c))
  }

  /** The smallest id among the candidates with the most votes. */
  ghost predicate IsWinner(votes: map<MemberId, MemberId>, w: MemberId) {
    IsBest(votes, votes.Values, w)
  }

  /** There is only one winner, so no order of counting can change it. */
  lemma WinnerIsUnique(votes: map<MemberId, MemberId>, a: MemberId, b: MemberId)
    requires IsWinner(votes, a) && IsWinner(votes, b)
    ensures a == b
  {
    AtMostAntisymmetric(a, b);
  }

  lemma TalliesFit(votes: map<MemberId, MemberId>, a: MemberId, b: MemberId)
    requires a != b
    ensures Tally(votes, a) + Tally(votes, b) <= |votes|
  {
    var x, y := VotersFor(votes, votes.Keys, a), VotersFor(votes, votes.Keys, b);
    assert |x + y| == |x| + |y|;
    SubsetSize(x + y, votes.Keys);
  }

  /** More than half of the votes cast win. */
  lemma MajorityWins(votes: map<MemberId, MemberId>, w: MemberId, c: MemberId)
    requires IsWinner(votes, w) && 2 * Tally(votes, c) > |votes|
    ensures w == c
  {
    var v :| v in VotersFor(votes, votes.Keys, c);
    assert c in votes.Values;
    if w != c {
      TalliesFit(votes, w, c);
    }
  }

  /** `counts` holds the tallies of the votes counted so far. */
  ghost predicate Counts(votes: map<MemberId, MemberId>, counted: set<MemberId>, counts: map<MemberId, nat>) {
    && (forall c :: c in counts <==> VotersFor(votes, counted, c) != {})
    && (forall c :: c in counts ==> counts[c] == |VotersFor(votes, counted, c)|)
  }

  lemma VotersGrow(votes: map<MemberId, MemberId>, counted: set<MemberId>, v: MemberId, c: MemberId)
    requires v in votes && v !in counted
    ensures var before, after := VotersFor(votes, counted, c), VotersFor(votes, counted + {v}, c);
            if c == votes[v] then after == before + {v} && |after| == |before| + 1 else after == before
  {
    var before, after := VotersFor(votes, counted, c), VotersFor(votes, counted + {v}, c);
    assert c == votes[v] ==> after == before + {v};
  }

  lemma CountOne(votes: map<MemberId, MemberId>, counted: set<MemberId>, counts: map<MemberId, nat>, v: MemberId)
    requires Counts(votes, counted, counts) && v in votes && v !in counted
    ensures var c := votes[v];
            Counts(votes, counted + {v}, counts[c := (if c in counts then counts[c] else 0) + 1])
  {
    var d := votes[v];
    var more := counts[d := (if d in counts then counts[d] else 0) + 1];
    forall c
      ensures c in more <==> VotersFor(votes, counted + {v}, c) != {}
      ensures c in more ==> more[c] == |VotersFor(votes, counted + {v}, c)|
    {
      VotersGrow(votes, counted, v, c);
    }
  }

  method CountVotes(votes: map<MemberId, MemberId>) returns (counts: map<MemberId, nat>)
    ensures counts.Keys == votes.Values
    ensures forall c :: c in counts ==> counts[c] == Tally(votes, c)
  {
    counts := map[];
    var left := votes.Keys;
    while left != {}
      invariant left <= votes.Keys
      invariant Counts(votes, votes.Keys - left, counts)
      decreases left
    {
      var v :| v in left;
      CountOne(votes, votes.Keys - left, counts, v);
      assert votes.Keys - (left - {v}) == (votes.Keys - left) + {v};
      var c := votes[v];
      counts := counts[c := (if c in counts then counts[c] else 0) + 1];
      left := left - {v};
    }
    assert votes.Keys - {} == votes.Keys;
    forall c ensures c in counts <==> c in votes.Values {
      if c in votes.Values {
        var v :| v in votes && votes[v] == c;
        assert v in VotersFor(votes, votes.Keys, c);
      }
    }
  }

  method MaxCount(counts: map<MemberId, nat>) returns (most: nat)
    ensures forall c :: c in counts ==> counts[c] <= most
    ensures most == 0 || exists c :: c in counts && counts[c] == most
  {
    most := 0;
    var left := counts.Keys;
    while left != {}
      invariant left <= counts.Keys
      invariant forall c :: c in counts && c !in left ==> counts[c] <= most
      invariant most == 0 || exists c :: c in counts && counts[c] == most
      decreases left
    {
      var c :| c in left;
      if counts[c] > most {
        most := counts[c];
      }
      left := left - {c};
    }
  }

  /** The smallest id whose count is `most`. */
  method SmallestWith(counts: map<MemberId, nat>, most: nat) returns (winner: Option<MemberId>)
    ensures winner.None? <==> forall c :: c in counts ==> counts[c] != most
    ensures winner.Some? ==> winner.value in counts && counts[winner.value] == most
    ensures winner.Some? ==> forall c :: c in counts && counts[c] == most ==> AtMost(winner.value, c)
  {
    winner := None;
    var left := counts.Keys;
    while left != {}
      invariant left <= counts.Keys
      invariant winner.None? <==> forall c :: c in counts && c !in left ==> counts[c] != most
      invariant winner.Some? ==> winner.value in counts && counts[winner.value] == most
      invariant winner.Some? ==> forall c :: c in counts && c !in left && counts[c] == most ==> AtMost(winner.value, c)
      decreases left
    {
      var c :| c in left;
      if counts[c] == most {
        AtMostTotal(c, c);
        if winner.None? {
          winner := Some(c);
        } else {
          AtMostTotal(c, winner.value);
          if AtMost(c, winner.value) {
            forall d | d in counts && d !in left && counts[d] == most ensures AtMost(c, d) {
              AtMostTransitive(c, winner.value, d);
            }
            winner := Some(c);
          }
        }
      }
      left := left - {c};
    }
  }

  /** With no vote at all there is no winner to take, and the program stops; with one, there always is. */
  method GetWinner(votes: map<MemberId, MemberId>) returns (winner: MemberId)
    requires |votes| > 0
    ensures IsWinner(votes, winner)
  {
    var counts := CountVotes(votes);
    var most := MaxCount(counts);
    var first :| first in votes.Keys;
    var c := votes[first];
    assert c in counts && counts[c] >= 1 by {
      assert first in VotersFor(votes, votes.Keys, c);
    }
    var w := SmallestWith(counts, most);
    winner := w.value;
  }

  // ----- One manager's election

  lemma {:induction false} HasBest(votes: map<MemberId, MemberId>, candidates: set<MemberId>) returns (w: MemberId)
    requires candidates != {}
    ensures IsBest(votes, candidates, w)
  {
    var c :| c in candidates;
    AtMostTotal(c, c);
    if candidates == {c} {
      w := c;
    } else {
      var rest := candidates - {c};
      var best := HasBest(votes, rest);
      AtMostTotal(c, best);
      var better := Tally(votes, c) > Tally(votes, best) || (Tally(votes, c) == Tally(votes, best) && AtMost(c, best));
      w := if better then c else best;
      forall d | d in candidates ensures Tally(votes, d) <= Tally(votes, w)
        ensures Tally(votes, d) == Tally(votes, w) ==> AtMost(w, d)
      {
        if d != c && better && Tally(votes, d) == Tally(votes, c) {
          assert d in rest;
          AtMostTransitive(c, best, d);
        }
      }
    }
  }

  ghost function Winner(votes: map<MemberId, MemberId>): (w: MemberId)
    requires votes != map[]
    ensures IsWinner(votes, w)
  {
    assert exists w :: IsWinner(votes, w) by {
      var v :| v in votes;
      assert votes[v] in votes.Values;
      var w := HasBest(votes, votes.Values);
      assert IsWinner(votes, w);
    }
    var w :| IsWinner(votes, w);
    w
  }

  datatype Election = Election(leader: Option<MemberId>, votes: map<MemberId, MemberId>)

  /** What a manager can be called for; the group's members may have changed between calls. */
  datatype Call = Initiate(members: set<MemberId>) | VoteFor(members: set<MemberId>, candidate: MemberId)

  /** `own` is the manager's own member: the only voter it ever records. */
  ghost function Step(own: MemberId, s: Election, c: Call): (r: Election) {
    match c
    case Initiate(members) => if s.leader.Some? && s.leader.value in members then s else Election(None, map[])
    case VoteFor(members, candidate) =>
      if candidate !in members then s
      else
        var votes := s.votes[own := candidate];
        assert own in votes;
        Election(if |votes| > |members| / 2 then Some(Winner(votes)) else s.leader, votes)
  }

  ghost function Run(own: MemberId, calls: seq<Call>): (s: Election)
    decreases |calls|
  {
    if calls == [] then Election(None, map[]) else Step(own, Run(own, calls[..|calls| - 1]), calls[|calls| - 1])
  }

  /** In every run of one manager at most one vote is recorded, its own. */
  lemma {:induction false} OnlyOwnVote(own: MemberId, calls: seq<Call>)
    ensures Run(own, calls).votes.Keys <= {own}
    decreases |calls|
  {
    if calls != [] {
      OnlyOwnVote(own, calls[..|calls| - 1]);
    }
  }

  lemma LoneVoteWins(own: MemberId, votes: map<MemberId, MemberId>, candidate: MemberId)
    requires votes.Keys == {own} && votes[own] == candidate
    ensures votes != map[] && Winner(votes) == candidate && |votes| == 1
  {
    assert |votes| == |votes.Keys|;
  }

  lemma OneMember(members: set<MemberId>, candidate: MemberId)
    requires candidate in members
    ensures 1 > |members| / 2 <==> members == {candidate}
  {
    if |members| == 1 {
      assert |members - {candidate}| == 0;
      assert members == (members - {candidate}) + {candidate};
    }
  }

  /** So a vote elects exactly in a group whose only member is the candidate. */
  lemma VoteElectsIff(own: MemberId, calls: seq<Call>, members: set<MemberId>, candidate: MemberId)
    ensures var s := Run(own, calls);
            Step(own, s, VoteFor(members, candidate)).leader ==
            if members == {candidate} then Some(candidate) else s.leader
  {
    OnlyOwnVote(own, calls);
    if candidate in members {
      var votes := Run(own, calls).votes[own := candidate];
      assert votes.Keys == {own};
      LoneVoteWins(own, votes, candidate);
      OneMember(members, candidate);
    }
  }

  /** Whoever leads, in any run, was voted for as the only member of the group. */
  lemma {:induction false} LeaderWasAlone(own: MemberId, calls: seq<Call>, leader: MemberId)
    requires Run(own, calls).leader == Some(leader)
    ensures VoteFor({leader}, leader) in calls
    decreases |calls|
  {
    var init, last := calls[..|calls| - 1], calls[|calls| - 1];
    if last.VoteFor? {
      VoteElectsIff(own, init, last.members, last.candidate);
    }
    if last != VoteFor({leader}, leader) {
      LeaderWasAlone(own, init, leader);
    }
  }

  class LeaderElection {
    const memberId: MemberId
    var currentLeader: Option<MemberId>
    var votes: map<MemberId, MemberId>

    ghost function View(): (s: Election)
      reads this
    {
      Election(currentLeader, votes)
    }

    constructor (memberId: MemberId)
      ensures this.memberId == memberId && View() == Run(memberId, [])
    {
      this.memberId, currentLeader, votes := memberId, None, map[];
    }

    predicate HasMajority(members: set<MemberId>)
      reads this
    {
      |votes| > |members| / 2
    }

    /** `initiate_leader_election`; false while a leader that is still a member is in office. */
    method InitiateElection(members: set<MemberId>) returns (started: bool)
      modifies this
      ensures View() == Step(memberId, old(View()), Initiate(members))
      ensures started <==> !(old(currentLeader).Some? && old(currentLeader).value in members)
    {
      if currentLeader.Some? && currentLeader.value in members {
        return false;
      }
      currentLeader, votes := None, map[];
      return true;
    }

    /** `vote_for_leader` in a group of `members`; false when the candidate is no member. */
    method Vote(members: set<MemberId>, candidate: MemberId) returns (accepted: bool)
      modifies this
      ensures View() == Step(memberId, old(View()), VoteFor(members, candidate))
      ensures accepted <==> candidate in members
    {
      if candidate !in members {
        return false;
      }
      votes := votes[memberId := candidate];
      assert memberId in votes;
      if HasMajority(members) {
        var w := GetWinner(votes);
        WinnerIsUnique(votes, w, Winner(votes));
        currentLeader := Some(w);
      }
      return true;
    }
  }
}
