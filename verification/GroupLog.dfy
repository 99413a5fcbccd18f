/**
 * The membership log of a group: updates are created locally or received, checked against the current
 * state and applied change by change, each change leaving an audit entry. Whether a signature verifies,
 * who is an admin and what time it is come in as parameters.
 */
module GroupLog {
  import opened Wrappers
  import opened Bytes

  type MemberId = string

  datatype MemberInfo = MemberInfo(memberId: MemberId, publicKey: Octets, invitationKey: Octets, joinTimestamp: nat)

  datatype Reason = Voluntary | Kicked | KeyCompromise | Inactivity

  datatype Change =
    | AddMember(info: MemberInfo, invitedBy: MemberId)
    | RemoveMember(memberId: MemberId, removedBy: MemberId, reason: Reason)
    | UpdateMemberKey(memberId: MemberId, newPublicKey: Octets)

  datatype AuditEntry = AuditEntry(timestamp: nat, sequenceNumber: nat, change: Change, authorizedBy: MemberId,
    consensusReached: bool)

  datatype Context = Context(creationTime: nat, currentEpoch: nat, policies: nat)

  datatype Update = Update(
    groupId: string,
    sequenceNumber: nat,
    epochId: nat,
    changes: seq<Change>,
    newContext: Option<Context>,
    requiresRekey: bool)

  datatype SignedUpdate = SignedUpdate(update: Update, signature: Octets, signerId: MemberId, timestamp: nat)

  datatype Error = Unauthorized(memberId: MemberId) | MemberNotFound(memberId: MemberId) | BadSignature
                 | WrongGroup | WrongSequence(expected: nat) | WrongEpoch

  datatype Manager = Manager(
    groupId: string,
    memberId: MemberId,
    members: map<MemberId, MemberInfo>,
    context: Context,
    log: seq<AuditEntry>)

  function NextSequence(m: Manager): (n: nat) {
    |m.log| + 1
  }

  /** Why a change may not be made, if it may not. Any member may remove any other. */
  function Refusal(m: Manager, c: Change, admin: bool): (e: Option<Error>) {
    match c
    case AddMember(_, inviter) => if inviter in m.members then None else Some(Unauthorized(inviter))
    case RemoveMember(id, remover, _) =>
      if remover !in m.members then Some(Unauthorized(remover))
      else if id !in m.members then Some(MemberNotFound(id))
      else None
    case UpdateMemberKey(id, _) =>
      if id !in m.members then Some(MemberNotFound(id))
      else if id != m.memberId && !admin then Some(Unauthorized(m.memberId))
      else None
  }

  /** The first refusal in a list of changes, all judged against the same members. */
  function FirstRefusal(m: Manager, changes: seq<Change>, admin: bool): (e: Option<Error>)
    ensures e.None? <==> forall c <- changes :: Refusal(m, c, admin).None?
    decreases |changes|
  {
    if changes == [] then None
    else if Refusal(m, changes[0], admin).Some? then Refusal(m, changes[0], admin)
    else FirstRefusal(m, changes[1..], admin)
  }

  function ApplyChange(members: map<MemberId, MemberInfo>, c: Change): (r: map<MemberId, MemberInfo>) {
    match c
    case AddMember(info, _) => members[info.memberId := info]
    case RemoveMember(id, _, _) => members - {id}
    case UpdateMemberKey(id, key) => if id in members then members[id := members[id].(publicKey := key)] else members
  }

  /** The members after a log of changes. */
  function Replay(members: map<MemberId, MemberInfo>, log: seq<AuditEntry>): (r: map<MemberId, MemberInfo>)
    decreases |log|
  {
    if log == [] then members else ApplyChange(Replay(members, log[..|log| - 1]), log[|log| - 1].change)
  }

  function Entry(s: SignedUpdate, c: Change, now: nat): (e: AuditEntry) {
    AuditEntry(now, s.update.sequenceNumber, c, s.signerId, true)
  }

  /** One change, applied and logged. */
  function Logged(m: Manager, s: SignedUpdate, c: Change, now: nat): (r: Manager) {
    m.(members := ApplyChange(m.members, c), log := m.log + [Entry(s, c, now)])
  }

  /** Changes are applied in order, each with its entry. */
  function ApplyChanges(m: Manager, s: SignedUpdate, changes: seq<Change>, now: nat): (r: Manager)
    decreases |changes|
  {
    if changes == [] then m
    else ApplyChanges(Logged(m, s, changes[0], now), s, changes[1..], now)
  }

  function ApplyUpdate(m: Manager, s: SignedUpdate, now: nat): (r: Manager) {
    var applied := ApplyChanges(m, s, s.update.changes, now);
    if s.update.newContext.Some? then applied.(context := s.update.newContext.value) else applied
  }

  function NextContext(c: Context): (r: Context) {
    c.(currentEpoch := (c.currentEpoch + 1) % TWO64)
  }

  /** The update that `create_group_update` signs. */
  function Drafted(m: Manager, changes: seq<Change>, requiresRekey: bool): (u: Update) {
    Update(m.groupId, NextSequence(m), m.context.currentEpoch, changes,
           if requiresRekey then Some(NextContext(m.context)) else None, requiresRekey)
  }

  /** Why a received update is not applied, if it is not. */
  function Objection(m: Manager, s: SignedUpdate, verifies: bool, admin: bool): (e: Option<Error>) {
    if s.signerId !in m.members then Some(MemberNotFound(s.signerId))
    else if !verifies then Some(BadSignature)
    else if s.update.groupId != m.groupId then Some(WrongGroup)
    else if s.update.sequenceNumber != NextSequence(m) then Some(WrongSequence(NextSequence(m)))
    else if s.update.epochId != m.context.currentEpoch then Some(WrongEpoch)
    else FirstRefusal(m, s.update.changes, admin)
  }

  // ----- Runs

  /** A call: a local update, or a received one. What the outside world answers comes along. */
  datatype Call =
    | Create(changes: seq<Change>, requiresRekey: bool, admin: bool, signature: Octets, now: nat)
    | Receive(signed: SignedUpdate, verifies: bool, admin: bool, now: nat)

  /** The update a call asks to apply. */
  function Proposal(m: Manager, c: Call): (s: SignedUpdate) {
    match c
    case Create(changes, rekey, _, signature, now) =>
      SignedUpdate(Drafted(m, changes, rekey), signature, m.memberId, now)
    case Receive(s, _, _, _) => s
  }

  predicate Accepts(m: Manager, c: Call) {
    match c
    case Create(changes, _, admin, _, _) => FirstRefusal(m, changes, admin).None?
    case Receive(s, verifies, admin, _) => Objection(m, s, verifies, admin).None?
  }

  /** A call that is not accepted changes nothing. */
  function Step(m: Manager, c: Call): (r: Manager) {
    if Accepts(m, c) then ApplyUpdate(m, Proposal(m, c), c.now) else m
  }

  function Run(m: Manager, calls: seq<Call>): (r: Manager)
    decreases |calls|
  {
    if calls == [] then m else Step(Run(m, calls[..|calls| - 1]), calls[|calls| - 1])
  }

  /** The updates that were accepted, in order. */
  function Accepted(m: Manager, calls: seq<Call>): (list: seq<SignedUpdate>)
    decreases |calls|
  {
    if calls == [] then []
    else
      var before, last := calls[..|calls| - 1], calls[|calls| - 1];
      Accepted(m, before) + (if Accepts(Run(m, before), last) then [Proposal(Run(m, before), last)] else [])
  }

  lemma LoggedReplays(m: Manager, s: SignedUpdate, c: Change, now: nat, base: map<MemberId, MemberInfo>)
    requires m.members == Replay(base, m.log)
    ensures Logged(m, s, c, now).members == Replay(base, Logged(m, s, c, now).log)
  {
    var log := m.log + [Entry(s, c, now)];
    assert log[..|log| - 1] == m.log;
  }

  lemma {:induction false} ApplyChangesReplays(m: Manager, s: SignedUpdate, changes: seq<Change>, now: nat,
                                               base: map<MemberId, MemberInfo>)
    requires m.members == Replay(base, m.log)
    ensures var r := ApplyChanges(m, s, changes, now); r.members == Replay(base, r.log)
    decreases |changes|
  {
    if changes != [] {
      LoggedReplays(m, s, changes[0], now, base);
      ApplyChangesReplays(Logged(m, s, changes[0], now), s, changes[1..], now, base);
    }
  }

  function Entries(s: SignedUpdate, changes: seq<Change>, now: nat): (r: seq<AuditEntry>) {
    seq(|changes|, k requires 0 <= k < |changes| => Entry(s, changes[k], now))
  }

  lemma {:induction false} ApplyChangesAppends(m: Manager, s: SignedUpdate, changes: seq<Change>, now: nat)
    ensures var r := ApplyChanges(m, s, changes, now);
            r == m.(members := r.members, log := m.log + Entries(s, changes, now))
    decreases |changes|
  {
    if changes == [] {
      assert m.log + Entries(s, changes, now) == m.log;
    } else {
      var first := [Entry(s, changes[0], now)];
      assert Entries(s, changes, now) == first + Entries(s, changes[1..], now);
      assert m.log + Entries(s, changes, now) == m.log + first + Entries(s, changes[1..], now);
      ApplyChangesAppends(Logged(m, s, changes[0], now), s, changes[1..], now);
    }
  }

  /** What a call adds to the log. */
  function Added(m: Manager, c: Call): (r: seq<AuditEntry>) {
    if Accepts(m, c) then Entries(Proposal(m, c), Proposal(m, c).update.changes, c.now) else []
  }

  lemma StepAppends(m: Manager, c: Call)
    ensures var r := Step(m, c);
            r.log == m.log + Added(m, c) && r.groupId == m.groupId && r.memberId == m.memberId
  {
    if Accepts(m, c) {
      ApplyChangesAppends(m, Proposal(m, c), Proposal(m, c).update.changes, c.now);
    }
  }

  lemma StepReplays(m: Manager, c: Call, base: map<MemberId, MemberInfo>)
    requires m.members == Replay(base, m.log)
    ensures Step(m, c).members == Replay(base, Step(m, c).log)
  {
    if Accepts(m, c) {
      ApplyChangesReplays(m, Proposal(m, c), Proposal(m, c).update.changes, c.now, base);
    }
  }

  /** Whoever makes a change and whoever it is about must be members; keys are changed by oneself or an admin. */
  ghost predicate Authorized(m: Manager, c: Change, admin: bool) {
    match c
    case AddMember(_, inviter) => inviter in m.members
    case RemoveMember(id, remover, _) => {id, remover} <= m.members.Keys
    case UpdateMemberKey(id, _) => id in m.members && (id == m.memberId || admin)
  }

  /**
   * A call is accepted exactly when every change is authorized by the members before it and, if the
   * update was received, a member signed it for this group, epoch and place in the log.
   */
  lemma AcceptedIff(m: Manager, c: Call)
    ensures Accepts(m, c) <==>
            && (forall change <- Proposal(m, c).update.changes :: Authorized(m, change, c.admin))
            && (c.Receive? ==>
                 && c.verifies && c.signed.signerId in m.members && c.signed.update.groupId == m.groupId
                 && c.signed.update.sequenceNumber == |m.log| + 1 && c.signed.update.epochId == m.context.currentEpoch)
  {
    forall change <- Proposal(m, c).update.changes
      ensures Refusal(m, change, c.admin).None? <==> Authorized(m, change, c.admin)
    {
    }
  }

  /** A group as it starts. */
  ghost predicate Initial(m: Manager) {
    m.log == []
  }

  /**
   * In every run, the current members are the initial members with the audit log replayed, and the
   * log only grows.
   */
  lemma {:induction false} MembersAreReplayedLog(m: Manager, calls: seq<Call>)
    requires Initial(m)
    ensures Run(m, calls).members == Replay(m.members, Run(m, calls).log)
    ensures forall k: nat :: k <= |calls| ==> Run(m, calls[..k]).log <= Run(m, calls).log
    decreases |calls|
  {
    if calls != [] {
      var before, last := calls[..|calls| - 1], calls[|calls| - 1];
      MembersAreReplayedLog(m, before);
      StepReplays(Run(m, before), last, m.members);
      StepAppends(Run(m, before), last);
      forall k: nat | k <= |calls| ensures Run(m, calls[..k]).log <= Run(m, calls).log {
        if k < |calls| {
          assert calls[..k] == before[..k];
        } else {
          assert calls[..k] == calls;
        }
      }
    }
  }

  /** One member's entry after a log: the latest addition or removal decides, key updates on top. */
  function Standing(members: map<MemberId, MemberInfo>, log: seq<AuditEntry>, id: MemberId): (r: Option<MemberInfo>)
    decreases |log|
  {
    if log == [] then (if id in members then Some(members[id]) else None)
    else
      var before := Standing(members, log[..|log| - 1], id);
      match log[|log| - 1].change
      case AddMember(info, _) => if info.memberId == id then Some(info) else before
      case RemoveMember(gone, _, _) => if gone == id then None else before
      case UpdateMemberKey(who, key) =>
        if who == id && before.Some? then Some(before.value.(publicKey := key)) else before
  }

  /** In every run, each member stands as the log's own entries about that member say, whatever happened to others. */
  lemma {:induction false} EachMemberStandsAlone(members: map<MemberId, MemberInfo>, log: seq<AuditEntry>, id: MemberId)
    ensures var r := Replay(members, log);
            Standing(members, log, id) == if id in r then Some(r[id]) else None
    decreases |log|
  {
    if log != [] {
      EachMemberStandsAlone(members, log[..|log| - 1], id);
    }
  }

  ghost function NonEmpty(list: seq<SignedUpdate>): (r: seq<SignedUpdate>) {
    if list == [] then []
    else
      var init, last := list[..|list| - 1], list[|list| - 1];
      NonEmpty(init) + (if last.update.changes != [] then [last] else [])
  }

  /** Strictly increasing numbers, none larger than `bound`. */
  ghost predicate Numbered(list: seq<SignedUpdate>, bound: nat) {
    && (forall i, j :: 0 <= i < j < |list| ==> list[i].update.sequenceNumber < list[j].update.sequenceNumber)
    && (forall i :: 0 <= i < |list| ==> list[i].update.sequenceNumber <= bound)
  }

  lemma NonEmptyAppend(list: seq<SignedUpdate>, s: SignedUpdate)
    ensures NonEmpty(list + [s]) == NonEmpty(list) + if s.update.changes != [] then [s] else []
  {
    assert (list + [s])[..|list|] == list;
  }

  lemma NumberedAppend(list: seq<SignedUpdate>, s: SignedUpdate, bound: nat, top: nat)
    requires Numbered(list, bound) && bound < s.update.sequenceNumber <= top
    ensures Numbered(list + [s], top)
  {
  }

  lemma NumberedStep(list: seq<SignedUpdate>, s: SignedUpdate, bound: nat)
    requires Numbered(NonEmpty(list), bound) && s.update.sequenceNumber == bound + 1
    ensures Numbered(NonEmpty(list + [s]), bound + |s.update.changes|)
  {
    NonEmptyAppend(list, s);
    if s.update.changes == [] {
      assert NonEmpty(list + [s]) == NonEmpty(list);
    } else {
      NumberedAppend(NonEmpty(list), s, bound, bound + |s.update.changes|);
    }
  }

  lemma AcceptedNumber(m: Manager, c: Call)
    requires Accepts(m, c)
    ensures Proposal(m, c).update.sequenceNumber == NextSequence(m)
  {
  }

  /** In every run, the accepted updates that change something carry strictly increasing numbers. */
  lemma {:induction false} SequenceNumbersIncrease(m: Manager, calls: seq<Call>)
    requires Initial(m)
    ensures Numbered(NonEmpty(Accepted(m, calls)), |Run(m, calls).log|)
    decreases |calls|
  {
    if calls != [] {
      var before, last := calls[..|calls| - 1], calls[|calls| - 1];
      SequenceNumbersIncrease(m, before);
      if Accepts(Run(m, before), last) {
        AcceptedStep(Run(m, before), last, Accepted(m, before));
      } else {
        assert Accepted(m, calls) == Accepted(m, before);
      }
    }
  }

  lemma AcceptedStep(state: Manager, c: Call, list: seq<SignedUpdate>)
    requires Accepts(state, c) && Numbered(NonEmpty(list), |state.log|)
    ensures Numbered(NonEmpty(list + [Proposal(state, c)]), |Step(state, c).log|)
  {
    StepLength(state, c);
    AcceptedNumber(state, c);
    NumberedStep(list, Proposal(state, c), |state.log|);
  }

  lemma StepLength(m: Manager, c: Call)
    ensures |Step(m, c).log| == |m.log| + if Accepts(m, c) then |Proposal(m, c).update.changes| else 0
  {
    StepAppends(m, c);
  }

  lemma {:induction false} LogNeverShrinks(m: Manager, calls: seq<Call>, k: nat)
    requires k <= |calls|
    ensures |Run(m, calls[..k]).log| <= |Run(m, calls).log|
    decreases |calls|
  {
    if k == |calls| {
      assert calls[..k] == calls;
    } else {
      var before := calls[..|calls| - 1];
      assert calls[..k] == before[..k];
      LogNeverShrinks(m, before, k);
      StepLength(Run(m, before), calls[|calls| - 1]);
    }
  }

  lemma RunNext(m: Manager, calls: seq<Call>, k: nat)
    requires k < |calls|
    ensures Run(m, calls[..k + 1]) == Step(Run(m, calls[..k]), calls[k])
  {
    assert calls[..k + 1][..k] == calls[..k];
  }

  /** An update that changed something is never accepted again, at any later point of any run. */
  lemma NeverAcceptedTwice(m: Manager, calls: seq<Call>, k: nat, c: Call)
    requires k < |calls| && Accepts(Run(m, calls[..k]), calls[k])
    requires var s := Proposal(Run(m, calls[..k]), calls[k]); s.update.changes != [] && c.Receive? && c.signed == s
    ensures !Accepts(Run(m, calls), c)
  {
    AcceptedNumber(Run(m, calls[..k]), calls[k]);
    StepLength(Run(m, calls[..k]), calls[k]);
    RunNext(m, calls, k);
    LogNeverShrinks(m, calls, k + 1);
  }

  /**
   * Straight after it was accepted, an update is accepted again, by the same answers of the outside
   * world, exactly when it changes no member and leaves the epoch where it was.
   */
  lemma AcceptedAgainIff(m: Manager, c: Call)
    requires c.Receive? && Accepts(m, c)
    ensures var u := c.signed.update;
            Accepts(Step(m, c), c) <==>
              u.changes == [] && (u.newContext.Some? ==> u.newContext.value.currentEpoch == u.epochId)
  {
    StepAppends(m, c);
    if c.signed.update.changes == [] {
      assert Step(m, c) == m || Step(m, c) == m.(context := c.signed.update.newContext.value);
    }
  }

  /** The last entry of a list about a member. */
  function Latest(list: seq<MemberInfo>, id: MemberId): (r: Option<MemberInfo>)
    decreases |list|
  {
    if list == [] then None
    else if list[|list| - 1].memberId == id then Some(list[|list| - 1])
    else Latest(list[..|list| - 1], id)
  }

  /** The object. */
  class GroupManager {
    const groupId: string
    const memberId: MemberId
    var members: map<MemberId, MemberInfo>
    var context: Context
    var log: seq<AuditEntry>

    ghost function View(): (m: Manager)
      reads this
    {
      Manager(groupId, memberId, members, context, log)
    }

    constructor (groupId: string, memberId: MemberId, initial: seq<MemberInfo>, context: Context)
      ensures Initial(View()) && this.groupId == groupId && this.memberId == memberId && this.context == context
      ensures forall id :: Latest(initial, id) == if id in members then Some(members[id]) else None
    {
      this.groupId, this.memberId, this.context, log := groupId, memberId, context, [];
      var current: map<MemberId, MemberInfo> := map[];
      for k := 0 to |initial|
        invariant forall id :: Latest(initial[..k], id) == if id in current then Some(current[id]) else None
      {
        assert initial[..k + 1][..k] == initial[..k];
        current := current[initial[k].memberId := initial[k]];
      }
      assert initial[..|initial|] == initial;
      members := current;
    }

    method VerifyChanges(changes: seq<Change>, admin: bool) returns (e: Option<Error>)
      ensures e == FirstRefusal(View(), changes, admin)
    {
      for k := 0 to |changes|
        invariant FirstRefusal(View(), changes, admin) == FirstRefusal(View(), changes[k..], admin)
      {
        e := Refusal(Manager(groupId, memberId, members, context, log), changes[k], admin);
        assert changes[k..][1..] == changes[k + 1..];
        if e.Some? {
          return;
        }
      }
      return None;
    }

    method ApplyGroupUpdate(s: SignedUpdate, now: nat)
      modifies this
      ensures View() == ApplyUpdate(old(View()), s, now)
    {
      for k := 0 to |s.update.changes|
        invariant ApplyChanges(View(), s, s.update.changes[k..], now)
                  == ApplyChanges(old(View()), s, s.update.changes, now)
      {
        var c := s.update.changes[k];
        assert s.update.changes[k..][1..] == s.update.changes[k + 1..];
        members := ApplyChange(members, c);
        log := log + [Entry(s, c, now)];
      }
      if s.update.newContext.Some? {
        context := s.update.newContext.value;
      }
    }

    method CreateGroupUpdate(changes: seq<Change>, requiresRekey: bool, admin: bool, signature: Octets, now: nat)
      returns (r: Result<SignedUpdate, Error>)
      modifies this
      ensures View() == Step(old(View()), Create(changes, requiresRekey, admin, signature, now))
      ensures r.Ok? <==> FirstRefusal(old(View()), changes, admin).None?
      ensures r.Ok? ==> r.value == Proposal(old(View()), Create(changes, requiresRekey, admin, signature, now))
      ensures r.Err? ==> View() == old(View()) && Some(r.error) == FirstRefusal(old(View()), changes, admin)
    {
      var e := VerifyChanges(changes, admin);
      if e.Some? {
        return Err(e.value);
      }
      var update := Update(groupId, |log| + 1, context.currentEpoch, changes,
                           if requiresRekey then Some(NextContext(context)) else None, requiresRekey);
      var s := SignedUpdate(update, signature, memberId, now);
      ApplyGroupUpdate(s, now);
      return Ok(s);
    }

    method ProcessGroupUpdate(s: SignedUpdate, verifies: bool, admin: bool, now: nat) returns (e: Option<Error>)
      modifies this
      ensures View() == Step(old(View()), Receive(s, verifies, admin, now))
      ensures e == Objection(old(View()), s, verifies, admin)
      ensures e.Some? ==> View() == old(View())
    {
      if s.signerId !in members {
        return Some(MemberNotFound(s.signerId));
      }
      if !verifies {
        return Some(BadSignature);
      }
      if s.update.groupId != groupId {
        return Some(WrongGroup);
      }
      if s.update.sequenceNumber != |log| + 1 {
        return Some(WrongSequence(|log| + 1));
      }
      if s.update.epochId != context.currentEpoch {
        return Some(WrongEpoch);
      }
      e := VerifyChanges(s.update.changes, admin);
      if e.None? {
        ApplyGroupUpdate(s, now);
      }
    }
  }
}
