/**
 * The restore plan: authenticated entries are checked, deduplicated by group and epoch number, and
 * handed out to the account's groups. How epoch UUIDs and key texts are read comes in as `Rules`.
 */
module RecoveryPlan {
  import opened Wrappers
  import opened Bytes
  import opened EpochIds
  import opened BackupArtifact
  import opened Collections
  import opened OrderedMaps

  /** The two pure functions the validators call: the epoch UUID mapping and the base64 decoder. */
  datatype Rules = Rules(epochUuid: (U64, Uuid) -> Uuid, decodeKey: string -> Option<Octets>)

  /** The rules of the program, over its SHA-256. */
  function ProgramRules(sha: Hash): (r: Rules) {
    Rules((number, group) => U64ToUuid(sha, number, UuidBytes(group)), text => Decoded(text))
  }

  datatype Identity = Identity(group: Uuid, number: U64)

  /** The order of the pairs (group, number); the byte order of UUIDs is their numeric order. */
  function Rank(i: Identity): (r: int) {
    i.group * TWO64 + i.number
  }

  lemma RankIsLexicographic(a: Identity, b: Identity)
    ensures Rank(a) < Rank(b) <==> a.group < b.group || (a.group == b.group && a.number < b.number)
    ensures Rank(a) == Rank(b) <==> a == b
  {
  }

  lemma RankInjective()
    ensures Injective(Rank)
  {
    forall a, b | Rank(a) == Rank(b) ensures a == b {
      RankIsLexicographic(a, b);
    }
  }

  datatype Scope = Scope(groupId: Uuid, groupName: string, userRole: string, currentEpochUuid: Option<Uuid>)

  datatype Epoch = Epoch(number: U64, uuid: Uuid, createdAt: int, key: Octets)

  datatype Located = Located(group: Uuid, epoch: Epoch)

  datatype PlannedGroup = PlannedGroup(scope: Scope, epochs: seq<Epoch>)

  datatype Plan = Plan(groups: seq<PlannedGroup>, allEpochs: seq<Located>)

  datatype PlanError = DuplicateScopes | GroupNotAuthorized | WrongIdentifier | InvalidEncoding | InvalidKey
                     | OutsideMemberships | ConflictingKeys | NothingRecoverable

  // ----- Entries

  predicate UsableKey(key: Octets) {
    |key| == KEY_LEN && exists k :: 0 <= k < |key| && key[k] != 0
  }

  /** What is wrong with an entry by itself. */
  function Fault(rules: Rules, e: Entry, allowed: set<Uuid>): (f: Option<PlanError>) {
    if e.epochNumber == 0 || e.epochUuid != rules.epochUuid(e.epochNumber, e.groupId) then Some(WrongIdentifier)
    else if rules.decodeKey(e.encryptionKeyB64).None? then Some(InvalidEncoding)
    else if !UsableKey(rules.decodeKey(e.encryptionKeyB64).value) then Some(InvalidKey)
    else if e.groupId !in allowed then Some(OutsideMemberships)
    else None
  }

  function IdentityOf(e: Entry): (i: Identity) {
    Identity(e.groupId, e.epochNumber)
  }

  function KeyOf(rules: Rules, e: Entry): (key: Octets) {
    match rules.decodeKey(e.encryptionKeyB64) case Some(key) => key case None => []
  }

  function EpochOf(rules: Rules, e: Entry): (r: Epoch) {
    Epoch(e.epochNumber, e.epochUuid, e.createdAt, KeyOf(rules, e))
  }

  function Secret(e: Epoch): (key: Octets) {
    e.key
  }

  function Reader(rules: Rules): (read: Entry -> Epoch) {
    e => EpochOf(rules, e)
  }

  /** How the scan checks entries and inserts them by identity. */
  function Checks(rules: Rules, allowed: set<Uuid>): (c: Check<Entry, Identity, Epoch, Octets, PlanError>) {
    Check(IdentityOf, Reader(rules), Secret, e => Fault(rules, e, allowed), ConflictingKeys)
  }

  /** The epochs by identity, the first entry of an identity winning. */
  function Validated(rules: Rules, entries: seq<Entry>): (m: map<Identity, Epoch>) {
    Inserted(IdentityOf, Reader(rules), entries)
  }

  /** The first error of the scan. */
  function FirstError(rules: Rules, entries: seq<Entry>, allowed: set<Uuid>): (f: Option<PlanError>) {
    ScanError(Checks(rules, allowed), entries)
  }

  /** Every entry is sound and in scope, and no identity has two keys. */
  ghost predicate Sound(rules: Rules, entries: seq<Entry>, allowed: set<Uuid>) {
    && (forall e <- entries :: Fault(rules, e, allowed).None?)
    && (forall a <- entries, b <- entries :: IdentityOf(a) == IdentityOf(b) ==> KeyOf(rules, a) == KeyOf(rules, b))
  }

  /** The scan finds no error exactly when the entries are sound. */
  lemma NoErrorIff(rules: Rules, entries: seq<Entry>, allowed: set<Uuid>)
    ensures FirstError(rules, entries, allowed).None? <==> Sound(rules, entries, allowed)
  {
    var c := Checks(rules, allowed);
    NoScanErrorIff(c, entries);
    assert forall e :: c.fault(e) == Fault(rules, e, allowed);
    assert forall e :: c.secret(c.value(e)) == KeyOf(rules, e);
  }

  // ----- Plans

  function GroupIds(scopes: seq<Scope>): (ids: set<Uuid>) {
    set s | s in scopes :: s.groupId
  }

  ghost predicate DistinctScopes(scopes: seq<Scope>) {
    forall i, j :: 0 <= i < j < |scopes| ==> scopes[i].groupId != scopes[j].groupId
  }

  predicate Selected(filter: Option<Uuid>, scope: Scope) {
    filter.None? || filter.value == scope.groupId
  }

  /** The epochs of the listed identities, in that order. */
  function EpochList(m: map<Identity, Epoch>, ids: seq<Identity>): (r: seq<Epoch>)
    requires forall i <- ids :: i in m
    ensures |r| == |ids| && forall k :: 0 <= k < |ids| ==> r[k] == m[ids[k]]
  {
    seq(|ids|, k requires 0 <= k < |ids| => m[ids[k]])
  }

  function LocatedList(m: map<Identity, Epoch>, ids: seq<Identity>): (r: seq<Located>)
    requires forall i <- ids :: i in m
    ensures |r| == |ids| && forall k :: 0 <= k < |ids| ==> r[k] == Located(ids[k].group, m[ids[k]])
  {
    seq(|ids|, k requires 0 <= k < |ids| => Located(ids[k].group, m[ids[k]]))
  }

  ghost function IdsIn(ids: set<Identity>, group: Uuid): (r: set<Identity>) {
    set i | i in ids && i.group == group
  }

  ghost function SortedIds(ids: set<Identity>): (q: seq<Identity>)
    ensures Lists(q, ids, Rank) && forall i :: i in q <==> i in ids
  {
    RankInjective();
    var q := Sorted(ids, Rank);
    assert forall i :: i in q <==> i in Elements(q);
    q
  }

  /** All epochs, ascending by group and number. */
  ghost function AllEpochs(m: map<Identity, Epoch>): (all: seq<Located>) {
    LocatedList(m, SortedIds(m.Keys))
  }

  ghost function EpochsOf(m: map<Identity, Epoch>, group: Uuid): (epochs: seq<Epoch>) {
    EpochList(m, SortedIds(IdsIn(m.Keys, group)))
  }

  /** The selected scopes that have epochs, in scope order, each with its epochs in ascending order. */
  ghost function GroupsFor(m: map<Identity, Epoch>, scopes: seq<Scope>,
                           filter: Option<Uuid>): (groups: seq<PlannedGroup>)
    decreases |scopes|
  {
    if scopes == [] then []
    else
      var before, last := GroupsFor(m, scopes[..|scopes| - 1], filter), scopes[|scopes| - 1];
      if Selected(filter, last) && EpochsOf(m, last.groupId) != []
      then before + [PlannedGroup(last, EpochsOf(m, last.groupId))] else before
  }

  /** What `validate_for_groups` returns. */
  ghost function PlanOf(rules: Rules, entries: seq<Entry>, scopes: seq<Scope>, filter: Option<Uuid>):
    (r: Result<Plan, PlanError>)
  {
    if !DistinctScopes(scopes) then Err(DuplicateScopes)
    else if filter.Some? && filter.value !in GroupIds(scopes) then Err(GroupNotAuthorized)
    else
      var error := FirstError(rules, entries, GroupIds(scopes));
      if error.Some? then Err(error.value)
      else
        var m := Validated(rules, entries);
        if GroupsFor(m, scopes, filter) == [] then Err(NothingRecoverable)
        else Ok(Plan(GroupsFor(m, scopes, filter), AllEpochs(m)))
  }

  lemma EpochsOfNonempty(rules: Rules, entries: seq<Entry>, group: Uuid)
    ensures EpochsOf(Validated(rules, entries), group) != [] <==> exists e <- entries :: e.groupId == group
  {
    var m := Validated(rules, entries);
    var q := SortedIds(IdsIn(m.Keys, group));
    if q != [] {
      assert q[0] in q;
      var k := InsertedFrom(IdentityOf, Reader(rules), entries, q[0]);
      assert entries[k] in entries;
    }
    forall e | e in entries && e.groupId == group ensures q != [] {
      InsertedHolds(IdentityOf, Reader(rules), entries, e);
      assert IdentityOf(e) in q;
    }
  }

  lemma {:induction false} GroupsNonempty(rules: Rules, entries: seq<Entry>, scopes: seq<Scope>, filter: Option<Uuid>)
    ensures GroupsFor(Validated(rules, entries), scopes, filter) != [] <==>
            exists s <- scopes :: Selected(filter, s) && exists e <- entries :: e.groupId == s.groupId
    decreases |scopes|
  {
    if scopes != [] {
      var init, last := scopes[..|scopes| - 1], scopes[|scopes| - 1];
      assert scopes == init + [last];
      GroupsNonempty(rules, entries, init, filter);
      EpochsOfNonempty(rules, entries, last.groupId);
    }
  }

  /**
   * A plan exists exactly when the scopes are distinct, the filter names one of them, every entry is
   * sound and in scope, no identity has two keys, and some selected scope has an entry.
   */
  lemma PlanExistsIff(rules: Rules, entries: seq<Entry>, scopes: seq<Scope>, filter: Option<Uuid>)
    ensures PlanOf(rules, entries, scopes, filter).Ok? <==>
            && DistinctScopes(scopes)
            && (filter.Some? ==> filter.value in GroupIds(scopes))
            && Sound(rules, entries, GroupIds(scopes))
            && exists s <- scopes :: Selected(filter, s) && exists e <- entries :: e.groupId == s.groupId
  {
    NoErrorIff(rules, entries, GroupIds(scopes));
    GroupsNonempty(rules, entries, scopes, filter);
  }

  /** Sound entries of one group make a plan of that group. */
  lemma PlanOfOneGroup(rules: Rules, entries: seq<Entry>, scope: Scope)
    requires Sound(rules, entries, GroupIds([scope])) && EpochsOf(Validated(rules, entries), scope.groupId) != []
    ensures var m := Validated(rules, entries);
            PlanOf(rules, entries, [scope], None)
            == Ok(Plan([PlannedGroup(scope, EpochsOf(m, scope.groupId))], AllEpochs(m)))
  {
    NoErrorIff(rules, entries, GroupIds([scope]));
    var m, scopes := Validated(rules, entries), [scope];
    var group := PlannedGroup(scope, EpochsOf(m, scope.groupId));
    assert scopes[..|scopes| - 1] == [];
    assert GroupsFor(m, scopes, None) == [] + [group] == [group];
  }

  lemma SameMapSamePlan(rules: Rules, entries: seq<Entry>, other: seq<Entry>, scopes: seq<Scope>, filter: Option<Uuid>)
    requires Sound(rules, entries, GroupIds(scopes)) && Sound(rules, other, GroupIds(scopes))
    requires Validated(rules, entries) == Validated(rules, other)
    ensures PlanOf(rules, entries, scopes, filter) == PlanOf(rules, other, scopes, filter)
  {
    NoErrorIff(rules, entries, GroupIds(scopes));
    NoErrorIff(rules, other, GroupIds(scopes));
  }

  ghost predicate Precedes(a: Located, b: Located) {
    a.group < b.group || (a.group == b.group && a.epoch.number < b.epoch.number)
  }

  /** The epochs of the plan are those of the entries: strictly ascending, one per identity, the first entry's. */
  lemma AllEpochsAreTheEntries(rules: Rules, entries: seq<Entry>)
    ensures var all := AllEpochs(Validated(rules, entries));
            && (forall i, j :: 0 <= i < j < |all| ==> Precedes(all[i], all[j]))
            && (forall i :: 0 <= i < |all| ==> FromFirstEntry(rules, entries, all[i]))
            && (forall e <- entries ::
                 exists i :: 0 <= i < |all| && all[i].group == e.groupId && all[i].epoch.number == e.epochNumber)
  {
    var m := Validated(rules, entries);
    var q := SortedIds(m.Keys);
    var all := AllEpochs(m);
    forall i | 0 <= i < |all|
      ensures all[i].epoch.number == q[i].number
      ensures FromFirstEntry(rules, entries, all[i])
    {
      assert q[i] in q;
      var k := InsertedFrom(IdentityOf, Reader(rules), entries, q[i]);
      assert FirstEntryFor(rules, entries, k, all[i]);
    }
    forall i, j | 0 <= i < j < |all| ensures Precedes(all[i], all[j]) {
      RankIsLexicographic(q[i], q[j]);
    }
    forall e <- entries
      ensures exists i :: 0 <= i < |all| && all[i].group == e.groupId && all[i].epoch.number == e.epochNumber
    {
      InsertedHolds(IdentityOf, Reader(rules), entries, e);
      assert IdentityOf(e) in q;
      var i :| 0 <= i < |q| && q[i] == IdentityOf(e);
      assert all[i].group == e.groupId && all[i].epoch.number == e.epochNumber;
    }
  }

  /** Entry `k` is the first with its identity, and `l` is its epoch. */
  ghost predicate FirstEntryFor(rules: Rules, entries: seq<Entry>, k: nat, l: Located)
    requires k < |entries|
  {
    && l == Located(entries[k].groupId, EpochOf(rules, entries[k]))
    && forall j :: 0 <= j < k ==> IdentityOf(entries[j]) != IdentityOf(entries[k])
  }

  ghost predicate FromFirstEntry(rules: Rules, entries: seq<Entry>, l: Located) {
    exists k :: 0 <= k < |entries| && FirstEntryFor(rules, entries, k, l)
  }

  // ----- Partition

  /** The epochs of one group, in the order of the list. */
  function Of(all: seq<Located>, group: Uuid): (epochs: seq<Epoch>)
    decreases |all|
  {
    if all == [] then []
    else
      var before, last := Of(all[..|all| - 1], group), all[|all| - 1];
      if last.group == group then before + [last.epoch] else before
  }

  function InGroup(q: seq<Identity>, group: Uuid): (r: seq<Identity>)
    ensures forall i <- r :: i in q
    decreases |q|
  {
    if q == [] then []
    else
      var before, last := InGroup(q[..|q| - 1], group), q[|q| - 1];
      if last.group == group then before + [last] else before
  }

  lemma {:induction false} InGroupLists(q: seq<Identity>, ids: set<Identity>, group: Uuid)
    requires Lists(q, ids, Rank)
    ensures Lists(InGroup(q, group), IdsIn(ids, group), Rank)
    decreases |q|
  {
    if q == [] {
      assert ids == {};
    } else {
      var init, last := q[..|q| - 1], q[|q| - 1];
      ListInit(q, ids, Rank);
      LastIsLargest(q, ids, Rank);
      InGroupLists(init, ids - {last}, group);
      if last.group == group {
        ListAppend(InGroup(init, group), IdsIn(ids - {last}, group), Rank, last);
        assert IdsIn(ids - {last}, group) + {last} == IdsIn(ids, group);
      } else {
        assert IdsIn(ids - {last}, group) == IdsIn(ids, group);
      }
    }
  }

  lemma {:induction false} OfLocated(m: map<Identity, Epoch>, q: seq<Identity>, group: Uuid)
    requires forall i <- q :: i in m
    ensures Of(LocatedList(m, q), group) == EpochList(m, InGroup(q, group))
    decreases |q|
  {
    if q != [] {
      var init := q[..|q| - 1];
      OfLocated(m, init, group);
      assert LocatedList(m, q)[..|q| - 1] == LocatedList(m, init);
    }
  }

  /** A group's epochs are its part of the whole list. */
  lemma EpochsOfIsPart(m: map<Identity, Epoch>, group: Uuid)
    ensures EpochsOf(m, group) == Of(AllEpochs(m), group)
  {
    var q := SortedIds(m.Keys);
    OfLocated(m, q, group);
    InGroupLists(q, m.Keys, group);
    ListIsUnique(InGroup(q, group), SortedIds(IdsIn(m.Keys, group)), IdsIn(m.Keys, group), Rank);
  }

  /** The groups of a plan, found by splitting the whole list by scope. */
  function Split(all: seq<Located>, scopes: seq<Scope>, filter: Option<Uuid>): (groups: seq<PlannedGroup>)
    decreases |scopes|
  {
    if scopes == [] then []
    else
      var before, last := Split(all, scopes[..|scopes| - 1], filter), scopes[|scopes| - 1];
      if Selected(filter, last) && Of(all, last.groupId) != []
      then before + [PlannedGroup(last, Of(all, last.groupId))] else before
  }

  lemma {:induction false} GroupsAreSplit(m: map<Identity, Epoch>, scopes: seq<Scope>, filter: Option<Uuid>)
    ensures GroupsFor(m, scopes, filter) == Split(AllEpochs(m), scopes, filter)
    decreases |scopes|
  {
    if scopes != [] {
      GroupsAreSplit(m, scopes[..|scopes| - 1], filter);
      EpochsOfIsPart(m, scopes[|scopes| - 1].groupId);
    }
  }

  /** How often an item occurs among the groups. */
  ghost function Occurrences(groups: seq<PlannedGroup>): (r: multiset<Located>)
    decreases |groups|
  {
    if groups == [] then multiset{}
    else
      var last := groups[|groups| - 1];
      Occurrences(groups[..|groups| - 1]) + multiset(Locate(last.scope.groupId, last.epochs))
  }

  function Locate(group: Uuid, epochs: seq<Epoch>): (r: seq<Located>)
    ensures |r| == |epochs| && forall k :: 0 <= k < |epochs| ==> r[k] == Located(group, epochs[k])
  {
    seq(|epochs|, k requires 0 <= k < |epochs| => Located(group, epochs[k]))
  }

  lemma {:induction false} PartCounts(all: seq<Located>, group: Uuid, x: Located)
    ensures multiset(Locate(group, Of(all, group)))[x] == if x.group == group then multiset(all)[x] else 0
    decreases |all|
  {
    if all != [] {
      var init, last := all[..|all| - 1], all[|all| - 1];
      assert all == init + [last];
      PartCounts(init, group, x);
      if last.group == group {
        assert Locate(group, Of(all, group)) == Locate(group, Of(init, group)) + [last];
      }
    }
  }

  /** A group without epochs adds nothing. */
  lemma OccurrencesAppend(groups: seq<PlannedGroup>, g: PlannedGroup)
    ensures Occurrences(groups + [g]) == Occurrences(groups) + multiset(Locate(g.scope.groupId, g.epochs))
    ensures g.epochs == [] ==> multiset(Locate(g.scope.groupId, g.epochs)) == multiset{}
  {
    assert (groups + [g])[..|groups|] == groups;
    assert g.epochs == [] ==> Locate(g.scope.groupId, g.epochs) == [];
  }

  lemma SplitStep(all: seq<Located>, init: seq<Scope>, last: Scope)
    ensures Occurrences(Split(all, init + [last], None)) ==
            Occurrences(Split(all, init, None)) + multiset(Locate(last.groupId, Of(all, last.groupId)))
  {
    assert (init + [last])[..|init|] == init;
    OccurrencesAppend(Split(all, init, None), PlannedGroup(last, Of(all, last.groupId)));
  }

  lemma {:induction false} SplitCounts(all: seq<Located>, scopes: seq<Scope>, x: Located)
    requires DistinctScopes(scopes)
    ensures Occurrences(Split(all, scopes, None))[x] == if x.group in GroupIds(scopes) then multiset(all)[x] else 0
    decreases |scopes|
  {
    if scopes != [] {
      var init, last := scopes[..|scopes| - 1], scopes[|scopes| - 1];
      assert scopes == init + [last];
      GroupIdsStep(init, last);
      DistinctStep(init, last);
      SplitCounts(all, init, x);
      PartCounts(all, last.groupId, x);
      SplitStep(all, init, last);
    }
  }

  /**
   * Without a filter, the groups of a plan share out its epochs: the list is split by scope, in scope
   * order, and every epoch lands in exactly one group.
   */
  lemma PlanPartitionsEpochs(rules: Rules, entries: seq<Entry>, scopes: seq<Scope>)
    requires PlanOf(rules, entries, scopes, None).Ok?
    ensures var plan := PlanOf(rules, entries, scopes, None).value;
            plan.groups == Split(plan.allEpochs, scopes, None) && Occurrences(plan.groups) == multiset(plan.allEpochs)
  {
    var plan := PlanOf(rules, entries, scopes, None).value;
    GroupsAreSplit(Validated(rules, entries), scopes, None);
    NoErrorIff(rules, entries, GroupIds(scopes));
    forall x ensures Occurrences(plan.groups)[x] == multiset(plan.allEpochs)[x] {
      SplitCounts(plan.allEpochs, scopes, x);
      if x in plan.allEpochs {
        EpochsAreInScope(rules, entries, GroupIds(scopes), x);
      }
    }
  }

  lemma EpochsAreInScope(rules: Rules, entries: seq<Entry>, allowed: set<Uuid>, x: Located)
    requires Sound(rules, entries, allowed) && x in AllEpochs(Validated(rules, entries))
    ensures x.group in allowed
  {
    var m := Validated(rules, entries);
    var q := SortedIds(m.Keys);
    var i :| 0 <= i < |q| && AllEpochs(m)[i] == x;
    assert q[i] in q;
    var k := InsertedFrom(IdentityOf, Reader(rules), entries, q[i]);
    assert Fault(rules, entries[k], allowed).None?;
  }

  // ----- The current epoch

  /** `contains_current`: the first group with this id holds its scope's current epoch. */
  function ContainsCurrent(groups: seq<PlannedGroup>, id: Uuid): (r: bool) {
    if groups == [] then false
    else if groups[0].scope.groupId == id then HoldsCurrent(groups[0])
    else ContainsCurrent(groups[1..], id)
  }

  predicate HoldsCurrent(g: PlannedGroup) {
    exists k :: 0 <= k < |g.epochs| && Some(g.epochs[k].uuid) == g.scope.currentEpochUuid
  }

  lemma {:induction false} FindsGroup(groups: seq<PlannedGroup>, k: nat)
    requires k < |groups| && forall j :: 0 <= j < k ==> groups[j].scope.groupId != groups[k].scope.groupId
    ensures ContainsCurrent(groups, groups[k].scope.groupId) == HoldsCurrent(groups[k])
    decreases |groups|
  {
    if k > 0 {
      FindsGroup(groups[1..], k - 1);
    }
  }

  lemma {:induction false} FindsNone(groups: seq<PlannedGroup>, id: Uuid)
    requires forall j :: 0 <= j < |groups| ==> groups[j].scope.groupId != id
    ensures !ContainsCurrent(groups, id)
  {
    if groups != [] { FindsNone(groups[1..], id); }
  }

  /** Planned groups come from selected scopes, each with its own epochs; a scope with epochs is planned. */
  lemma {:induction false} GroupsComeFromScopes(m: map<Identity, Epoch>, scopes: seq<Scope>, filter: Option<Uuid>)
    requires DistinctScopes(scopes)
    ensures var groups := GroupsFor(m, scopes, filter);
            && (forall g <- groups :: g.scope in scopes && g.epochs == EpochsOf(m, g.scope.groupId))
            && (forall i, j :: 0 <= i < j < |groups| ==> groups[i].scope.groupId != groups[j].scope.groupId)
            && (forall s <- scopes :: Selected(filter, s) && EpochsOf(m, s.groupId) != [] ==>
                 PlannedGroup(s, EpochsOf(m, s.groupId)) in groups)
    decreases |scopes|
  {
    if scopes != [] {
      var init, last := scopes[..|scopes| - 1], scopes[|scopes| - 1];
      assert scopes == init + [last];
      DistinctStep(init, last);
      GroupsComeFromScopes(m, init, filter);
      assert forall g <- GroupsFor(m, init, filter) :: g.scope.groupId in GroupIds(init);
    }
  }

  lemma EpochsHoldUuidIff(rules: Rules, entries: seq<Entry>, allowed: set<Uuid>, group: Uuid, uuid: Uuid)
    requires Sound(rules, entries, allowed)
    ensures var epochs := EpochsOf(Validated(rules, entries), group);
            (exists k :: 0 <= k < |epochs| && epochs[k].uuid == uuid) <==>
              exists e <- entries :: e.groupId == group && e.epochUuid == uuid
  {
    var m := Validated(rules, entries);
    var q, epochs := SortedIds(IdsIn(m.Keys, group)), EpochsOf(m, group);
    if k :| 0 <= k < |epochs| && epochs[k].uuid == uuid {
      assert q[k] in q;
      var j := InsertedFrom(IdentityOf, Reader(rules), entries, q[k]);
      assert entries[j] in entries;
    }
    if e :| e in entries && e.groupId == group && e.epochUuid == uuid {
      InsertedHolds(IdentityOf, Reader(rules), entries, e);
      assert IdentityOf(e) in q;
      var k :| 0 <= k < |q| && q[k] == IdentityOf(e);
      var j := InsertedFrom(IdentityOf, Reader(rules), entries, IdentityOf(e));
      assert Fault(rules, e, allowed).None? && Fault(rules, entries[j], allowed).None?;
      assert epochs[k].uuid == uuid;
    }
  }

  /**
   * For a selected scope, the plan reports the current epoch as available exactly when the scope
   * names one and some entry of that group carries it.
   */
  lemma CurrentAvailableIff(rules: Rules, entries: seq<Entry>, scopes: seq<Scope>, filter: Option<Uuid>, scope: Scope)
    requires PlanOf(rules, entries, scopes, filter).Ok? && scope in scopes && Selected(filter, scope)
    ensures ContainsCurrent(PlanOf(rules, entries, scopes, filter).value.groups, scope.groupId) <==>
            && scope.currentEpochUuid.Some?
            && exists e <- entries :: e.groupId == scope.groupId && e.epochUuid == scope.currentEpochUuid.value
  {
    var m := Validated(rules, entries);
    var groups, epochs := GroupsFor(m, scopes, filter), EpochsOf(m, scope.groupId);
    NoErrorIff(rules, entries, GroupIds(scopes));
    GroupsComeFromScopes(m, scopes, filter);
    if scope.currentEpochUuid.Some? {
      EpochsHoldUuidIff(rules, entries, GroupIds(scopes), scope.groupId, scope.currentEpochUuid.value);
    }
    if epochs != [] {
      var g := PlannedGroup(scope, epochs);
      var k :| 0 <= k < |groups| && groups[k] == g;
      FindsGroup(groups, k);
    } else {
      forall j | 0 <= j < |groups| ensures groups[j].scope.groupId != scope.groupId {
        assert groups[j] in groups;
        NonemptyGroup(m, scopes, filter, groups[j]);
      }
      FindsNone(groups, scope.groupId);
    }
  }

  lemma {:induction false} NonemptyGroup(m: map<Identity, Epoch>, scopes: seq<Scope>, filter: Option<Uuid>,
                                         g: PlannedGroup)
    requires g in GroupsFor(m, scopes, filter)
    ensures EpochsOf(m, g.scope.groupId) != []
    decreases |scopes|
  {
    if scopes != [] && g in GroupsFor(m, scopes[..|scopes| - 1], filter) {
      NonemptyGroup(m, scopes[..|scopes| - 1], filter, g);
    }
  }

  // ----- Order and repetition

  /** Equal but for the date. */
  ghost predicate SameKey(a: Located, b: Located) {
    a.group == b.group && a.epoch.number == b.epoch.number && a.epoch.uuid == b.epoch.uuid && a.epoch.key == b.epoch.key
  }

  ghost predicate SameKeys(a: seq<Located>, b: seq<Located>) {
    |a| == |b| && forall i :: 0 <= i < |a| ==> SameKey(a[i], b[i])
  }

  ghost predicate SameEpochs(a: seq<Epoch>, b: seq<Epoch>) {
    |a| == |b| && forall i :: 0 <= i < |a| ==> a[i].(createdAt := 0) == b[i].(createdAt := 0)
  }

  ghost predicate SameGroups(a: seq<PlannedGroup>, b: seq<PlannedGroup>) {
    |a| == |b| && forall i :: 0 <= i < |a| ==> a[i].scope == b[i].scope && SameEpochs(a[i].epochs, b[i].epochs)
  }

  lemma {:induction false} SameParts(a: seq<Located>, b: seq<Located>, group: Uuid)
    requires SameKeys(a, b)
    ensures SameEpochs(Of(a, group), Of(b, group))
    decreases |a|
  {
    if a != [] {
      SameParts(a[..|a| - 1], b[..|b| - 1], group);
      assert SameKey(a[|a| - 1], b[|b| - 1]);
    }
  }

  lemma {:induction false} SameSplits(a: seq<Located>, b: seq<Located>, scopes: seq<Scope>, filter: Option<Uuid>)
    requires SameKeys(a, b)
    ensures SameGroups(Split(a, scopes, filter), Split(b, scopes, filter))
    decreases |scopes|
  {
    if scopes != [] {
      SameSplits(a, b, scopes[..|scopes| - 1], filter);
      SameParts(a, b, scopes[|scopes| - 1].groupId);
    }
  }

  lemma SameAllEpochs(rules: Rules, entries: seq<Entry>, other: seq<Entry>, allowed: set<Uuid>)
    requires (forall e :: e in entries <==> e in other) && Sound(rules, entries, allowed)
    ensures SameKeys(AllEpochs(Validated(rules, entries)), AllEpochs(Validated(rules, other)))
  {
    var m, n := Validated(rules, entries), Validated(rules, other);
    assert m.Keys == n.Keys by {
      forall id ensures id in m <==> id in n {
        SameIdentities(rules, entries, other, id);
        SameIdentities(rules, other, entries, id);
      }
    }
    var q := SortedIds(m.Keys);
    forall i | 0 <= i < |q| ensures SameKey(AllEpochs(m)[i], AllEpochs(n)[i]) {
      assert q[i] in q;
      SameEpoch(rules, entries, other, q[i], allowed);
    }
  }

  /**
   * Reordering or repeating entries changes neither whether there is a plan, nor which groups it has, nor
   * any number, identifier or key in it, with a filter or without.
   */
  lemma PlanIgnoresOrder(rules: Rules, entries: seq<Entry>, other: seq<Entry>, scopes: seq<Scope>, filter: Option<Uuid>)
    requires forall e :: e in entries <==> e in other
    ensures var p, q := PlanOf(rules, entries, scopes, filter), PlanOf(rules, other, scopes, filter);
            && (p.Ok? <==> q.Ok?)
            && (p.Ok? ==> SameKeys(p.value.allEpochs, q.value.allEpochs) && SameGroups(p.value.groups, q.value.groups))
  {
    PlanExistsIff(rules, entries, scopes, filter);
    PlanExistsIff(rules, other, scopes, filter);
    if PlanOf(rules, entries, scopes, filter).Ok? {
      var m, n := Validated(rules, entries), Validated(rules, other);
      SameAllEpochs(rules, entries, other, GroupIds(scopes));
      GroupsAreSplit(m, scopes, filter);
      GroupsAreSplit(n, scopes, filter);
      SameSplits(AllEpochs(m), AllEpochs(n), scopes, filter);
    }
  }

  lemma SameIdentities(rules: Rules, entries: seq<Entry>, other: seq<Entry>, id: Identity)
    requires forall e :: e in entries ==> e in other
    ensures id in Validated(rules, entries) ==> id in Validated(rules, other)
  {
    if id in Validated(rules, entries) {
      var k := InsertedFrom(IdentityOf, Reader(rules), entries, id);
      InsertedHolds(IdentityOf, Reader(rules), other, entries[k]);
    }
  }

  lemma SameEpoch(rules: Rules, entries: seq<Entry>, other: seq<Entry>, id: Identity, allowed: set<Uuid>)
    requires forall e :: e in entries <==> e in other
    requires id in Validated(rules, entries) && id in Validated(rules, other)
    requires Sound(rules, entries, allowed)
    ensures var a, b := Validated(rules, entries)[id], Validated(rules, other)[id];
            a.number == b.number && a.uuid == b.uuid && a.key == b.key
  {
    var j := InsertedFrom(IdentityOf, Reader(rules), entries, id);
    var k := InsertedFrom(IdentityOf, Reader(rules), other, id);
    var x, y := entries[j], other[k];
    assert x in entries && y in entries;
    assert Fault(rules, x, allowed).None? && Fault(rules, y, allowed).None?;
  }

  // ----- The program

  /** The loop that fills the map. */
  method ScanEntries(rules: Rules, entries: seq<Entry>, allowed: set<Uuid>)
    returns (r: Result<map<Identity, Epoch>, PlanError>)
    ensures var error := FirstError(rules, entries, allowed);
            r == if error.Some? then Err(error.value) else Ok(Validated(rules, entries))
  {
    var validated: map<Identity, Epoch> := map[];
    for k := 0 to |entries|
      invariant validated == Validated(rules, entries[..k]) && FirstError(rules, entries[..k], allowed).None?
    {
      var e := entries[k];
      ScanStep(Checks(rules, allowed), entries, k);
      if e.epochNumber == 0 || e.epochUuid != rules.epochUuid(e.epochNumber, e.groupId) {
        return Err(WrongIdentifier);
      }
      var decoded := rules.decodeKey(e.encryptionKeyB64);
      if decoded.None? {
        return Err(InvalidEncoding);
      }
      if !UsableKey(decoded.value) {
        return Err(InvalidKey);
      }
      if e.groupId !in allowed {
        return Err(OutsideMemberships);
      }
      var identity := Identity(e.groupId, e.epochNumber);
      if identity in validated {
        if validated[identity].key != decoded.value {
          return Err(ConflictingKeys);
        }
      } else {
        validated := validated[identity := Epoch(e.epochNumber, e.epochUuid, e.createdAt, decoded.value)];
      }
    }
    assert entries[..|entries|] == entries;
    return Ok(validated);
  }

  /** Take the epochs of one group out of the map, in ascending order; every key taken is there. */
  method Drain(validated: map<Identity, Epoch>, group: Uuid) returns (epochs: seq<Epoch>, rest: map<Identity, Epoch>)
    ensures epochs == EpochsOf(validated, group)
    ensures rest == validated - IdsIn(validated.Keys, group)
  {
    RankInjective();
    var identities := SortKeys((set i | i in validated.Keys && i.group == group), Rank);
    ListIsUnique(identities, SortedIds(IdsIn(validated.Keys, group)), IdsIn(validated.Keys, group), Rank);
    epochs, rest := [], validated;
    for k := 0 to |identities|
      invariant epochs == EpochsOf(validated, group)[..k]
      invariant rest == validated - Elements(identities[..k])
    {
      var id := identities[k];
      assert id in identities && id !in identities[..k];
      assert id in rest;
      epochs := epochs + [rest[id]];
      rest := rest - {id};
      assert Elements(identities[..k + 1]) == Elements(identities[..k]) + {id};
    }
    assert identities[..|identities|] == identities;
  }

  /** The loop that hands the epochs out, removing each from the map. */
  method PlanGroups(all: map<Identity, Epoch>, scopes: seq<Scope>, filter: Option<Uuid>)
    returns (groups: seq<PlannedGroup>)
    requires DistinctScopes(scopes)
    ensures groups == GroupsFor(all, scopes, filter)
  {
    groups := [];
    var left := all;
    for k := 0 to |scopes|
      invariant groups == GroupsFor(all, scopes[..k], filter)
      invariant forall i :: i in left ==> i in all && left[i] == all[i]
      invariant forall i :: i in all && i.group !in GroupIds(scopes[..k]) ==> i in left
    {
      var scope := scopes[k];
      assert scopes[..k + 1][..k] == scopes[..k] && scopes[..k + 1][k] == scope;
      assert scope.groupId !in GroupIds(scopes[..k]);
      assert GroupIds(scopes[..k]) <= GroupIds(scopes[..k + 1]) && scope.groupId in GroupIds(scopes[..k + 1]);
      if Selected(filter, scope) {
        SameGroup(all, left, scope.groupId);
        var epochs;
        epochs, left := Drain(left, scope.groupId);
        if |epochs| > 0 {
          groups := groups + [PlannedGroup(scope, epochs)];
        }
      }
    }
    assert scopes[..|scopes|] == scopes;
  }

  lemma SameGroup(all: map<Identity, Epoch>, left: map<Identity, Epoch>, group: Uuid)
    requires forall i :: i in left ==> i in all && left[i] == all[i]
    requires forall i :: i in all && i.group == group ==> i in left
    ensures EpochsOf(left, group) == EpochsOf(all, group)
  {
    var ids := IdsIn(left.Keys, group);
    assert ids == IdsIn(all.Keys, group);
    var q := SortedIds(ids);
    assert forall i <- q :: i in left && i in all;
    assert EpochList(left, q) == EpochList(all, q);
  }

  lemma DistinctStep(init: seq<Scope>, last: Scope)
    ensures DistinctScopes(init + [last]) <==> DistinctScopes(init) && last.groupId !in GroupIds(init)
  {
    var scopes := init + [last];
    if DistinctScopes(scopes) {
      forall s <- init ensures s.groupId != last.groupId {
        var k :| 0 <= k < |init| && init[k] == s;
        assert scopes[k].groupId != scopes[|init|].groupId;
      }
      forall i, j | 0 <= i < j < |init| ensures init[i].groupId != init[j].groupId {
        assert scopes[i].groupId != scopes[j].groupId;
      }
    }
    if last.groupId !in GroupIds(init) {
      assert forall k :: 0 <= k < |init| ==> init[k] in init && init[k].groupId in GroupIds(init);
    }
  }

  lemma GroupIdsStep(init: seq<Scope>, last: Scope)
    ensures GroupIds(init + [last]) == GroupIds(init) + {last.groupId}
  {
    assert forall s :: s in init + [last] <==> s in init || s == last;
  }

  lemma {:induction false} DistinctIffAllCounted(scopes: seq<Scope>)
    ensures |GroupIds(scopes)| <= |scopes|
    ensures |GroupIds(scopes)| == |scopes| <==> DistinctScopes(scopes)
    decreases |scopes|
  {
    if scopes != [] {
      var init, last := scopes[..|scopes| - 1], scopes[|scopes| - 1];
      assert scopes == init + [last];
      DistinctIffAllCounted(init);
      GroupIdsStep(init, last);
      DistinctStep(init, last);
    }
  }

  method ValidateForGroups(rules: Rules, entries: seq<Entry>, scopes: seq<Scope>, filter: Option<Uuid>)
    returns (r: Result<Plan, PlanError>)
    ensures r == PlanOf(rules, entries, scopes, filter)
  {
    var allowed := GroupIds(scopes);
    DistinctIffAllCounted(scopes);
    if |allowed| != |scopes| {
      return Err(DuplicateScopes);
    }
    if filter.Some? && filter.value !in allowed {
      return Err(GroupNotAuthorized);
    }
    var scanned := ScanEntries(rules, entries, allowed);
    if scanned.Err? {
      return Err(scanned.error);
    }
    var validated := scanned.value;
    RankInjective();
    var identities := SortKeys(validated.Keys, Rank);
    ListIsUnique(identities, SortedIds(validated.Keys), validated.Keys, Rank);
    var allEpochs := LocatedList(validated, identities);
    var groups := PlanGroups(validated, scopes, filter);
    if |groups| == 0 {
      return Err(NothingRecoverable);
    }
    return Ok(Plan(groups, allEpochs));
  }
}
