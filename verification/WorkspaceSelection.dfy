/**
 * Overlapping workspace selections, reconciliations and sign-outs in the desktop app. The methods are
 * asynchronous: each runs up to its next `await` in one go, and between awaits any other call may run.
 */
module WorkspaceSelection {
  import opened Wrappers

  datatype Workspace = Personal | Team

  /** What the backend answers for a workspace. */
  datatype Context = Context(groupId: string, readiness: string)

  /** A context the app shows, with the generation of the call that fetched it. */
  datatype Shown = Shown(context: Context, generation: nat)

  datatype App = App(
    user: Option<string>,
    device: Option<string>,
    loggedIn: bool,
    generation: nat,
    sequence: nat,
    workspace: Workspace,
    context: Option<Shown>)

  /** What a call remembers from when it began. */
  datatype Scope =
    | Select(user: Option<string>, device: Option<string>, generation: nat, sequence: nat, workspace: Workspace,
             preserve: bool, previousWorkspace: Workspace, previous: Option<Shown>)
    | Reconcile(user: Option<string>, device: Option<string>, generation: nat, sequence: nat, workspace: Workspace,
                groupId: string)

  /** What a call is waiting for. */
  datatype Phase =
    | Fetching
    | Switching(preferred: string)
    | Refetching(preferred: string)
    | LoadingFolders
    | Restoring
    | Finished

  datatype Call = Call(scope: Scope, phase: Phase)

  datatype State = State(app: App, calls: seq<Call>)

  /**
   * An awaited operation ends: it throws, or it answers. `preferred` is the stored group preference
   * read then, `accepted` whether the checks of that point pass, `resolved` whether the group is usable.
   */
  datatype Answer =
    | Thrown
    | Answered(context: Option<Context>, preferred: Option<string>, accepted: bool, resolved: bool)

  datatype Event =
    | BeginSelect(workspace: Workspace, preserveOnFailure: bool)
    | BeginReconcile
    | Resume(id: nat, answer: Answer)
    | SignOut
    | Account(user: Option<string>, device: Option<string>, loggedIn: bool)
    | ClearContext

  /** The `current()` closure of each method. */
  predicate Current(app: App, s: Scope) {
    && app.loggedIn && app.user == s.user && app.device == s.device
    && app.generation == s.generation && app.sequence == s.sequence
    && (s.Reconcile? ==> app.workspace == s.workspace && app.context.Some?
                         && app.context.value.context.groupId == s.groupId)
  }

  /** What one uninterrupted stretch of a call does: the app after it and the next wait. */
  datatype Reply = Reply(app: App, phase: Phase)

  /** The group a Team selection insists on; a Personal one leaves the choice to the backend. */
  function Wanted(s: Scope, preferred: Option<string>): (r: Option<string>) {
    if s.workspace.Team? then preferred else None
  }

  predicate IsGroup(context: Option<Context>, groupId: string) {
    context.Some? && context.value.groupId == groupId
  }

  /** The `catch` block of a selection. */
  function Catch(app: App, s: Scope): (r: Reply)
    requires s.Select?
  {
    Reply(app, if Current(app, s) && s.preserve then Restoring else Finished)
  }

  function AsShown(context: Option<Context>, generation: nat): (r: Option<Shown>) {
    match context case None => None case Some(c) => Some(Shown(c, generation))
  }

  /** A fetched context is put in place, unless the checks of a preserving selection throw. */
  function Install(app: App, s: Scope, context: Option<Context>, accepted: bool, resolved: bool): (r: Reply)
    requires s.Select?
  {
    if s.preserve && !accepted then Catch(app, s)
    else
      var placed := if s.preserve then app.(workspace := s.workspace) else app;
      Reply(placed.(context := AsShown(context, s.generation)), if resolved then LoadingFolders else Finished)
  }

  function ResumeSelect(app: App, s: Scope, phase: Phase, a: Answer): (r: Reply)
    requires s.Select?
  {
    match phase
    case Fetching =>
      if a.Thrown? then Catch(app, s)
      else if !Current(app, s) then Reply(app, Finished)
      else
        var wanted := Wanted(s, a.preferred);
        if wanted.Some? && !IsGroup(a.context, wanted.value) then Reply(app, Switching(wanted.value))
        else Install(app, s, a.context, a.accepted, a.resolved)
    case Switching(preferred) =>
      if a.Thrown? then Catch(app, s)
      else if !Current(app, s) then Reply(app, Finished)
      else Reply(app, Refetching(preferred))
    case Refetching(preferred) =>
      if a.Thrown? then Catch(app, s)
      else if !Current(app, s) then Reply(app, Finished)
      else if !IsGroup(a.context, preferred) then Catch(app, s)
      else Install(app, s, a.context, a.accepted, a.resolved)
    case LoadingFolders => if a.Thrown? then Catch(app, s) else Reply(app, Finished)
    case Restoring =>
      if !Current(app, s) then Reply(app, Finished)
      else Reply(app.(workspace := s.previousWorkspace, context := s.previous), Finished)
    case Finished => Reply(app, Finished)
  }

  function ResumeReconcile(app: App, s: Scope, phase: Phase, a: Answer): (r: Reply)
    requires s.Reconcile?
  {
    if phase.Fetching? && a.Answered? && Current(app, s) && a.accepted && IsGroup(a.context, s.groupId)
    then Reply(app.(context := AsShown(a.context, s.generation)), Finished)
    else Reply(app, Finished)
  }

  function ResumeCall(app: App, c: Call, a: Answer): (r: Reply) {
    if c.scope.Select? then ResumeSelect(app, c.scope, c.phase, a) else ResumeReconcile(app, c.scope, c.phase, a)
  }

  function Step(s: State, e: Event): (r: State) {
    var app := s.app;
    match e
    case BeginSelect(workspace, preserveOnFailure) =>
      var preserve := preserveOnFailure && app.workspace != workspace;
      var numbered := app.(sequence := app.sequence + 1);
      var scope := Select(app.user, app.device, app.generation, app.sequence + 1, workspace,
                          preserve, app.workspace, app.context);
      State(if preserve then numbered else numbered.(workspace := workspace, context := None),
            s.calls + [Call(scope, Fetching)])
    case BeginReconcile =>
      if app.context.None? || !app.loggedIn then s
      else
        var scope := Reconcile(app.user, app.device, app.generation, app.sequence, app.workspace,
                               app.context.value.context.groupId);
        s.(calls := s.calls + [Call(scope, Fetching)])
    case Resume(id, a) =>
      if id >= |s.calls| then s
      else
        var r := ResumeCall(app, s.calls[id], a);
        State(r.app, s.calls[id := s.calls[id].(phase := r.phase)])
    case SignOut => s.(app := app.(generation := app.generation + 1, sequence := app.sequence + 1, context := None))
    case Account(user, device, loggedIn) => s.(app := app.(user := user, device := device, loggedIn := loggedIn))
    case ClearContext => s.(app := app.(context := None))
  }

  /** A call that resumes changes nothing of the app unless it is current, and then only workspace and context. */
  lemma OnlyCurrentCallsWrite(s: State, e: Event)
    requires e.Resume?
    ensures var after := Step(s, e).app;
            && after == s.app.(workspace := after.workspace, context := after.context)
            && (after != s.app ==> e.id < |s.calls| && Current(s.app, s.calls[e.id].scope))
  {
  }

  /** Starting a selection and signing out make every earlier call stale. */
  predicate Supersedes(e: Event) {
    e.BeginSelect? || e.SignOut?
  }

  function Run(s: State, events: seq<Event>): (r: State)
    decreases |events|
  {
    if events == [] then s else Step(Run(s, events[..|events| - 1]), events[|events| - 1])
  }

  function At(s: State, events: seq<Event>, k: nat): (r: State)
    requires k <= |events|
  {
    Run(s, events[..k])
  }

  lemma AtNext(s: State, events: seq<Event>, k: nat)
    requires k < |events|
    ensures At(s, events, k + 1) == Step(At(s, events, k), events[k])
  {
    assert events[..k + 1][..k] == events[..k];
  }

  /** Numbers never fall, a superseding event raises the sequence, and calls keep their scopes. */
  lemma StepAdvances(s: State, e: Event)
    ensures var r := Step(s, e);
            && s.app.sequence + (if Supersedes(e) then 1 else 0) <= r.app.sequence
            && s.app.generation + (if e.SignOut? then 1 else 0) == r.app.generation
            && |s.calls| <= |r.calls|
            && forall id :: 0 <= id < |s.calls| ==> r.calls[id].scope == s.calls[id].scope
  {
  }

  lemma {:induction false} RunAdvances(s: State, events: seq<Event>, i: nat, j: nat)
    requires i <= j <= |events|
    ensures var a, b := At(s, events, i), At(s, events, j);
            && a.app.sequence <= b.app.sequence && a.app.generation <= b.app.generation && |a.calls| <= |b.calls|
            && forall id :: 0 <= id < |a.calls| ==> b.calls[id].scope == a.calls[id].scope
    decreases j
  {
    if i < j {
      RunAdvances(s, events, i, j - 1);
      AtNext(s, events, j - 1);
      StepAdvances(At(s, events, j - 1), events[j - 1]);
    }
  }

  /** Event `e` begins a new call. */
  predicate Begins(s: State, e: Event) {
    |Step(s, e).calls| > |s.calls|
  }

  lemma BeginsWithSequence(s: State, e: Event)
    requires Begins(s, e)
    ensures var r := Step(s, e);
            |r.calls| == |s.calls| + 1 && r.calls[|s.calls|].scope.sequence == r.app.sequence
            && r.calls[|s.calls|].scope.generation == r.app.generation
  {
  }

  /** Event `e` resumes a call that something has superseded. */
  predicate ResumesStale(s: State, e: Event) {
    e.Resume? && e.id < |s.calls| && s.calls[e.id].scope.sequence < s.app.sequence
  }

  lemma SequenceRises(s: State, events: seq<Event>, i: nat, j: nat)
    requires i < j <= |events| && Supersedes(events[i])
    ensures At(s, events, i).app.sequence < At(s, events, j).app.sequence
  {
    AtNext(s, events, i);
    StepAdvances(At(s, events, i), events[i]);
    RunAdvances(s, events, i + 1, j);
  }

  lemma SupersededIsStale(s: State, events: seq<Event>, b: nat, i: nat, j: nat)
    requires b < i < j <= |events|
    requires Begins(At(s, events, b), events[b]) && Supersedes(events[i])
    ensures var id, r := |At(s, events, b).calls|, At(s, events, j);
            id < |r.calls| && r.calls[id].scope.sequence < r.app.sequence
  {
    AtNext(s, events, b);
    BeginsWithSequence(At(s, events, b), events[b]);
    RunAdvances(s, events, b + 1, i);
    RunAdvances(s, events, b + 1, j);
    SequenceRises(s, events, i, j);
  }

  /**
   * In every interleaving: a call begun at event `b` leaves the whole app as it is at event `j` when a
   * selection was started or the account signed out in between, at event `i`.
   */
  lemma StaleCallsNeverWrite(s: State, events: seq<Event>, b: nat, i: nat, j: nat)
    requires b < i < j < |events|
    requires Begins(At(s, events, b), events[b]) && Supersedes(events[i])
    requires events[j].Resume? && events[j].id == |At(s, events, b).calls|
    ensures Step(At(s, events, j), events[j]).app == At(s, events, j).app
  {
    SupersededIsStale(s, events, b, i, j);
    OnlyCurrentCallsWrite(At(s, events, j), events[j]);
  }

  /** A run without the answers that came to superseded calls. */
  function Live(s: State, events: seq<Event>): (r: seq<Event>)
    decreases |events|
  {
    if events == [] then []
    else
      var before := events[..|events| - 1];
      var last := events[|events| - 1];
      Live(s, before) + if ResumesStale(Run(s, before), last) then [] else [last]
  }

  /** The same app and the same calls, except for where superseded calls are waiting. */
  ghost predicate Alike(a: State, b: State) {
    && a.app == b.app && |a.calls| == |b.calls|
    && forall id :: 0 <= id < |a.calls| ==>
         && a.calls[id].scope == b.calls[id].scope
         && (a.calls[id].phase == b.calls[id].phase || a.calls[id].scope.sequence < a.app.sequence)
  }

  lemma LiveStepKeepsAlike(a: State, b: State, e: Event)
    requires Alike(a, b) && !ResumesStale(b, e)
    ensures Alike(Step(a, e), Step(b, e))
  {
    if e.Resume? {
      if e.id < |a.calls| {
        assert a.calls[e.id] == b.calls[e.id];
      }
    }
  }

  lemma StaleStepKeepsAlike(a: State, b: State, e: Event)
    requires Alike(a, b) && ResumesStale(b, e)
    ensures Alike(a, Step(b, e))
  {
    OnlyCurrentCallsWrite(b, e);
  }

  lemma RunLast(s: State, events: seq<Event>, e: Event)
    ensures Run(s, events + [e]) == Step(Run(s, events), e)
  {
    assert (events + [e])[..|events|] == events;
  }

  /**
   * In every interleaving the answers to superseded calls might as well never have come: without them the
   * app goes through the same run, and every call that still counts waits at the same place.
   */
  lemma {:induction false} StaleAnswersMightAsWellBeLost(s: State, events: seq<Event>)
    ensures Alike(Run(s, Live(s, events)), Run(s, events))
    decreases |events|
  {
    if events != [] {
      var before := events[..|events| - 1];
      var last := events[|events| - 1];
      StaleAnswersMightAsWellBeLost(s, before);
      var a, b := Run(s, Live(s, before)), Run(s, before);
      if ResumesStale(b, last) {
        assert Live(s, events) == Live(s, before);
        StaleStepKeepsAlike(a, b, last);
      } else {
        RunLast(s, Live(s, before), last);
        LiveStepKeepsAlike(a, b, last);
      }
    }
  }

  /** Everything shown, and everything a live call could restore, was fetched in the present generation. */
  ghost predicate Fresh(s: State) {
    && (s.app.context.Some? ==> s.app.context.value.generation == s.app.generation)
    && (forall c <- s.calls :: c.scope.generation <= s.app.generation)
    && (forall c <- s.calls :: c.scope.Select? && c.scope.previous.Some?
                               ==> c.scope.previous.value.generation == c.scope.generation)
  }

  lemma ResumeKeepsFresh(s: State, e: Event)
    requires Fresh(s) && e.Resume? && e.id < |s.calls|
    ensures Fresh(Step(s, e))
  {
    OnlyCurrentCallsWrite(s, e);
    var c := s.calls[e.id];
    assert c in s.calls;
    var r := ResumeCall(s.app, c, e.answer);
    assert r.app.generation == s.app.generation;
    assert r.app.context.Some? ==> r.app.context.value.generation == s.app.generation;
    forall d <- Step(s, e).calls ensures exists c <- s.calls :: c.scope == d.scope {
      var k :| 0 <= k < |s.calls| && Step(s, e).calls[k] == d;
      assert s.calls[k].scope == d.scope;
    }
  }

  lemma StepKeepsFresh(s: State, e: Event)
    requires Fresh(s)
    ensures Fresh(Step(s, e))
  {
    if e.Resume? {
      if e.id < |s.calls| { ResumeKeepsFresh(s, e); }
    }
  }

  /**
   * In every interleaving, the context on show was fetched by a call begun since the latest sign-out:
   * nothing from before it is ever installed or restored, by any call.
   */
  lemma {:induction false} NothingOutlivesSignOut(s: State, events: seq<Event>)
    requires Fresh(s)
    ensures Fresh(Run(s, events))
    decreases |events|
  {
    if events != [] {
      NothingOutlivesSignOut(s, events[..|events| - 1]);
      StepKeepsFresh(Run(s, events[..|events| - 1]), events[|events| - 1]);
    }
  }

  /**
   * Selections carry rising numbers, none above the app's; while a selection that did not wait for its
   * answer to show its workspace is the latest, that workspace is the one on show.
   */
  ghost predicate InOrder(s: State) {
    && (forall i :: 0 <= i < |s.calls| ==> s.calls[i].scope.sequence <= s.app.sequence)
    && (forall i, j :: 0 <= i < j < |s.calls| && s.calls[i].scope.Select? && s.calls[j].scope.Select?
                       ==> s.calls[i].scope.sequence < s.calls[j].scope.sequence)
    && (forall i :: 0 <= i < |s.calls| ==> Placed(s.app, s.calls[i]))
  }

  predicate Placed(app: App, c: Call) {
    c.scope.Select? && !c.scope.preserve ==>
      !c.phase.Restoring? && (c.scope.sequence == app.sequence ==> app.workspace == c.scope.workspace)
  }

  lemma ResumeKeepsPlaced(s: State, e: Event, i: nat)
    requires InOrder(s) && e.Resume? && e.id < |s.calls| && i < |s.calls|
    ensures Placed(Step(s, e).app, Step(s, e).calls[i])
  {
    OnlyCurrentCallsWrite(s, e);
    if i != e.id && s.calls[i].scope.Select? && s.calls[e.id].scope.Select? {
      assert s.calls[i].scope.sequence != s.calls[e.id].scope.sequence;
    }
    assert Placed(s.app, s.calls[i]);
  }

  lemma StepKeepsPlaced(s: State, e: Event, i: nat)
    requires InOrder(s) && i < |Step(s, e).calls|
    ensures Placed(Step(s, e).app, Step(s, e).calls[i])
  {
    if i < |s.calls| {
      assert Placed(s.app, s.calls[i]);
      if e.Resume? {
        if e.id < |s.calls| { ResumeKeepsPlaced(s, e, i); }
      }
    }
  }

  lemma StepKeepsInOrder(s: State, e: Event)
    requires InOrder(s)
    ensures InOrder(Step(s, e))
  {
    StepAdvances(s, e);
    forall i | 0 <= i < |Step(s, e).calls| ensures Placed(Step(s, e).app, Step(s, e).calls[i]) {
      StepKeepsPlaced(s, e, i);
    }
  }

  lemma {:induction false} RunKeepsInOrder(s: State, events: seq<Event>)
    requires InOrder(s)
    ensures InOrder(Run(s, events))
    decreases |events|
  {
    if events != [] {
      RunKeepsInOrder(s, events[..|events| - 1]);
      StepKeepsInOrder(Run(s, events[..|events| - 1]), events[|events| - 1]);
    }
  }

  /** Answer `a` is the context a selection waits for at `phase`, and its checks pass. */
  predicate Succeeds(s: Scope, phase: Phase, a: Answer)
    requires s.Select?
  {
    && a.Answered? && (s.preserve ==> a.accepted)
    && match phase
       case Fetching => Wanted(s, a.preferred).None? || IsGroup(a.context, Wanted(s, a.preferred).value)
       case Refetching(preferred) => IsGroup(a.context, preferred)
       case _ => false
  }

  /** At `phase`, answer `a` makes the selection throw: it failed, named another group, or was refused. */
  predicate Fails(s: Scope, phase: Phase, a: Answer)
    requires s.Select?
  {
    match phase
    case Fetching =>
      a.Thrown? || (s.preserve && !a.accepted
                    && (Wanted(s, a.preferred).None? || IsGroup(a.context, Wanted(s, a.preferred).value)))
    case Switching(_) => a.Thrown?
    case Refetching(preferred) => a.Thrown? || !IsGroup(a.context, preferred) || (s.preserve && !a.accepted)
    case LoadingFolders => a.Thrown?
    case _ => false
  }

  /** The call begun at event `b` is a selection with the scope that its beginning captured. */
  lemma SelectionCaptures(s: State, events: seq<Event>, b: nat, j: nat)
    requires b < j <= |events| && events[b].BeginSelect?
    ensures var begun, now := At(s, events, b), At(s, events, j);
            var id := |begun.calls|;
            && id < |now.calls| && now.calls[id].scope.Select?
            && var scope := now.calls[id].scope;
               && scope.workspace == events[b].workspace && scope.generation == begun.app.generation
               && scope.previousWorkspace == begun.app.workspace && scope.previous == begun.app.context
               && scope.preserve == (events[b].preserveOnFailure && begun.app.workspace != events[b].workspace)
  {
    AtNext(s, events, b);
    RunAdvances(s, events, b + 1, j);
  }

  /**
   * The guard blocks no live selection, in any interleaving: if the selection begun at event `b` is still
   * current when, at event `j`, it gets the context it waits for, first or after switching the group,
   * that context and its workspace are on show.
   */
  lemma LiveSelectionInstalls(s: State, events: seq<Event>, b: nat, j: nat)
    requires InOrder(s) && b < j < |events| && events[b].BeginSelect?
    requires events[j].Resume? && events[j].id == |At(s, events, b).calls|
    requires events[j].id < |At(s, events, j).calls|
    requires var c := At(s, events, j).calls[events[j].id];
             c.scope.Select? && Current(At(s, events, j).app, c.scope) && Succeeds(c.scope, c.phase, events[j].answer)
    ensures var begun, done, a := At(s, events, b), At(s, events, j + 1), events[j].answer;
            && done.app.workspace == events[b].workspace && events[j].id < |done.calls|
            && done.app.context == AsShown(a.context, begun.app.generation)
            && done.calls[events[j].id].phase == if a.resolved then LoadingFolders else Finished
  {
    SelectionCaptures(s, events, b, j);
    AtNext(s, events, j);
    RunKeepsInOrder(s, events[..j]);
    assert Placed(At(s, events, j).app, At(s, events, j).calls[events[j].id]);
  }

  /**
   * A live selection that throws, at whatever it waits for, changes nothing yet; a preserving one goes on to
   * restore.
   */
  lemma FailureIsCaught(s: State, id: nat, a: Answer)
    requires id < |s.calls| && s.calls[id].scope.Select? && Current(s.app, s.calls[id].scope)
    requires Fails(s.calls[id].scope, s.calls[id].phase, a)
    ensures var r := Step(s, Resume(id, a));
            r.app == s.app && r.calls[id].phase == if s.calls[id].scope.preserve then Restoring else Finished
  {
  }

  lemma {:induction false} PhaseWaits(s: State, events: seq<Event>, id: nat, i: nat, k: nat)
    requires i <= k <= |events| && id < |At(s, events, i).calls|
    requires forall m :: i <= m < k ==> !(events[m].Resume? && events[m].id == id)
    ensures id < |At(s, events, k).calls| && At(s, events, k).calls[id] == At(s, events, i).calls[id]
    decreases k
  {
    if i < k {
      PhaseWaits(s, events, id, i, k - 1);
      AtNext(s, events, k - 1);
      assert !(events[k - 1].Resume? && events[k - 1].id == id);
    }
  }

  /**
   * A preserving selection begun at event `b` that throws at event `j`, wherever it waits, and is still
   * current when it resumes at event `k`, puts back the workspace and the context shown at `b`.
   */
  lemma FailedPreservingSelectionRestores(s: State, events: seq<Event>, b: nat, j: nat, k: nat)
    requires b < j < k < |events| && events[b].BeginSelect? && events[b].preserveOnFailure
    requires At(s, events, b).app.workspace != events[b].workspace
    requires events[j].Resume? && events[k].Resume? && events[j].id == events[k].id == |At(s, events, b).calls|
    requires forall m :: j < m < k ==> !(events[m].Resume? && events[m].id == events[j].id)
    requires events[j].id < |At(s, events, j).calls|
    requires var c := At(s, events, j).calls[events[j].id];
             && c.scope.Select? && Fails(c.scope, c.phase, events[j].answer)
             && Current(At(s, events, j).app, c.scope) && Current(At(s, events, k).app, c.scope)
    ensures At(s, events, j + 1).app == At(s, events, j).app
    ensures var begun, done := At(s, events, b).app, At(s, events, k + 1).app;
            done.workspace == begun.workspace && done.context == begun.context
  {
    var id := events[j].id;
    SelectionCaptures(s, events, b, j);
    AtNext(s, events, j);
    FailureIsCaught(At(s, events, j), id, events[j].answer);
    PhaseWaits(s, events, id, j + 1, k);
    AtNext(s, events, k);
  }
}
