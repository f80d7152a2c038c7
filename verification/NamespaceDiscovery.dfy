/**
  Dynamic namespace discovery as a protocol: a watcher turns namespace events
  into a token, and the main loop answers a token by resolving the selection
  again and, when it changed, replacing the running manager.

  Everything is proved for an arbitrary resolver `resolve`; NamespaceResolver
  gives the one the operator uses.
 */
module NamespaceDiscovery {
  import opened StringOrder
  import opened WatchConfig
  import opened NamespaceResolver

  type Cluster = set<Namespace>
  type Resolver = Cluster -> Selection

  /** Added, Modified and Deleted events signal a change; Bookmark and Error events do not. */
  datatype Event = Change | Other

  /** The watcher goroutine. A watch that the server has ended stays `Open` and is no longer live. */
  datatype Watch = Opening | Open(queue: seq<Event>, live: bool) | Stopped

  /** What runManager returns: nil, a context error, or any other error. */
  datatype Exit = Clean | Canceled | Failure

  /** A manager goroutine, until and after it has sent its result. */
  datatype Manager = Running(selection: Selection, canceled: bool) | Ended(exit: Exit)

  /** Where the main loop stands. */
  datatype Loop =
    | Starting
    | Waiting
    | Listing
    | Listed(answer: Selection)    // the API server has answered; what changes from here on is not in it
    | Restarting(next: Selection)
    | Stopping
    | Returned(error: Exit)

  datatype State = State(
    cluster: Cluster,
    done: bool,                    // the outer context is canceled
    watch: Watch,
    token: bool,                   // changeCh, of capacity one, is full
    loop: Loop,
    selection: Selection,
    managers: seq<Manager>,        // every manager goroutine ever started
    current: nat,                  // the one whose errCh the loop holds
    listFailed: bool,              // the last list call failed
    blind: bool)                   // the watch opened on an empty cluster, and no list was answered since
  {
    predicate Alive(id: nat) {
      id < |managers| && managers[id].Running?
    }

    predicate HasEnded() {
      current < |managers| && managers[current].Ended?
    }

    /** cancel() on the current manager's context. */
    function Cancel(): State {
      if Alive(current) then this.(managers := managers[current := managers[current].(canceled := true)]) else this
    }
  }

  datatype Step =
    | ClusterChanges(cluster: Cluster)
    | OtherEvent
    | WatchEnds(kept: nat)
    | ContextDone
    | ListFails
    | ManagerEnds(id: nat, exit: Exit)
    | OpenWatch
    | ReadEvent
    | ReadClosed
    | StopWatcher
    | Start
    | TakeDone
    | TakeExit
    | TakeToken
    | ListAnswered
    | ListReturns
    | ReceiveExit

  predicate Enabled(s: State, step: Step) {
    match step
    case ClusterChanges(_) => true
    case OtherEvent => s.watch.Open? && s.watch.live
    case WatchEnds(kept) => s.watch.Open? && s.watch.live && kept <= |s.watch.queue|
    case ContextDone => true
    case ListFails => s.loop.Listing? || s.loop.Listed?
    case ManagerEnds(id, _) => s.Alive(id)
    case OpenWatch => s.watch.Opening?
    case ReadEvent => s.watch.Open? && s.watch.queue != []
    case ReadClosed => s.watch.Open? && !s.watch.live && s.watch.queue == []
    case StopWatcher => s.done && !s.watch.Stopped?
    case Start => s.loop.Starting?
    case TakeDone => s.loop.Waiting? && s.done
    case TakeExit => s.loop.Waiting? && s.HasEnded()
    case TakeToken => s.loop.Waiting? && s.token
    case ListAnswered => s.loop.Listing?
    case ListReturns => s.loop.Listed?
    case ReceiveExit => (s.loop.Restarting? || s.loop.Stopping?) && s.HasEnded()
  }

  /** One event per existing namespace, as a watch without a resource version begins. */
  function InitialEvents(cluster: Cluster): (q: seq<Event>)
    ensures |q| == |cluster| && forall i :: 0 <= i < |q| ==> q[i] == Change
  {
    seq(|cluster|, _ => Change)
  }

  function Apply(resolve: Resolver, s: State, step: Step): State
    requires Enabled(s, step)
  {
    match step
    case ClusterChanges(cluster) =>
      var watch := if s.watch.Open? && s.watch.live then s.watch.(queue := s.watch.queue + [Change]) else s.watch;
      s.(cluster := cluster, watch := watch)
    case OtherEvent => s.(watch := s.watch.(queue := s.watch.queue + [Other]))
    case WatchEnds(kept) => s.(watch := Open(s.watch.queue[..kept], false))
    case ContextDone => s.(done := true)
    case ListFails => s.(loop := Waiting, listFailed := true)
    case ManagerEnds(id, exit) => s.(managers := s.managers[id := Ended(exit)])
    case OpenWatch => s.(watch := Open(InitialEvents(s.cluster), true), blind := s.cluster == {})
    case ReadEvent =>
      s.(watch := s.watch.(queue := s.watch.queue[1..]), token := s.token || s.watch.queue[0].Change?)
    case ReadClosed => s   // `break` leaves the select only: the watch is not opened again
    case StopWatcher => s.(watch := Stopped)
    case Start =>
      s.(managers := s.managers + [Running(s.selection, false)], current := |s.managers|, loop := Waiting)
    case TakeDone => s.Cancel().(loop := Stopping)
    case TakeExit => s.Cancel().(loop := Returned(s.managers[s.current].exit))
    case TakeToken => s.(token := false, loop := Listing)
    case ListAnswered => s.(loop := Listed(resolve(s.cluster)), listFailed := false, blind := false)
    case ListReturns =>
      if s.loop.answer == s.selection then s.(loop := Waiting)
      else s.Cancel().(loop := Restarting(s.loop.answer))
    case ReceiveExit =>
      var exit := s.managers[s.current].exit;
      if exit.Failure? then s.(loop := Returned(Failure))
      else if s.loop.Stopping? || s.done then
        s.(loop := Returned(Canceled), selection := if s.loop.Restarting? then s.loop.next else s.selection)
      else s.(loop := Starting, selection := s.loop.next)
  }

  /** The state when the first resolution has succeeded and the watcher goroutine is started. */
  predicate Init(resolve: Resolver, s: State) {
    && !s.done && s.watch.Opening? && !s.token && s.loop.Starting?
    && s.selection == resolve(s.cluster) && s.managers == [] && s.current == 0
    && !s.listFailed && !s.blind
  }

  /** `steps` leads from `s` to `t`. */
  ghost predicate Run(resolve: Resolver, s: State, steps: seq<Step>, t: State)
    decreases |steps|
  {
    if steps == [] then s == t
    else Enabled(s, steps[0]) && Run(resolve, Apply(resolve, s, steps[0]), steps[1..], t)
  }

  // ---- What every step keeps ----

  /** Only the current manager can be alive, and it watches the loop's selection. */
  ghost predicate OneManager(s: State) {
    && (forall id :: 0 <= id < |s.managers| && s.managers[id].Running? ==>
          id == s.current && s.managers[id].selection == s.selection)
    && (s.loop.Starting? || s.loop.Returned? ==> !s.Alive(s.current))
    && (!s.loop.Starting? && !s.loop.Returned? ==> s.current < |s.managers|)
    && (s.Alive(s.current) ==> (s.managers[s.current].canceled <==> s.loop.Restarting? || s.loop.Stopping?))
  }

  /** The selection the loop runs, or is about to run; an answered list counts as it was answered. */
  function Chosen(s: State): Selection {
    if s.loop.Restarting? then s.loop.next else if s.loop.Listed? then s.loop.answer else s.selection
  }

  /** A change not answered yet will still be noticed. */
  predicate Pending(s: State) {
    s.watch.Opening? || (s.watch.Open? && Change in s.watch.queue) || s.token || s.loop.Listing?
  }

  /** Why a change may go unnoticed: the list failed, the watch is over, or it began on an empty cluster. */
  predicate Deaf(s: State) {
    s.listFailed || s.blind || s.watch.Stopped? || (s.watch.Open? && !s.watch.live)
  }

  ghost predicate NoLostChange(resolve: Resolver, s: State) {
    Chosen(s) == resolve(s.cluster) || Pending(s) || Deaf(s) || s.loop.Returned?
  }

  /** Steps of the cluster, the context and the watcher. */
  predicate Outside(step: Step) {
    || step.ClusterChanges? || step.OtherEvent? || step.WatchEnds? || step.ContextDone?
    || step.OpenWatch? || step.ReadEvent? || step.ReadClosed? || step.StopWatcher?
  }

  lemma OutsideKeeps(resolve: Resolver, s: State, step: Step)
    requires Enabled(s, step) && Outside(step)
    ensures var t := Apply(resolve, s, step);
      t.managers == s.managers && t.current == s.current && t.loop == s.loop && t.selection == s.selection
  {
  }

  lemma OneManagerKept(resolve: Resolver, s: State, step: Step)
    requires OneManager(s) && Enabled(s, step)
    ensures OneManager(Apply(resolve, s, step))
  {
    if Outside(step) {
      OutsideKeeps(resolve, s, step);
    } else if step.Start? || step.ManagerEnds? {
      ManagersKeepOne(resolve, s, step);
    } else {
      LoopKeepsOne(resolve, s, step);
    }
  }

  lemma ManagersKeepOne(resolve: Resolver, s: State, step: Step)
    requires OneManager(s) && Enabled(s, step) && (step.Start? || step.ManagerEnds?)
    ensures OneManager(Apply(resolve, s, step))
  {
  }

  lemma LoopKeepsOne(resolve: Resolver, s: State, step: Step)
    requires OneManager(s) && Enabled(s, step) && !Outside(step) && !step.Start? && !step.ManagerEnds?
    ensures OneManager(Apply(resolve, s, step))
  {
    if step.TakeDone? || step.TakeExit? || step.ListReturns? {
      CancelKeepsOne(resolve, s, step);
    }
  }

  lemma CancelKeepsOne(resolve: Resolver, s: State, step: Step)
    requires OneManager(s) && Enabled(s, step) && (step.TakeDone? || step.TakeExit? || step.ListReturns?)
    ensures OneManager(Apply(resolve, s, step))
  {
  }

  lemma NoLostChangeKept(resolve: Resolver, s: State, step: Step)
    requires NoLostChange(resolve, s) && Enabled(s, step)
    ensures NoLostChange(resolve, Apply(resolve, s, step))
  {
    if Outside(step) {
      OutsideLosesNone(resolve, s, step);
    } else {
      LoopLosesNone(resolve, s, step);
    }
  }

  lemma OutsideLosesNone(resolve: Resolver, s: State, step: Step)
    requires NoLostChange(resolve, s) && Enabled(s, step) && Outside(step)
    ensures NoLostChange(resolve, Apply(resolve, s, step))
  {
    var t := Apply(resolve, s, step);
    match step {
      case ClusterChanges(_) =>
        assert s.watch.Open? && s.watch.live ==> t.watch.queue[|t.watch.queue| - 1] == Change;
      case OtherEvent =>
        assert forall e :: e in s.watch.queue ==> e in t.watch.queue;
      case OpenWatch =>
        assert s.cluster != {} ==> t.watch.queue[0] == Change;
      case ReadEvent =>
        assert s.watch.queue == [s.watch.queue[0]] + t.watch.queue;
      case _ =>
    }
  }

  lemma LoopLosesNone(resolve: Resolver, s: State, step: Step)
    requires NoLostChange(resolve, s) && Enabled(s, step) && !Outside(step)
    ensures NoLostChange(resolve, Apply(resolve, s, step))
  {
    var t := Apply(resolve, s, step);
    assert t.cluster == s.cluster && t.watch == s.watch;
  }

  /** Along every run from the initial state, both hold. */
  lemma {:induction false} KeptAlongRun(resolve: Resolver, s: State, steps: seq<Step>, t: State)
    requires Run(resolve, s, steps, t) && OneManager(s) && NoLostChange(resolve, s)
    ensures OneManager(t) && NoLostChange(resolve, t)
    decreases |steps|
  {
    if steps != [] {
      OneManagerKept(resolve, s, steps[0]);
      NoLostChangeKept(resolve, s, steps[0]);
      KeptAlongRun(resolve, Apply(resolve, s, steps[0]), steps[1..], t);
    }
  }

  /**
    In every reachable state at most one manager goroutine is alive, it is the
    current one and runs the loop's selection; none is alive between two
    managers or once the loop has returned.
   */
  lemma AtMostOneManager(resolve: Resolver, s: State, steps: seq<Step>, t: State)
    requires Init(resolve, s) && Run(resolve, s, steps, t)
    ensures forall id: nat :: t.Alive(id) ==> id == t.current && t.managers[id].selection == t.selection
    ensures t.loop.Starting? || t.loop.Returned? ==> forall id: nat :: !t.Alive(id)
  {
    KeptAlongRun(resolve, s, steps, t);
  }

  /** In every reachable state a selection that is out of date has a change on its way, or one of the listed reasons. */
  lemma NoChangeIsLost(resolve: Resolver, s: State, steps: seq<Step>, t: State)
    requires Init(resolve, s) && Run(resolve, s, steps, t)
    ensures Chosen(t) == resolve(t.cluster) || Pending(t) || Deaf(t) || t.loop.Returned?
  {
    KeptAlongRun(resolve, s, steps, t);
  }

  // ---- What the loop returns ----

  /**
    A returned error is the manager's own, or the context's when that is canceled
    and the manager did not fail. The loop stops its manager only when canceled.
   */
  predicate ReturnsRightly(s: State) {
    && (s.loop.Stopping? ==> s.done)
    && (s.loop.Returned? ==>
          && s.HasEnded()
          && var exit := s.managers[s.current].exit;
             s.loop.error == exit || (s.loop.error == Canceled && s.done && !exit.Failure?))
  }

  lemma ReturnKept(resolve: Resolver, s: State, step: Step)
    requires ReturnsRightly(s) && Enabled(s, step)
    ensures ReturnsRightly(Apply(resolve, s, step))
  {
    if Outside(step) {
      OutsideKeeps(resolve, s, step);
    }
  }

  lemma {:induction false} ReturnsRightlyAlongRun(resolve: Resolver, s: State, steps: seq<Step>, t: State)
    requires Run(resolve, s, steps, t) && ReturnsRightly(s)
    ensures ReturnsRightly(t)
    decreases |steps|
  {
    if steps != [] {
      ReturnKept(resolve, s, steps[0]);
      ReturnsRightlyAlongRun(resolve, Apply(resolve, s, steps[0]), steps[1..], t);
    }
  }

  /**
    Whatever happened before, once the loop has returned: it returns an error
    other than cancellation exactly when its manager failed, nil only when its
    manager ended without one, and no manager is left running.
   */
  lemma ReturnsManagersError(resolve: Resolver, init: State, steps: seq<Step>, t: State)
    requires Init(resolve, init) && Run(resolve, init, steps, t) && t.loop.Returned?
    ensures t.HasEnded() && forall id: nat :: !t.Alive(id)
    ensures var exit := t.managers[t.current].exit;
      && (t.loop.error == Failure <==> exit == Failure)
      && (t.loop.error == Clean ==> exit == Clean)
      && (!t.done ==> t.loop.error == exit)
  {
    ReturnsRightlyAlongRun(resolve, init, steps, t);
    AtMostOneManager(resolve, init, steps, t);
  }

  // ---- Left to itself, the operator catches up ----

  /** Steps the operator takes on its own, when calls succeed and a canceled manager stops without an error. */
  predicate Own(s: State, step: Step) {
    && Enabled(s, step)
    && match step
       case ManagerEnds(id, exit) => s.managers[id].canceled && !exit.Failure?
       case OpenWatch => true
       case ReadEvent => true
       case ReadClosed => true
       case Start => true
       case TakeExit => true
       case TakeToken => true
       case ListAnswered => true
       case ListReturns => true
       case ReceiveExit => true
       case _ => false
  }

  /** The server has ended the watch, and the watcher keeps reading from it. */
  predicate WatchEnded(s: State) {
    s.watch.Open? && !s.watch.live
  }

  /** An upper bound on the number of such steps still to come, reads from an ended watch aside. */
  function Work(s: State): nat {
    var watch := match s.watch
      case Opening => 1 + 7 * |s.cluster|
      case Open(queue, _) => 7 * |queue|
      case Stopped => 0;
    var loop := match s.loop
      case Returned(_) => 0
      case Waiting => 1
      case Starting => 2
      case Restarting(_) => if s.Alive(s.current) then 4 else 3
      case Stopping => if s.Alive(s.current) then 4 else 3
      case Listed(_) => 5
      case Listing => 6;
    watch + loop + if s.token then 6 else 0
  }

  lemma OwnStepWorks(resolve: Resolver, s: State, step: Step)
    requires OneManager(s) && Own(s, step) && !s.done
    ensures var t := Apply(resolve, s, step);
      && (if step.ReadClosed? then WatchEnded(s) && t == s else Work(t) < Work(s))
      && t.cluster == s.cluster && !t.done && (WatchEnded(t) <==> WatchEnded(s))
  {
    if Outside(step) {
      OutsideKeeps(resolve, s, step);
    } else {
      LoopStepWorks(resolve, s, step);
    }
  }

  lemma LoopStepWorks(resolve: Resolver, s: State, step: Step)
    requires OneManager(s) && Own(s, step) && !s.done && !Outside(step)
    ensures var t := Apply(resolve, s, step);
      Work(t) < Work(s) && t.watch == s.watch && t.cluster == s.cluster && !t.done
  {
    if step.ManagerEnds? {
      ManagerStepWorks(resolve, s, step);
    } else if step.ReceiveExit? || step.ListReturns? {
      RestartStepWorks(resolve, s, step);
    }
  }

  lemma ManagerStepWorks(resolve: Resolver, s: State, step: Step)
    requires OneManager(s) && Own(s, step) && step.ManagerEnds?
    ensures Work(Apply(resolve, s, step)) < Work(s)
  {
    assert step.id == s.current;
  }

  lemma RestartStepWorks(resolve: Resolver, s: State, step: Step)
    requires OneManager(s) && Own(s, step) && !s.done && (step.ReceiveExit? || step.ListReturns?)
    ensures Work(Apply(resolve, s, step)) < Work(s)
  {
  }

  ghost predicate OwnRun(resolve: Resolver, s: State, steps: seq<Step>, t: State)
    decreases |steps|
  {
    if steps == [] then s == t
    else Own(s, steps[0]) && OwnRun(resolve, Apply(resolve, s, steps[0]), steps[1..], t)
  }

  /** The number of steps other than reads from an ended watch. */
  function Useful(steps: seq<Step>): nat {
    if steps == [] then 0 else Useful(steps[1..]) + if steps[0].ReadClosed? then 0 else 1
  }

  lemma {:induction false} OwnRunWorks(resolve: Resolver, s: State, steps: seq<Step>, t: State)
    requires OneManager(s) && NoLostChange(resolve, s) && !s.done && OwnRun(resolve, s, steps, t)
    ensures Useful(steps) + Work(t) <= Work(s) && (!WatchEnded(s) ==> Useful(steps) == |steps|)
    ensures OneManager(t) && NoLostChange(resolve, t) && !t.done && t.cluster == s.cluster
    decreases |steps|
  {
    if steps != [] {
      OwnStepWorks(resolve, s, steps[0]);
      OneManagerKept(resolve, s, steps[0]);
      NoLostChangeKept(resolve, s, steps[0]);
      OwnRunWorks(resolve, Apply(resolve, s, steps[0]), steps[1..], t);
    }
  }

  /** Nothing left to do but, when the watch has ended, to read from it again. */
  ghost predicate Settled(s: State) {
    forall step :: Own(s, step) ==> step.ReadClosed?
  }

  /** The current manager is the only one alive, and it watches what the cluster calls for. */
  ghost predicate UpToDate(resolve: Resolver, s: State) {
    && s.Alive(s.current) && s.managers[s.current].selection == s.selection == resolve(s.cluster)
    && forall id: nat :: s.Alive(id) ==> id == s.current
  }

  lemma SettledIsUpToDate(resolve: Resolver, s: State)
    requires OneManager(s) && NoLostChange(resolve, s) && Settled(s)
    ensures Deaf(s) || s.loop.Returned? || UpToDate(resolve, s)
  {
    assert !Own(s, OpenWatch) && !Own(s, ReadEvent) && !Own(s, Start) && !Own(s, TakeExit);
    assert !Own(s, TakeToken) && !Own(s, ListAnswered) && !Own(s, ListReturns) && !Own(s, ReceiveExit);
    assert !Own(s, ManagerEnds(s.current, Canceled));
  }

  // ---- Exactly when it catches up ----

  /** Something is on its way that makes the loop list the namespaces again. */
  predicate Heard(s: State) {
    || (s.watch.Opening? && s.cluster != {}) || (s.watch.Open? && Change in s.watch.queue)
    || s.token || s.loop.Listing?
  }

  /** Left to itself, the loop returns: its manager has ended unasked, or with an error, or it is stopping. */
  predicate Doomed(s: State) {
    match s.loop
    case Returned(_) => true
    case Stopping => true
    case Waiting => s.HasEnded()
    case Listed(answer) => s.HasEnded() && (answer == s.selection || s.managers[s.current].exit.Failure?)
    case Restarting(_) => s.HasEnded() && s.managers[s.current].exit.Failure?
    case Starting => false
    case Listing => false
  }

  ghost predicate WillCatchUp(resolve: Resolver, s: State) {
    Heard(s) || Doomed(s) || Chosen(s) == resolve(s.cluster)
  }

  /** No own step changes that. */
  lemma CatchingUpKept(resolve: Resolver, s: State, step: Step)
    requires OneManager(s) && Own(s, step) && !s.done
    ensures WillCatchUp(resolve, Apply(resolve, s, step)) <==> WillCatchUp(resolve, s)
  {
    if Outside(step) {
      WatchKeepsCatchingUp(resolve, s, step);
    } else if step.ManagerEnds? {
      ManagerKeepsCatchingUp(resolve, s, step);
    } else {
      LoopKeepsCatchingUp(resolve, s, step);
    }
  }

  lemma WatchKeepsCatchingUp(resolve: Resolver, s: State, step: Step)
    requires Own(s, step) && Outside(step)
    ensures WillCatchUp(resolve, Apply(resolve, s, step)) <==> WillCatchUp(resolve, s)
  {
    var t := Apply(resolve, s, step);
    OutsideKeeps(resolve, s, step);
    if step.OpenWatch? {
      assert s.cluster != {} ==> t.watch.queue[0] == Change;
    } else if step.ReadEvent? {
      assert s.watch.queue == [s.watch.queue[0]] + t.watch.queue;
    }
  }

  lemma ManagerKeepsCatchingUp(resolve: Resolver, s: State, step: Step)
    requires OneManager(s) && Own(s, step) && step.ManagerEnds?
    ensures WillCatchUp(resolve, Apply(resolve, s, step)) <==> WillCatchUp(resolve, s)
  {
    assert step.id == s.current;
  }

  lemma LoopKeepsCatchingUp(resolve: Resolver, s: State, step: Step)
    requires OneManager(s) && Own(s, step) && !s.done && !Outside(step) && !step.ManagerEnds?
    ensures WillCatchUp(resolve, Apply(resolve, s, step)) <==> WillCatchUp(resolve, s)
  {
    if step.ListReturns? || step.ReceiveExit? {
      RestartKeepsCatchingUp(resolve, s, step);
    } else {
      var t := Apply(resolve, s, step);
      assert t.cluster == s.cluster && t.watch == s.watch;
    }
  }

  lemma RestartKeepsCatchingUp(resolve: Resolver, s: State, step: Step)
    requires OneManager(s) && Own(s, step) && !s.done && (step.ListReturns? || step.ReceiveExit?)
    ensures WillCatchUp(resolve, Apply(resolve, s, step)) <==> WillCatchUp(resolve, s)
  {
    var t := Apply(resolve, s, step);
    assert t.cluster == s.cluster && t.watch == s.watch;
  }

  lemma SettledCaughtUpIff(resolve: Resolver, s: State)
    requires OneManager(s) && Settled(s)
    ensures WillCatchUp(resolve, s) <==> s.loop.Returned? || UpToDate(resolve, s)
    ensures s.loop.Returned? || (s.loop.Waiting? && s.Alive(s.current) && !s.token)
    ensures !s.watch.Opening? && (s.watch.Open? ==> s.watch.queue == [])
  {
    assert !Own(s, OpenWatch) && !Own(s, ReadEvent) && !Own(s, Start) && !Own(s, TakeExit);
    assert !Own(s, TakeToken) && !Own(s, ListAnswered) && !Own(s, ListReturns) && !Own(s, ReceiveExit);
    assert !Own(s, ManagerEnds(s.current, Canceled));
  }

  /** The loop has a manager that has not ended, or only because it was told to, or is about to start one. */
  predicate Healthy(s: State) {
    match s.loop
    case Starting => true
    case Restarting(_) => s.HasEnded() ==> !s.managers[s.current].exit.Failure?
    case Stopping => false
    case Returned(_) => false
    case _ => !s.HasEnded()
  }

  lemma HealthKept(resolve: Resolver, s: State, step: Step)
    requires OneManager(s) && Own(s, step) && !s.done && Healthy(s)
    ensures Healthy(Apply(resolve, s, step))
  {
    if Outside(step) {
      OutsideKeeps(resolve, s, step);
    } else if step.ManagerEnds? {
      assert step.id == s.current;
    }
  }

  lemma {:induction false} OwnRunKeeps(resolve: Resolver, s: State, steps: seq<Step>, t: State)
    requires OneManager(s) && !s.done && OwnRun(resolve, s, steps, t)
    ensures OneManager(t) && !t.done && t.cluster == s.cluster
    ensures WillCatchUp(resolve, t) <==> WillCatchUp(resolve, s)
    ensures Healthy(s) ==> Healthy(t)
    decreases |steps|
  {
    if steps != [] {
      OwnStepWorks(resolve, s, steps[0]);
      OneManagerKept(resolve, s, steps[0]);
      CatchingUpKept(resolve, s, steps[0]);
      if Healthy(s) {
        HealthKept(resolve, s, steps[0]);
      }
      OwnRunKeeps(resolve, Apply(resolve, s, steps[0]), steps[1..], t);
    }
  }

  /**
    From every reachable state with a live context, whatever the order in which
    the goroutines take their steps, at most Work(s) of them are not reads from
    an ended watch. Once no such step is left, the operator has returned or
    watches exactly what the cluster calls for, precisely when WillCatchUp held
    at the start; when it does not, it is deaf.
   */
  lemma CatchesUp(resolve: Resolver, init: State, before: seq<Step>, s: State, own: seq<Step>, t: State)
    requires Init(resolve, init) && Run(resolve, init, before, s) && !s.done
    requires OwnRun(resolve, s, own, t)
    ensures Useful(own) <= Work(s) && t.cluster == s.cluster
    ensures Settled(t) ==> (t.loop.Returned? || UpToDate(resolve, t) <==> WillCatchUp(resolve, s))
    ensures Settled(t) ==> Deaf(t) || WillCatchUp(resolve, s)
  {
    KeptAlongRun(resolve, init, before, s);
    OwnRunWorks(resolve, s, own, t);
    OwnRunKeeps(resolve, s, own, t);
    if Settled(t) {
      SettledCaughtUpIff(resolve, t);
      SettledIsUpToDate(resolve, t);
    }
  }

  /** And from every such state some schedule gets there, in at most Work(s) steps. */
  lemma ComesToRest(resolve: Resolver, init: State, before: seq<Step>, s: State) returns (own: seq<Step>, t: State)
    requires Init(resolve, init) && Run(resolve, init, before, s) && !s.done
    ensures OwnRun(resolve, s, own, t) && Settled(t) && |own| <= Work(s)
  {
    KeptAlongRun(resolve, init, before, s);
    own, t := Rests(resolve, s);
  }

  lemma {:induction false} Rests(resolve: Resolver, s: State) returns (own: seq<Step>, t: State)
    requires OneManager(s) && !s.done
    ensures OwnRun(resolve, s, own, t) && Settled(t) && |own| <= Work(s)
    decreases Work(s)
  {
    if Settled(s) {
      own, t := [], s;
    } else {
      var step :| Own(s, step) && !step.ReadClosed?;
      OwnStepWorks(resolve, s, step);
      OneManagerKept(resolve, s, step);
      var rest;
      rest, t := Rests(resolve, Apply(resolve, s, step));
      own := [step] + rest;
      assert own[1..] == rest;
    }
  }

  // ---- Exactly when every change is noticed ----

  /** After this change, every schedule that comes to rest watches what the new cluster calls for. */
  ghost predicate Follows(resolve: Resolver, s: State, after: Cluster) {
    forall own, t :: OwnRun(resolve, Apply(resolve, s, ClusterChanges(after)), own, t) && Settled(t) ==> UpToDate(resolve, t)
  }

  /** The watcher goroutine only stops with the context. */
  lemma {:induction false} StopsWhenDone(resolve: Resolver, s: State, steps: seq<Step>, t: State)
    requires Run(resolve, s, steps, t) && (s.watch.Stopped? ==> s.done)
    ensures t.watch.Stopped? ==> t.done
    decreases |steps|
  {
    if steps != [] {
      StopsWhenDoneStep(resolve, s, steps[0]);
      StopsWhenDone(resolve, Apply(resolve, s, steps[0]), steps[1..], t);
    }
  }

  lemma StopsWhenDoneStep(resolve: Resolver, s: State, step: Step)
    requires Enabled(s, step) && (s.watch.Stopped? ==> s.done)
    ensures Apply(resolve, s, step).watch.Stopped? ==> Apply(resolve, s, step).done
  {
  }

  /**
    An operator at rest follows every change of the cluster exactly when the
    server has not ended its watch, or no cluster calls for anything else than
    it watches. A failed list before, or a watch opened on an empty cluster,
    makes no difference: the next event repairs both.
   */
  lemma FollowsEveryChangeIff(resolve: Resolver, init: State, before: seq<Step>, s: State)
    requires Init(resolve, init) && Run(resolve, init, before, s)
    requires !s.done && Settled(s) && !s.loop.Returned?
    ensures (forall after :: Follows(resolve, s, after)) <==> !WatchEnded(s) || forall c :: resolve(c) == s.selection
  {
    KeptAlongRun(resolve, init, before, s);
    StopsWhenDone(resolve, init, before, s);
    SettledCaughtUpIff(resolve, s);
    forall after ensures Follows(resolve, s, after) <==> !WatchEnded(s) || resolve(after) == s.selection {
      FollowsIff(resolve, s, after);
    }
  }

  /** The same for one change. */
  lemma FollowsIff(resolve: Resolver, s: State, after: Cluster)
    requires OneManager(s) && !s.done && Settled(s) && !s.loop.Returned? && s.watch.Open?
    ensures Follows(resolve, s, after) <==> !WatchEnded(s) || resolve(after) == s.selection
  {
    var s' := Apply(resolve, s, ClusterChanges(after));
    SettledCaughtUpIff(resolve, s);
    OneManagerKept(resolve, s, ClusterChanges(after));
    assert s.watch.live ==> s'.watch.queue[|s'.watch.queue| - 1] == Change;
    assert WillCatchUp(resolve, s') <==> !WatchEnded(s) || resolve(after) == s.selection;
    forall own, t | OwnRun(resolve, s', own, t) && Settled(t) ensures UpToDate(resolve, t) <==> WillCatchUp(resolve, s') {
      OwnRunKeeps(resolve, s', own, t);
      SettledCaughtUpIff(resolve, t);
    }
    var own, t := Rests(resolve, s');
  }

  // ---- No restart without a change ----

  /** A manager that runs what the cluster calls for, undisturbed. */
  ghost predicate Steady(resolve: Resolver, s: State) {
    && s.Alive(s.current) && s.selection == resolve(s.cluster) && !s.done
    && (s.loop.Waiting? || s.loop.Listing? || s.loop == Listed(s.selection))
  }

  /** Nothing that ends a manager or calls for another selection. */
  predicate Harmless(resolve: Resolver, step: Step, selection: Selection) {
    match step
    case ClusterChanges(cluster) => resolve(cluster) == selection
    case ContextDone => false
    case ManagerEnds(_, _) => false
    case _ => true
  }

  lemma SteadyKept(resolve: Resolver, s: State, step: Step)
    requires Steady(resolve, s) && Enabled(s, step) && Harmless(resolve, step, s.selection)
    ensures var t := Apply(resolve, s, step); Steady(resolve, t) && t.managers == s.managers && t.selection == s.selection
  {
    if Outside(step) {
      OutsideKeeps(resolve, s, step);
    }
  }

  /** Namespaces may come and go, events repeat and lists fail: while the resolution stays the same, so does the manager. */
  lemma {:induction false} NoRestartWithoutChange(resolve: Resolver, s: State, steps: seq<Step>, t: State)
    requires Steady(resolve, s) && Run(resolve, s, steps, t)
    requires forall i :: 0 <= i < |steps| ==> Harmless(resolve, steps[i], s.selection)
    ensures Steady(resolve, t) && t.managers == s.managers && t.selection == s.selection
    decreases |steps|
  {
    if steps != [] {
      SteadyKept(resolve, s, steps[0]);
      NoRestartWithoutChange(resolve, Apply(resolve, s, steps[0]), steps[1..], t);
    }
  }

  /** Waiting, with nothing heard. */
  predicate Idle(s: State) {
    s.loop.Waiting? && !s.token && !s.watch.Opening? && (s.watch.Open? ==> Change !in s.watch.queue)
  }

  /** Bookmark and error events, an ended watch and a canceled context never make the loop list. */
  lemma {:induction false} OnlyChangesAreHeard(resolve: Resolver, s: State, steps: seq<Step>, t: State)
    requires Idle(s) && Run(resolve, s, steps, t)
    requires forall i :: 0 <= i < |steps| ==>
      !steps[i].ClusterChanges? && !steps[i].ManagerEnds? && !steps[i].TakeDone? && !steps[i].TakeExit?
    ensures Idle(t)
    decreases |steps|
  {
    if steps != [] {
      IdleKept(resolve, s, steps[0]);
      OnlyChangesAreHeard(resolve, Apply(resolve, s, steps[0]), steps[1..], t);
    }
  }

  lemma IdleKept(resolve: Resolver, s: State, step: Step)
    requires Idle(s) && Enabled(s, step)
    requires !step.ClusterChanges? && !step.ManagerEnds? && !step.TakeDone? && !step.TakeExit?
    ensures Idle(Apply(resolve, s, step))
  {
  }

  // ---- Shutting down ----

  /** Steps once the context is canceled: those the operator takes on its own, with every manager's context canceled too. */
  predicate Winding(s: State, step: Step) {
    && Enabled(s, step)
    && match step
       case ClusterChanges(_) => false
       case OtherEvent => false
       case WatchEnds(_) => false
       case ContextDone => false
       case _ => true
  }

  /** An upper bound on the steps until everything has stopped, reads from an ended watch aside. */
  function Remaining(s: State): nat {
    var watch := match s.watch
      case Opening => 2 + 4 * |s.cluster|
      case Open(queue, _) => 1 + 4 * |queue|
      case Stopped => 0;
    var loop := match s.loop
      case Returned(_) => 0
      case Stopping => 1
      case Restarting(_) => 2
      case Waiting => 3
      case Listed(_) => 4
      case Listing => 5
      case Starting => 5;
    watch + loop + (if s.token then 3 else 0) + if s.Alive(s.current) then 1 else 0
  }

  lemma WindingStep(resolve: Resolver, s: State, step: Step)
    requires OneManager(s) && Winding(s, step) && s.done
    ensures var t := Apply(resolve, s, step);
      t.done && OneManager(t) && if step.ReadClosed? then t == s else Remaining(t) < Remaining(s)
  {
    OneManagerKept(resolve, s, step);
    if Outside(step) {
      OutsideKeeps(resolve, s, step);
    } else if step.ManagerEnds? {
      assert step.id == s.current;
    } else {
      LoopWinds(resolve, s, step);
    }
  }

  lemma LoopWinds(resolve: Resolver, s: State, step: Step)
    requires OneManager(s) && Winding(s, step) && s.done && !Outside(step) && !step.ManagerEnds?
    ensures var t := Apply(resolve, s, step); t.done && Remaining(t) < Remaining(s)
  {
    if step.ListReturns? {
      ListWinds(resolve, s);
    } else if step.ReceiveExit? {
      ExitWinds(resolve, s);
    }
  }

  lemma ListWinds(resolve: Resolver, s: State)
    requires s.loop.Listed? && s.done
    ensures var t := Apply(resolve, s, ListReturns); t.done && Remaining(t) < Remaining(s)
  {
  }

  lemma ExitWinds(resolve: Resolver, s: State)
    requires Enabled(s, ReceiveExit) && s.done
    ensures var t := Apply(resolve, s, ReceiveExit); t.done && Remaining(t) < Remaining(s)
  {
  }

  ghost predicate WindingRun(resolve: Resolver, s: State, steps: seq<Step>, t: State)
    decreases |steps|
  {
    if steps == [] then s == t
    else Winding(s, steps[0]) && WindingRun(resolve, Apply(resolve, s, steps[0]), steps[1..], t)
  }

  lemma {:induction false} WindingRunEnds(resolve: Resolver, s: State, steps: seq<Step>, t: State)
    requires OneManager(s) && s.done && WindingRun(resolve, s, steps, t)
    ensures Useful(steps) + Remaining(t) <= Remaining(s) && OneManager(t) && t.done
    decreases |steps|
  {
    if steps != [] {
      WindingStep(resolve, s, steps[0]);
      WindingRunEnds(resolve, Apply(resolve, s, steps[0]), steps[1..], t);
    }
  }

  /**
    Once the context is canceled, whatever the schedule, at most Remaining(s) steps
    other than reads from an ended watch are left; when none is possible the loop
    has returned, the watcher has stopped and no manager is alive.
   */
  lemma ShutsDown(resolve: Resolver, init: State, before: seq<Step>, s: State, steps: seq<Step>, t: State)
    requires Init(resolve, init) && Run(resolve, init, before, s) && s.done && WindingRun(resolve, s, steps, t)
    ensures Useful(steps) <= Remaining(s)
    ensures WoundDown(t) ==> t.loop.Returned? && t.watch.Stopped? && forall id: nat :: !t.Alive(id)
  {
    KeptAlongRun(resolve, init, before, s);
    WindingRunEnds(resolve, s, steps, t);
    if WoundDown(t) {
      NothingLeft(t);
    }
  }

  ghost predicate WoundDown(s: State) {
    forall step :: !Winding(s, step)
  }

  lemma NothingLeft(s: State)
    requires OneManager(s) && s.done && WoundDown(s)
    ensures s.loop.Returned? && s.watch.Stopped? && forall id: nat :: !s.Alive(id)
  {
    assert !Winding(s, StopWatcher) && !Winding(s, Start) && !Winding(s, TakeDone);
    assert !Winding(s, ListAnswered) && !Winding(s, ListReturns) && !Winding(s, ReceiveExit);
    assert !Winding(s, ManagerEnds(s.current, Canceled));
  }

  // ---- The spin on an ended watch ----

  /** No run of own steps from `s` has more than `bound` steps. */
  ghost predicate Bounded(resolve: Resolver, s: State, bound: nat) {
    forall own, t :: OwnRun(resolve, s, own, t) ==> |own| <= bound
  }

  /** Own runs are bounded exactly when the server has not ended the watch; Work(s) is then a bound. */
  lemma BoundedIffWatchLives(resolve: Resolver, init: State, before: seq<Step>, s: State)
    requires Init(resolve, init) && Run(resolve, init, before, s) && !s.done
    ensures (exists bound: nat :: Bounded(resolve, s, bound)) <==> !WatchEnded(s)
    ensures !WatchEnded(s) ==> Bounded(resolve, s, Work(s))
  {
    KeptAlongRun(resolve, init, before, s);
    if WatchEnded(s) {
      forall bound: nat ensures !Bounded(resolve, s, bound) {
        var own, t := DrainsAndSpins(resolve, s, bound + 1);
      }
    } else {
      forall own, t | OwnRun(resolve, s, own, t) ensures |own| <= Work(s) {
        OwnRunWorks(resolve, s, own, t);
      }
      assert Bounded(resolve, s, Work(s));
    }
  }

  function Spinning(n: nat): (steps: seq<Step>)
    ensures |steps| == n && forall i :: 0 <= i < n ==> steps[i] == ReadClosed
  {
    seq(n, _ => ReadClosed)
  }

  /** From an ended watch that is drained, any number of reads leads back to the same state. */
  lemma {:induction false} Spins(resolve: Resolver, s: State, n: nat)
    requires s.watch == Open([], false)
    ensures OwnRun(resolve, s, Spinning(n), s)
  {
    if n > 0 {
      Spins(resolve, s, n - 1);
      assert Spinning(n)[1..] == Spinning(n - 1);
    }
  }

  lemma {:induction false} DrainsAndSpins(resolve: Resolver, s: State, n: nat) returns (own: seq<Step>, t: State)
    requires WatchEnded(s)
    ensures OwnRun(resolve, s, own, t) && |own| == |s.watch.queue| + n && t.watch == Open([], false)
    decreases |s.watch.queue|
  {
    if s.watch.queue == [] {
      Spins(resolve, s, n);
      own, t := Spinning(n), s;
    } else {
      var rest;
      rest, t := DrainsAndSpins(resolve, Apply(resolve, s, ReadEvent), n);
      own := [ReadEvent] + rest;
      assert own[1..] == rest;
    }
  }

  /** Every initial state leads there: the server ends the watch as soon as it is open. */
  lemma SpinReachable(resolve: Resolver, init: State, n: nat) returns (steps: seq<Step>, s: State)
    requires Init(resolve, init)
    ensures Run(resolve, init, steps, s) && !s.done && OwnRun(resolve, s, Spinning(n), s)
  {
    var s1 := Apply(resolve, init, OpenWatch);
    s := Apply(resolve, s1, WatchEnds(0));
    RunStep(resolve, s1, WatchEnds(0), [], s);
    RunStep(resolve, init, OpenWatch, [WatchEnds(0)] + [], s);
    steps := [OpenWatch] + ([WatchEnds(0)] + []);
    Spins(resolve, s, n);
  }

  /**
    For the operator's own resolver: where it catches up, the loop returned or the
    running manager watches exactly the explicit and the matching namespaces.
   */
  lemma WatchesMatchingNamespaces(lib: Library, cfg: Config, init: State, before: seq<Step>, s: State, own: seq<Step>, t: State)
    requires var resolve := (c: Cluster) => Resolution(lib, cfg, c);
      && Init(resolve, init) && Run(resolve, init, before, s) && OwnRun(resolve, s, own, t)
      && WillCatchUp(resolve, s)
    requires !s.done && cfg.HasPatterns() && Settled(t)
    ensures t.loop.Returned? ||
      (&& t.Alive(t.current) && (forall id: nat :: t.Alive(id) ==> id == t.current)
       && !t.managers[t.current].selection.all
       && Elements(t.managers[t.current].selection.namespaces) == WatchedNames(lib, cfg, s.cluster))
  {
    CatchesUp((c: Cluster) => Resolution(lib, cfg, c), init, before, s, own, t);
  }

  // ---- Each reason for deafness is real: a change is lost, for good or until the next event ----

  lemma RunStep(resolve: Resolver, s: State, step: Step, rest: seq<Step>, t: State)
    requires Enabled(s, step) && Run(resolve, Apply(resolve, s, step), rest, t)
    ensures Run(resolve, s, [step] + rest, t)
  {
    assert ([step] + rest)[1..] == rest;
  }

  /** Settled but out of date, with the outer context alive and a manager running. */
  ghost predicate Stale(resolve: Resolver, s: State) {
    Settled(s) && !s.done && s.loop.Waiting? && s.Alive(s.current) && s.selection != resolve(s.cluster)
  }

  lemma StaleWhenIdle(resolve: Resolver, s: State)
    requires s.watch.Open? && s.watch.queue == [] && !s.token && s.loop.Waiting? && !s.done
    requires OneManager(s) && s.Alive(s.current) && s.selection != resolve(s.cluster)
    ensures Stale(resolve, s)
  {
  }

  /** The server ends the watch: it is never opened again, and later changes are lost for good. */
  lemma LostWhenWatchEnds(resolve: Resolver, init: State, after: Cluster) returns (steps: seq<Step>, t: State)
    requires Init(resolve, init) && init.cluster != {} && resolve(after) != resolve(init.cluster)
    ensures Run(resolve, init, steps, t) && Stale(resolve, t)
    ensures Over(t) && !t.listFailed && !t.blind
  {
    var s1 := Apply(resolve, init, OpenWatch);
    var s2 := Apply(resolve, s1, WatchEnds(0));
    var s3 := Apply(resolve, s2, Start);
    t := Apply(resolve, s3, ClusterChanges(after));
    var last := [ClusterChanges(after)] + [];
    RunStep(resolve, s3, ClusterChanges(after), [], t);
    RunStep(resolve, s2, Start, last, t);
    RunStep(resolve, s1, WatchEnds(0), [Start] + last, t);
    RunStep(resolve, init, OpenWatch, [WatchEnds(0)] + ([Start] + last), t);
    steps := [OpenWatch] + ([WatchEnds(0)] + ([Start] + last));
    KeptAlongRun(resolve, init, steps, t);
    StaleWhenIdle(resolve, t);
  }

  /** Nothing left to read on an ended watch, and no list under way. */
  predicate Over(s: State) {
    s.watch in {Open([], false), Stopped} && !s.token && !s.loop.Listing? && !s.loop.Listed? && !s.loop.Restarting?
  }

  /** From there no run, whatever happens in it, changes the selection again. */
  lemma {:induction false} NeverReopened(resolve: Resolver, s: State, steps: seq<Step>, t: State)
    requires Over(s) && Run(resolve, s, steps, t)
    ensures Over(t) && t.selection == s.selection
    decreases |steps|
  {
    if steps != [] {
      NeverReopened(resolve, Apply(resolve, s, steps[0]), steps[1..], t);
    }
  }

  /** The watcher reads what is queued; all its changes become one token. */
  lemma {:induction false} ReadsAll(resolve: Resolver, s: State) returns (steps: seq<Step>, t: State)
    requires s.watch.Open? && (forall i :: 0 <= i < |s.watch.queue| ==> s.watch.queue[i] == Change)
    ensures Run(resolve, s, steps, t)
    ensures t == s.(watch := s.watch.(queue := []), token := s.token || s.watch.queue != [])
    decreases |s.watch.queue|
  {
    if s.watch.queue == [] {
      steps, t := [], s;
    } else {
      steps, t := ReadsAll(resolve, Apply(resolve, s, ReadEvent));
      RunStep(resolve, s, ReadEvent, steps, t);
      steps := [ReadEvent] + steps;
    }
  }

  lemma {:induction false} RunAppend(resolve: Resolver, s: State, a: seq<Step>, t: State, b: seq<Step>, u: State)
    requires Run(resolve, s, a, t) && Run(resolve, t, b, u)
    ensures Run(resolve, s, a + b, u)
    decreases |a|
  {
    if a == [] {
      assert a + b == b;
    } else {
      assert (a + b)[1..] == a[1..] + b;
      RunAppend(resolve, Apply(resolve, s, a[0]), a[1..], t, b, u);
    }
  }

  lemma TokenListFails(resolve: Resolver, s: State) returns (steps: seq<Step>, t: State)
    requires s.token && s.loop.Waiting?
    ensures Run(resolve, s, steps, t) && t == s.(token := false, listFailed := true)
  {
    var s1 := Apply(resolve, s, TakeToken);
    t := Apply(resolve, s1, ListFails);
    RunStep(resolve, s1, ListFails, [], t);
    RunStep(resolve, s, TakeToken, [ListFails] + [], t);
    steps := [TakeToken] + ([ListFails] + []);
  }

  /**
    A list call fails: the token is spent, and nothing lists again until another
    event. From there every change is followed again.
   */
  lemma LostWhenListFails(resolve: Resolver, init: State, after: Cluster) returns (steps: seq<Step>, t: State)
    requires Init(resolve, init) && after != {} && resolve(after) != resolve(init.cluster)
    ensures Run(resolve, init, steps, t) && Stale(resolve, t)
    ensures t.watch == Open([], true) && t.listFailed && !t.blind
    ensures forall next :: Follows(resolve, t, next)
  {
    var s1 := Apply(resolve, init, Start);
    var s2 := Apply(resolve, s1, ClusterChanges(after));
    var s3 := Apply(resolve, s2, OpenWatch);
    var drain, s4 := ReadsAll(resolve, s3);
    var fails;
    fails, t := TokenListFails(resolve, s4);
    RunAppend(resolve, s3, drain, s4, fails, t);
    steps := drain + fails;
    RunStep(resolve, s2, OpenWatch, steps, t);
    RunStep(resolve, s1, ClusterChanges(after), [OpenWatch] + steps, t);
    RunStep(resolve, init, Start, [ClusterChanges(after)] + ([OpenWatch] + steps), t);
    steps := [Start] + ([ClusterChanges(after)] + ([OpenWatch] + steps));
    KeptAlongRun(resolve, init, steps, t);
    StaleWhenIdle(resolve, t);
    FollowsEveryChangeIff(resolve, init, steps, t);
  }

  /**
    The cluster is empty when the watch opens: no initial event arrives to correct
    the selection until the next change. No real cluster is without namespaces;
    NeverBlind says that this exception is then vacuous.
   */
  lemma LostWhenOpenedEmpty(resolve: Resolver, init: State) returns (steps: seq<Step>, t: State)
    requires Init(resolve, init) && resolve({}) != resolve(init.cluster)
    ensures Run(resolve, init, steps, t) && Stale(resolve, t)
    ensures t.watch == Open([], true) && !t.listFailed && t.blind
    ensures forall next :: Follows(resolve, t, next)
  {
    var s1 := Apply(resolve, init, Start);
    var s2 := Apply(resolve, s1, ClusterChanges({}));
    t := Apply(resolve, s2, OpenWatch);
    RunStep(resolve, s2, OpenWatch, [], t);
    RunStep(resolve, s1, ClusterChanges({}), [OpenWatch] + [], t);
    RunStep(resolve, init, Start, [ClusterChanges({})] + ([OpenWatch] + []), t);
    steps := [Start] + ([ClusterChanges({})] + ([OpenWatch] + []));
    KeptAlongRun(resolve, init, steps, t);
    StaleWhenIdle(resolve, t);
    FollowsEveryChangeIff(resolve, init, steps, t);
  }

  /** Along a run over clusters that always hold a namespace, no watch opens blind. */
  lemma {:induction false} NeverBlind(resolve: Resolver, s: State, steps: seq<Step>, t: State)
    requires Run(resolve, s, steps, t) && s.cluster != {} && !s.blind
    requires forall i :: 0 <= i < |steps| && steps[i].ClusterChanges? ==> steps[i].cluster != {}
    ensures t.cluster != {} && !t.blind
    decreases |steps|
  {
    if steps != [] {
      NeverBlind(resolve, Apply(resolve, s, steps[0]), steps[1..], t);
    }
  }
}
