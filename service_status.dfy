/** The status manager of an Agama service: it owns the service's progress
    sequence and busy/idle status, handles the actions sent to it one at a
    time and publishes an event whenever either of them changes.

    The action channel is replaced by a sequence of actions, the event sender
    by an append-only log (sending never fails in the model; the source
    ignores send failures anyway). `ProgressSequence::step` belongs to a
    library that is not part of this model, so it is a parameter, `step`,
    about which nothing is assumed: every property below holds for all of
    them. */
module StatusService {
  import opened Wrappers

  /** `ServiceStatus`; `status as u32` is 0 for Idle and 1 for Busy. */
  datatype ServiceStatus = Idle | Busy

  /** The step the progress sequence reports. */
  datatype Progress = Progress(currentStep: nat, maxSteps: nat, currentTitle: string, finished: bool)

  /** A progress sequence built from the names of its steps. */
  datatype ProgressSequence = ProgressSequence(steps: seq<string>)

  /** `ProgressSequence::step`, left uninterpreted. */
  type StepFn = ProgressSequence -> Option<Progress>

  /** What `get_progress` answers: the steps plus the current step's data. */
  datatype ProgressSummary =
    ProgressSummary(steps: seq<string>, currentStep: nat, maxSteps: nat, currentTitle: string, finished: bool)

  /** The two events the manager publishes (`Event::Progress` and
      `Event::ServiceStatusChanged`), each tagged with the service's name. */
  datatype Event =
    | ProgressChanged(service: string, progress: Progress)
    | ServiceStatusChanged(service: string, status: nat)

  /** The one error the manager itself reports; the channel errors belong to
      the transport, which is not modelled. */
  datatype ServiceStatusError = Busy

  /** The actions the manager receives; the reply channels of `Start` and
      `GetProgress` become entries of the reply list that `Run` returns. */
  datatype Action = Start(steps: seq<string>) | NextStep | Finish | GetProgress

  datatype Reply =
    | Started(result: Result<(), ServiceStatusError>)
    | ProgressReply(summary: Option<ProgressSummary>)

  /** The manager's mutable state together with everything published so far. */
  datatype ManagerState = ManagerState(progress: Option<ProgressSequence>, status: ServiceStatus, events: seq<Event>)

  /** The code published for a status (`self.status as u32`). */
  function StatusCode(s: ServiceStatus): (code: nat)
    ensures code < 2
    ensures code == 0 <==> s == Idle
  {
    if s == Idle then 0 else 1
  }

  /** The step published when a task finishes: nothing left to do. */
  const FinishedProgress := Progress(0, 0, "", true)

  /** The manager is busy exactly while a progress sequence is active. */
  predicate Consistent(s: ManagerState) {
    s.status == ServiceStatus.Busy <==> s.progress.Some?
  }

  /** `start_task`: refused while busy; otherwise a new sequence over the
      given steps, its current step published if it has one, then the
      service becomes busy and that change is published. */
  function StartTransition(s: ManagerState, name: string, step: StepFn, steps: seq<string>)
    : (r: (ManagerState, Result<(), ServiceStatusError>))
    ensures r.1.Err? <==> s.status == ServiceStatus.Busy
    ensures r.1.Err? ==> r.1.error == ServiceStatusError.Busy && r.0 == s
    ensures r.1.Ok? ==> r.0.progress == Some(ProgressSequence(steps)) && r.0.status == ServiceStatus.Busy
    ensures r.1.Ok? ==> Consistent(r.0)
    ensures s.events <= r.0.events
    ensures r.1.Ok? ==>
      var added := r.0.events[|s.events|..];
      && |added| == (if step(ProgressSequence(steps)).Some? then 2 else 1)
      && added[|added| - 1] == ServiceStatusChanged(name, 1)
      && (step(ProgressSequence(steps)).Some? ==> added[0] == ProgressChanged(name, step(ProgressSequence(steps)).value))
  {
    if s.status == ServiceStatus.Busy then (s, Err(ServiceStatusError.Busy))
    else
      var p := ProgressSequence(steps);
      var stepEvents := match step(p) case Some(current) => [ProgressChanged(name, current)] case None => [];
      var events := s.events + stepEvents + [ServiceStatusChanged(name, StatusCode(ServiceStatus.Busy))];
      assert events[|s.events|..] == stepEvents + [ServiceStatusChanged(name, 1)];
      (ManagerState(Some(p), ServiceStatus.Busy, events), Ok(()))
  }

  /** `next_step` as written: it asks the active sequence for its step and
      publishes it; nothing advances. */
  function NextStepTransition(s: ManagerState, name: string, step: StepFn): (r: (ManagerState, Option<Progress>))
    ensures r.0.progress == s.progress && r.0.status == s.status
    ensures r.1.None? <==> s.progress.None? || step(s.progress.value).None?
    ensures r.1.None? ==> r.0 == s
    ensures r.1.Some? ==> r.1 == step(s.progress.value) && r.0.events == s.events + [ProgressChanged(name, r.1.value)]
  {
    match s.progress
    case None => (s, None)
    case Some(p) =>
      match step(p)
      case None => (s, None)
      case Some(current) => (s.(events := s.events + [ProgressChanged(name, current)]), Some(current))
  }

  /** `finish_task`: from any state, drop the sequence, publish a finished
      empty step, become idle and publish that. */
  function FinishTransition(s: ManagerState, name: string): (r: ManagerState)
    ensures Consistent(r) && r.status == Idle && r.progress == None
    ensures r.events == s.events + [ProgressChanged(name, FinishedProgress), ServiceStatusChanged(name, 0)]
  {
    ManagerState(None, Idle, s.events + [ProgressChanged(name, FinishedProgress), ServiceStatusChanged(name, StatusCode(Idle))])
  }

  /** `get_progress`: the summary of the active sequence's current step. */
  function ProgressQuery(s: ManagerState, step: StepFn): (r: Option<ProgressSummary>)
    ensures r.None? <==> s.progress.None? || step(s.progress.value).None?
    ensures r.Some? ==>
      var current := step(s.progress.value).value;
      && r.value.steps == s.progress.value.steps
      && r.value.currentStep == current.currentStep
      && r.value.maxSteps == current.maxSteps
      && r.value.currentTitle == current.currentTitle
      && r.value.finished == current.finished
  {
    match s.progress
    case None => None
    case Some(p) =>
      match step(p)
      case None => None
      case Some(current) =>
        Some(ProgressSummary(p.steps, current.currentStep, current.maxSteps, current.currentTitle, current.finished))
  }

  /** How many replies an action gets: one for `Start` and `GetProgress`. */
  function ReplyCount(a: Action): nat {
    if a.Start? || a.GetProgress? then 1 else 0
  }

  function TotalReplyCount(actions: seq<Action>): nat {
    if actions == [] then 0 else TotalReplyCount(actions[..|actions| - 1]) + ReplyCount(actions[|actions| - 1])
  }

  /** One iteration of `run`'s loop: hand the action to its handler and
      collect the reply, if the action has one. */
  function Dispatch(s: ManagerState, name: string, step: StepFn, a: Action): (r: (ManagerState, seq<Reply>))
    ensures |r.1| == ReplyCount(a)
    ensures Consistent(s) ==> Consistent(r.0)
    ensures s.events <= r.0.events
    ensures a.GetProgress? ==> r.0 == s
    ensures a.Start? ==>
      r == (StartTransition(s, name, step, a.steps).0, [Started(StartTransition(s, name, step, a.steps).1)])
    ensures a.NextStep? ==> r == (NextStepTransition(s, name, step).0, [])
    ensures a.Finish? ==> r == (FinishTransition(s, name), [])
    ensures a.GetProgress? ==> r == (s, [ProgressReply(ProgressQuery(s, step))])
  {
    match a
    case Start(steps) =>
      var (next, result) := StartTransition(s, name, step, steps);
      (next, [Started(result)])
    case NextStep => (NextStepTransition(s, name, step).0, [])
    case Finish => (FinishTransition(s, name), [])
    case GetProgress => (s, [ProgressReply(ProgressQuery(s, step))])
  }

  /** `run`: the actions handled strictly one after another. */
  function RunActions(s: ManagerState, name: string, step: StepFn, actions: seq<Action>): (r: (ManagerState, seq<Reply>))
    ensures |r.1| == TotalReplyCount(actions)
    ensures Consistent(s) ==> Consistent(r.0)
    ensures s.events <= r.0.events
    decreases |actions|
  {
    if actions == [] then (s, [])
    else
      var (before, replies) := RunActions(s, name, step, actions[..|actions| - 1]);
      var (after, reply) := Dispatch(before, name, step, actions[|actions| - 1]);
      (after, replies + reply)
  }

  /** One more action: handled in the state the earlier ones left, its reply
      (if any) after theirs. */
  lemma RunActionsSnoc(s: ManagerState, name: string, step: StepFn, actions: seq<Action>, a: Action)
    ensures
      var (before, replies) := RunActions(s, name, step, actions);
      var (after, reply) := Dispatch(before, name, step, a);
      RunActions(s, name, step, actions + [a]) == (after, replies + reply)
  {
    assert (actions + [a])[..|actions|] == actions;
  }

  /** Running two batches of actions one after the other is running their
      concatenation: nothing is reordered, merged or dropped. */
  lemma {:induction false} RunActionsAppend(s: ManagerState, name: string, step: StepFn, a: seq<Action>, b: seq<Action>)
    ensures
      var (mid, first) := RunActions(s, name, step, a);
      var (last, second) := RunActions(mid, name, step, b);
      RunActions(s, name, step, a + b) == (last, first + second)
    decreases |b|
  {
    if b == [] {
      var (mid, first) := RunActions(s, name, step, a);
      assert a + b == a && first + [] == first;
      assert RunActions(mid, name, step, b) == (mid, []);
    } else {
      var b', x := b[..|b| - 1], b[|b| - 1];
      assert b == b' + [x];
      assert a + b == (a + b') + [x];
      var (mid, first) := RunActions(s, name, step, a);
      var (last', second') := RunActions(mid, name, step, b');
      var (last, reply) := Dispatch(last', name, step, x);
      RunActionsAppend(s, name, step, a, b');
      RunActionsSnoc(s, name, step, a + b', x);
      RunActionsSnoc(mid, name, step, b', x);
      assert RunActions(mid, name, step, b) == (last, second' + reply);
      assert RunActions(s, name, step, a + b) == (last, (first + second') + reply);
      assert (first + second') + reply == first + (second' + reply);
    }
  }

  /** Starting a task while another one runs is refused and leaves the first
      one in place: the second reply is `Busy` and the sequence is still the
      first one's. */
  lemma StartWhileBusyIsRejected(s: ManagerState, name: string, step: StepFn, first: seq<string>, second: seq<string>)
    requires s.status == Idle
    ensures
      var (after, replies) := RunActions(s, name, step, [Start(first), Start(second)]);
      && replies == [Started(Ok(())), Started(Err(ServiceStatusError.Busy))]
      && after.progress == Some(ProgressSequence(first))
      && after.status == ServiceStatus.Busy
      && after == RunActions(s, name, step, [Start(first)]).0
  {
    RunActionsSnoc(s, name, step, [], Start(first));
    RunActionsSnoc(s, name, step, [Start(first)], Start(second));
  }

  /** Whatever happened before, a `Finish` leaves the manager idle with no
      sequence, and the last two events are the finished step and the change
      to idle. */
  lemma FinishAlwaysResets(s: ManagerState, name: string, step: StepFn, actions: seq<Action>)
    ensures
      var after := RunActions(s, name, step, actions + [Finish]).0;
      && after.status == Idle && after.progress == None
      && |after.events| >= 2
      && after.events[|after.events| - 2..] == [ProgressChanged(name, FinishedProgress), ServiceStatusChanged(name, 0)]
  {
    assert (actions + [Finish])[..|actions|] == actions;
  }

  /** Stepping and querying never change the status or the active sequence,
      however many of them arrive. */
  lemma {:induction false} StepsAndQueriesKeepState(s: ManagerState, name: string, step: StepFn, actions: seq<Action>)
    requires forall i :: 0 <= i < |actions| ==> actions[i].NextStep? || actions[i].GetProgress?
    ensures RunActions(s, name, step, actions).0.progress == s.progress
    ensures RunActions(s, name, step, actions).0.status == s.status
    decreases |actions|
  {
    if actions != [] {
      StepsAndQueriesKeepState(s, name, step, actions[..|actions| - 1]);
    }
  }

  /** Right after a successful start, a query describes the new sequence:
      its steps are exactly the ones given, and it answers nothing only when
      the sequence has no current step. */
  lemma QueryAfterStart(s: ManagerState, name: string, step: StepFn, steps: seq<string>)
    requires s.status == Idle
    ensures
      var replies := RunActions(s, name, step, [Start(steps), GetProgress]).1;
      && |replies| == 2 && replies[1].ProgressReply?
      && (replies[1].summary.None? <==> step(ProgressSequence(steps)).None?)
      && (replies[1].summary.Some? ==> replies[1].summary.value.steps == steps)
  {
    RunActionsSnoc(s, name, step, [], Start(steps));
    RunActionsSnoc(s, name, step, [Start(steps)], GetProgress);
  }

  /** The manager: the two fields the source mutates, the name and the
      (uninterpreted) step function fixed at creation, and the ghost log of
      published events. */
  class ServiceStatusManager {
    const name: string
    const step: StepFn
    var progress: Option<ProgressSequence>
    var status: ServiceStatus
    ghost var events: seq<Event>

    ghost function State(): ManagerState
      reads this
    {
      ManagerState(progress, status, events)
    }

    ghost predicate Valid()
      reads this
    {
      Consistent(State())
    }

    /** `ServiceStatusManager::new`: idle, no sequence, nothing published. */
    constructor (name: string, step: StepFn)
      ensures this.name == name && this.step == step
      ensures progress == None && status == Idle && events == []
      ensures Valid()
    {
      this.name := name;
      this.step := step;
      progress := None;
      status := Idle;
      events := [];
    }

    /** `is_busy` looks at the status only; under the invariant that is the
        same as having an active sequence. */
    function IsBusy(): (busy: bool)
      reads this
      ensures Valid() ==> (busy <==> progress.Some?)
    {
      status == ServiceStatus.Busy
    }

    method StartTask(steps: seq<string>) returns (r: Result<(), ServiceStatusError>)
      modifies this
      ensures (State(), r) == StartTransition(old(State()), name, step, steps)
      ensures old(status) == ServiceStatus.Busy ==> r == Err(ServiceStatusError.Busy) && unchanged(this)
      ensures old(status) == Idle ==> r == Ok(()) && progress == Some(ProgressSequence(steps)) && status == ServiceStatus.Busy
      ensures r.Ok? ==> Valid()
    {
      if IsBusy() {
        return Err(ServiceStatusError.Busy);
      }
      var p := ProgressSequence(steps);
      match step(p) {
        case Some(current) =>
          events := events + [ProgressChanged(name, current)];
        case None =>
      }
      progress := Some(p);
      status := ServiceStatus.Busy;
      events := events + [ServiceStatusChanged(name, StatusCode(status))];
      r := Ok(());
      assert events == old(events) + (match step(p) case Some(current) => [ProgressChanged(name, current)] case None => [])
        + [ServiceStatusChanged(name, StatusCode(ServiceStatus.Busy))];
    }

    method NextStep() returns (r: Option<Progress>)
      modifies this
      ensures (State(), r) == NextStepTransition(old(State()), name, step)
      ensures progress == old(progress) && status == old(status)
      ensures r.None? ==> events == old(events)
      ensures r.Some? ==> events == old(events) + [ProgressChanged(name, r.value)]
    {
      match progress {
        case None =>
          return None;
        case Some(p) =>
          match step(p) {
            case None =>
              return None;
            case Some(current) =>
              events := events + [ProgressChanged(name, current)];
              return Some(current);
          }
      }
    }

    method FinishTask()
      modifies this
      ensures State() == FinishTransition(old(State()), name)
      ensures Valid()
    {
      progress := None;
      events := events + [ProgressChanged(name, FinishedProgress)];
      status := Idle;
      events := events + [ServiceStatusChanged(name, StatusCode(status))];
    }

    /** `get_progress` only reads. */
    method GetProgress() returns (r: Option<ProgressSummary>)
      ensures r == ProgressQuery(State(), step)
      ensures progress.None? ==> r.None?
      ensures r.Some? ==> r.value.steps == progress.value.steps
    {
      match progress {
        case None =>
          r := None;
        case Some(p) =>
          match step(p) {
            case None =>
              r := None;
            case Some(current) =>
              r := Some(ProgressSummary(p.steps, current.currentStep, current.maxSteps, current.currentTitle, current.finished));
          }
      }
    }

    /** `run`: drains the actions in order, answering `Start` and
        `GetProgress`. */
    method Run(actions: seq<Action>) returns (replies: seq<Reply>)
      modifies this
      ensures (State(), replies) == RunActions(old(State()), name, step, actions)
      ensures |replies| == TotalReplyCount(actions)
      ensures old(Valid()) ==> Valid()
    {
      ghost var initial := State();
      replies := [];
      var i := 0;
      while i < |actions|
        invariant 0 <= i <= |actions|
        invariant (State(), replies) == RunActions(initial, name, step, actions[..i])
      {
        ghost var before, answered := State(), replies;
        var (after, reply) := Dispatch(before, name, step, actions[i]);
        match actions[i] {
          case Start(steps) =>
            var result := StartTask(steps);
            replies := replies + [Started(result)];
          case NextStep =>
            var ignored := NextStep();
          case Finish =>
            FinishTask();
          case GetProgress =>
            var summary := GetProgress();
            replies := replies + [ProgressReply(summary)];
        }
        assert State() == after && replies == answered + reply;
        assert actions[..i + 1] == actions[..i] + [actions[i]];
        RunActionsSnoc(initial, name, step, actions[..i], actions[i]);
        i := i + 1;
      }
      assert actions[..|actions|] == actions;
    }
  }
}
