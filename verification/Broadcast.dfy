/** Selector-driven broadcasts: the dispatcher's envelope, and devices that elect themselves to run it. */
module Broadcast {
  import opened Text
  import EvalSlots

  // ----- the dispatcher -----

  /** A resolved function row; an empty id stands for a row without one. */
  datatype Row = Row(device: string, function_: string)

  datatype Envelope = Envelope(
    correlation: string, function_: string, targets: set<string>, where_: Option<string>, fireAt: Option<real>,
    onLate: string)

  datatype Rejection = InvalidOnLate | AmbiguousFunction | InvalidPredicate

  datatype Answer =
    | Rejected(reason: Rejection)
    | NoCandidates
    | Published(envelope: Envelope, candidates: nat)

  function DeviceIds(rows: seq<Row>): set<string> {
    set r | r in rows && r.device != "" :: r.device
  }

  function FunctionNames(rows: seq<Row>): set<string> {
    set r | r in rows && r.function_ != "" :: r.function_
  }

  function FirstName(rows: seq<Row>): string {
    if rows == [] then "" else if rows[0].function_ != "" then rows[0].function_ else FirstName(rows[1..])
  }

  /** `broadcast` on the rows its selector resolved to; `compiles` tells whether the predicate compiles. */
  function Dispatch(rows: seq<Row>, where_: Option<string>, compiles: bool, fireAt: Option<real>, onLate: string,
                    correlation: string): Answer
  {
    if onLate != "skip" && onLate != "fire" then Rejected(InvalidOnLate)
    else if rows == [] then NoCandidates
    else if |FunctionNames(rows)| != 1 then Rejected(AmbiguousFunction)
    else if where_.Some? && !compiles then Rejected(InvalidPredicate)
    else
      var targets := DeviceIds(rows);
      var kept := if where_ == Some("") then None else where_;
      Published(Envelope(correlation, FirstName(rows), targets, kept, fireAt, onLate), |targets|)
  }

  lemma {:induction false} FirstNameIsNamed(rows: seq<Row>)
    requires FunctionNames(rows) != {}
    ensures FirstName(rows) != "" && FirstName(rows) in FunctionNames(rows)
  {
    if rows[0].function_ == "" {
      var r :| r in rows && r.function_ != "";
      assert r in rows[1..];
      assert r.function_ in FunctionNames(rows[1..]);
      FirstNameIsNamed(rows[1..]);
    }
  }

  // ----- the devices -----

  /** What has become of one envelope on one device. `gate` is the time at which the lateness test was made and
      `passed` the predicate's verdict. */
  datatype Phase =
    | Created
    | Dropped(gate: real, passed: bool)
    | Sleeping(gate: real, passed: bool, until: real)
    | Running(gate: real, passed: bool, firedAt: real)
    | Done(gate: real, passed: bool, firedAt: real)

  datatype Task = Task(device: string, envelope: Envelope, phase: Phase)

  datatype Reply = Reply(task: nat, device: string, correlation: string)

  datatype Fleet = Fleet(now: real, tasks: seq<Task>, replies: seq<Reply>)

  datatype Step =
    | Deliver(device: string, envelope: Envelope)
    | Decide(t: nat, passed: bool)
    | Wake(t: nat)
    | Finish(t: nat)
    | Tick(now: real)

  /** The tests of `on_msg` before a task is made. */
  predicate Accepts(device: string, e: Envelope) {
    e.correlation != "" && (e.targets == {} || device in e.targets) && e.function_ != ""
  }

  /** An empty predicate is none. */
  predicate Conditional(e: Envelope) {
    e.where_.Some? && e.where_.value != ""
  }

  /** Predicate, lateness and hold, up to the sleep or the call. */
  function Decided(e: Envelope, passed: bool, now: real): Phase {
    if Conditional(e) && !passed then Dropped(now, passed)
    else if e.fireAt.None? then Running(now, passed, now)
    else
      var delay := e.fireAt.value - now;
      if delay < 0.0 && e.onLate == "skip" then Dropped(now, passed)
      else if delay > 0.0 then Sleeping(now, passed, now + delay)
      else Running(now, passed, now)
  }

  predicate Enabled(s: Fleet, step: Step) {
    match step
    case Deliver(_, _) => true
    case Decide(t, _) => t < |s.tasks| && s.tasks[t].phase.Created?
    case Wake(t) => t < |s.tasks| && s.tasks[t].phase.Sleeping? && s.now >= s.tasks[t].phase.until
    case Finish(t) => t < |s.tasks| && s.tasks[t].phase.Running?
    case Tick(now) => now >= s.now
  }

  function WithPhase(s: Fleet, t: nat, p: Phase): Fleet
    requires t < |s.tasks|
  {
    s.(tasks := s.tasks[t := s.tasks[t].(phase := p)])
  }

  function Next(s: Fleet, step: Step): Fleet
    requires Enabled(s, step)
  {
    match step
    case Deliver(d, e) => if Accepts(d, e) then s.(tasks := s.tasks + [Task(d, e, Created)]) else s
    case Decide(t, passed) => WithPhase(s, t, Decided(s.tasks[t].envelope, passed, s.now))
    case Wake(t) => WithPhase(s, t, Running(s.tasks[t].phase.gate, s.tasks[t].phase.passed, s.now))
    case Finish(t) =>
      var task, p := s.tasks[t], s.tasks[t].phase;
      WithPhase(s, t, Done(p.gate, p.passed, p.firedAt))
      .(replies := s.replies + [Reply(t, task.device, task.envelope.correlation)])
    case Tick(now) => s.(now := now)
  }

  predicate IsRun(s: Fleet, steps: seq<Step>)
    decreases |steps|
  {
    steps == [] || (Enabled(s, steps[0]) && IsRun(Next(s, steps[0]), steps[1..]))
  }

  function Execute(s: Fleet, steps: seq<Step>): Fleet
    requires IsRun(s, steps)
    decreases |steps|
  {
    if steps == [] then s else Execute(Next(s, steps[0]), steps[1..])
  }

  const QUIET := Fleet(0.0, [], [])

  // ----- what every task keeps -----

  predicate Fired(p: Phase) {
    p.Running? || p.Done?
  }

  /** Late at the gate under the policy that skips. */
  predicate Late(e: Envelope, gate: real) {
    e.fireAt.Some? && e.onLate == "skip" && gate > e.fireAt.value
  }

  /** A device that holds or runs the function was meant to: it is a target, its predicate held, it was not late
      under `skip`, and it does not run early. One that dropped it had a reason. */
  predicate Justified(task: Task) {
    var e, p := task.envelope, task.phase;
    && Accepts(task.device, e)
    && (p.Sleeping? || Fired(p) ==> (Conditional(e) ==> p.passed) && !Late(e, p.gate))
    && (p.Dropped? ==> (Conditional(e) && !p.passed) || Late(e, p.gate))
    && (p.Sleeping? ==> e.fireAt.Some? && p.until == e.fireAt.value)
    && (Fired(p) && e.fireAt.Some? ==> p.firedAt >= e.fireAt.value)
  }

  /** Each reply is of a finished task, and no task replies twice. */
  ghost predicate Replied(s: Fleet) {
    && (forall k :: 0 <= k < |s.replies| ==>
          var r := s.replies[k];
          && r.task < |s.tasks| && s.tasks[r.task].phase.Done?
          && r.device == s.tasks[r.task].device && r.correlation == s.tasks[r.task].envelope.correlation)
    && (forall i, j :: 0 <= i < j < |s.replies| ==> s.replies[i].task != s.replies[j].task)
  }

  ghost predicate Sound(s: Fleet) {
    (forall t :: 0 <= t < |s.tasks| ==> Justified(s.tasks[t])) && Replied(s)
  }

  lemma SoundKept(s: Fleet, step: Step)
    requires Sound(s) && Enabled(s, step)
    ensures Sound(Next(s, step))
  {
  }

  lemma {:induction false} RunsAreSound(s: Fleet, steps: seq<Step>)
    requires Sound(s) && IsRun(s, steps)
    ensures Sound(Execute(s, steps))
    decreases |steps|
  {
    hide Sound, Next;
    if steps == [] {
    } else {
      SoundKept(s, steps[0]);
      RunsAreSound(Next(s, steps[0]), steps[1..]);
    }
  }

  // ----- every finished task replies -----

  /** The number of finished tasks of a correlation id. */
  function FinishedFor(tasks: seq<Task>, correlation: string): nat {
    if tasks == [] then 0
    else
      var last := tasks[|tasks| - 1];
      FinishedFor(tasks[..|tasks| - 1], correlation)
      + if last.phase.Done? && last.envelope.correlation == correlation then 1 else 0
  }

  predicate Counts(task: Task, correlation: string) {
    task.phase.Done? && task.envelope.correlation == correlation
  }

  lemma {:induction false} FinishedAfter(tasks: seq<Task>, t: nat, task: Task, correlation: string)
    requires t < |tasks|
    ensures FinishedFor(tasks[t := task], correlation) ==
            FinishedFor(tasks, correlation)
            - (if Counts(tasks[t], correlation) then 1 else 0) + (if Counts(task, correlation) then 1 else 0)
    decreases |tasks|
  {
    var n := |tasks| - 1;
    var after := tasks[t := task];
    if t == n {
      assert after[..n] == tasks[..n];
    } else {
      FinishedAfter(tasks[..n], t, task, correlation);
      assert after[..n] == tasks[..n][t := task];
    }
  }

  lemma {:induction false} RepliesToMore(replies: seq<Reply>, r: Reply, correlation: string)
    ensures |RepliesTo(replies + [r], correlation)| ==
            |RepliesTo(replies, correlation)| + if r.correlation == correlation then 1 else 0
    decreases |replies|
  {
    if replies == [] {
      assert [] + [r] == [r] && [r][1..] == [];
    } else {
      assert (replies + [r])[1..] == replies[1..] + [r];
      RepliesToMore(replies[1..], r, correlation);
    }
  }

  /** Every finished task has its reply. */
  ghost predicate Answering(s: Fleet) {
    forall t :: 0 <= t < |s.tasks| && s.tasks[t].phase.Done? ==>
      exists k :: 0 <= k < |s.replies| && s.replies[k].task == t
  }

  lemma AnsweringKept(s: Fleet, step: Step)
    requires Answering(s) && Enabled(s, step)
    ensures Answering(Next(s, step))
  {
    hide Decided, Accepts;
    var s' := Next(s, step);
    forall t | 0 <= t < |s'.tasks| && s'.tasks[t].phase.Done?
      ensures exists k :: 0 <= k < |s'.replies| && s'.replies[k].task == t
    {
      if step.Finish? && step.t == t {
        assert s'.replies[|s.replies|].task == t;
      } else {
        assert t < |s.tasks| && s.tasks[t].phase.Done? by { DecidedIsNotDone(s, step); }
        var k :| 0 <= k < |s.replies| && s.replies[k].task == t;
        assert s'.replies[k] == s.replies[k];
      }
    }
  }

  lemma DecidedIsNotDone(s: Fleet, step: Step)
    requires Enabled(s, step)
    ensures step.Decide? ==> !Decided(s.tasks[step.t].envelope, step.passed, s.now).Done?
  {
  }

  lemma CountKept(s: Fleet, step: Step, correlation: string)
    requires Enabled(s, step) && |RepliesTo(s.replies, correlation)| == FinishedFor(s.tasks, correlation)
    ensures var s' := Next(s, step); |RepliesTo(s'.replies, correlation)| == FinishedFor(s'.tasks, correlation)
  {
    hide Decided, Accepts, FinishedFor, RepliesTo;
    var s' := Next(s, step);
    match step
    case Deliver(d, e) =>
      if Accepts(d, e) { OneMoreTask(s.tasks, Task(d, e, Created), correlation); }
    case Decide(t, _) =>
      DecidedIsNotDone(s, step);
      FinishedAfter(s.tasks, t, s'.tasks[t], correlation);
    case Wake(t) => FinishedAfter(s.tasks, t, s'.tasks[t], correlation);
    case Finish(t) =>
      FinishedAfter(s.tasks, t, s'.tasks[t], correlation);
      RepliesToMore(s.replies, s'.replies[|s.replies|], correlation);
    case Tick(_) =>
  }

  lemma OneMoreTask(tasks: seq<Task>, task: Task, correlation: string)
    requires !task.phase.Done?
    ensures FinishedFor(tasks + [task], correlation) == FinishedFor(tasks, correlation)
  {
    assert (tasks + [task])[..|tasks|] == tasks;
  }

  lemma {:induction false} RunsAnswer(s: Fleet, steps: seq<Step>, correlation: string)
    requires IsRun(s, steps) && Answering(s)
    requires |RepliesTo(s.replies, correlation)| == FinishedFor(s.tasks, correlation)
    ensures Answering(Execute(s, steps))
    ensures var s' := Execute(s, steps); |RepliesTo(s'.replies, correlation)| == FinishedFor(s'.tasks, correlation)
    decreases |steps|
  {
    hide Answering, Next, FinishedFor, RepliesTo;
    if steps == [] {
    } else {
      AnsweringKept(s, steps[0]);
      CountKept(s, steps[0], correlation);
      RunsAnswer(Next(s, steps[0]), steps[1..], correlation);
    }
  }

  // ----- every envelope that passes the gate becomes a task -----

  /** The deliveries of a run that are taken up, in order: the envelope has a correlation id and a function, and the
      device is one of its targets or it has none. */
  function TakenUp(steps: seq<Step>): seq<(string, Envelope)> {
    if steps == [] then []
    else
      var n := |steps| - 1;
      TakenUp(steps[..n]) +
      match steps[n]
      case Deliver(d, e) =>
        if e.correlation == "" || e.function_ == "" || (e.targets != {} && d !in e.targets) then [] else [(d, e)]
      case _ => []
  }

  lemma {:induction false} FirstTakenUp(steps: seq<Step>)
    requires steps != []
    ensures TakenUp(steps) == TakenUp([steps[0]]) + TakenUp(steps[1..])
    decreases |steps|
  {
    var n := |steps| - 1;
    if n == 0 {
      assert steps == [steps[0]] && steps[1..] == [];
    } else {
      FirstTakenUp(steps[..n]);
      assert steps[..n][1..] == steps[1..][..n - 1] && steps[1..][n - 1] == steps[n];
    }
  }

  function Origins(tasks: seq<Task>): (r: seq<(string, Envelope)>)
    ensures |r| == |tasks| && forall t :: 0 <= t < |tasks| ==> r[t] == (tasks[t].device, tasks[t].envelope)
  {
    seq(|tasks|, t requires 0 <= t < |tasks| => (tasks[t].device, tasks[t].envelope))
  }

  lemma StepTakesUp(s: Fleet, step: Step)
    requires Enabled(s, step)
    ensures Origins(Next(s, step).tasks) == Origins(s.tasks) + TakenUp([step])
  {
    hide Decided;
    assert [step][..0] == [];
    assert TakenUp([]) == [];
  }

  lemma {:induction false} RunsTakeUp(s: Fleet, steps: seq<Step>)
    requires IsRun(s, steps)
    ensures Origins(Execute(s, steps).tasks) == Origins(s.tasks) + TakenUp(steps)
    decreases |steps|
  {
    hide Next, Origins, TakenUp;
    if steps == [] {
      assert TakenUp([]) == [] by { NothingTakenUp(); }
      assert Origins(s.tasks) + [] == Origins(s.tasks);
    } else {
      StepTakesUp(s, steps[0]);
      RunsTakeUp(Next(s, steps[0]), steps[1..]);
      FirstTakenUp(steps);
      assert Origins(s.tasks) + TakenUp([steps[0]]) + TakenUp(steps[1..]) == Origins(s.tasks) + TakenUp(steps);
    }
  }

  lemma NothingTakenUp()
    ensures TakenUp([]) == []
  {
  }

  // ----- at-most-once delivery -----

  ghost predicate DeliveredOnce(steps: seq<Step>) {
    forall i, j :: 0 <= i < j < |steps| && steps[i].Deliver? && steps[j].Deliver? && steps[i].device == steps[j].device
      ==> steps[i].envelope.correlation != steps[j].envelope.correlation
  }

  /** No device has two tasks for one correlation id, nor is one still to be delivered. */
  ghost predicate Single(s: Fleet, steps: seq<Step>) {
    && (forall i, j :: 0 <= i < j < |s.tasks| && s.tasks[i].device == s.tasks[j].device ==>
          s.tasks[i].envelope.correlation != s.tasks[j].envelope.correlation)
    && (forall i, k :: 0 <= i < |s.tasks| && 0 <= k < |steps| && steps[k].Deliver? ==>
          s.tasks[i].device != steps[k].device || s.tasks[i].envelope.correlation != steps[k].envelope.correlation)
  }

  lemma SingleKept(s: Fleet, steps: seq<Step>)
    requires steps != [] && Enabled(s, steps[0]) && Single(s, steps) && DeliveredOnce(steps)
    ensures Single(Next(s, steps[0]), steps[1..]) && DeliveredOnce(steps[1..])
  {
    hide Decided, Accepts;
    var t := Next(s, steps[0]);
    assert |s.tasks| <= |t.tasks| <= |s.tasks| + 1;
    assert forall i :: 0 <= i < |s.tasks| ==>
      t.tasks[i].device == s.tasks[i].device && t.tasks[i].envelope == s.tasks[i].envelope;
  }

  lemma {:induction false} RunsAreSingle(s: Fleet, steps: seq<Step>)
    requires IsRun(s, steps) && Single(s, steps) && DeliveredOnce(steps)
    ensures Single(Execute(s, steps), [])
    decreases |steps|
  {
    hide Single, DeliveredOnce, Next;
    if steps == [] {
    } else {
      SingleKept(s, steps);
      RunsAreSingle(Next(s, steps[0]), steps[1..]);
    }
  }

  /** All tasks for a correlation id carry one envelope, when all deliveries do. */
  ghost predicate SameEnvelope(s: Fleet, e: Envelope) {
    forall t :: 0 <= t < |s.tasks| && s.tasks[t].envelope.correlation == e.correlation ==> s.tasks[t].envelope == e
  }

  ghost predicate DeliversOnly(steps: seq<Step>, e: Envelope) {
    forall k :: 0 <= k < |steps| && steps[k].Deliver? && steps[k].envelope.correlation == e.correlation ==>
      steps[k].envelope == e
  }

  lemma {:induction false} RunsKeepEnvelope(s: Fleet, steps: seq<Step>, e: Envelope)
    requires IsRun(s, steps) && SameEnvelope(s, e) && DeliversOnly(steps, e)
    ensures SameEnvelope(Execute(s, steps), e)
    decreases |steps|
  {
    hide Decided, Accepts;
    if steps == [] {
    } else {
      RunsKeepEnvelope(Next(s, steps[0]), steps[1..], e);
    }
  }

  // ----- main results -----

  /** The envelope that is published names the one function all rows with a name agree on, and its gate is the
      selection: a device passes if it is one of those selected, and every device does when no row carried an id. */
  lemma GateIsSelection(rows: seq<Row>, where_: Option<string>, compiles: bool, fireAt: Option<real>, onLate: string,
                        correlation: string, device: string)
    requires correlation != ""
    requires Dispatch(rows, where_, compiles, fireAt, onLate, correlation).Published?
    ensures var a := Dispatch(rows, where_, compiles, fireAt, onLate, correlation);
            && FunctionNames(rows) == {a.envelope.function_}
            && (Accepts(device, a.envelope) <==> device in DeviceIds(rows) || DeviceIds(rows) == {})
            && a.candidates == |DeviceIds(rows)|
    ensures (forall r :: r in rows ==> r.device != "") ==> DeviceIds(rows) != {}
  {
    var names := FunctionNames(rows);
    FirstNameIsNamed(rows);
    assert |names - {FirstName(rows)}| == 0;
    assert names == {FirstName(rows)};
    if forall r :: r in rows ==> r.device != "" { assert rows[0].device in DeviceIds(rows); }
  }

  /** The name is that of some row, and of every row that has one. */
  predicate OneFunction(rows: seq<Row>, name: string) {
    && name != ""
    && (exists r :: r in rows && r.function_ == name)
    && (forall r :: r in rows ==> r.function_ == "" || r.function_ == name)
  }

  lemma OneFunctionIsName(rows: seq<Row>, name: string)
    ensures OneFunction(rows, name) <==> FunctionNames(rows) == {name}
  {
    var names := FunctionNames(rows);
    if names == {name} {
      assert name in names;
      forall r | r in rows && r.function_ != "" ensures r.function_ == name { assert r.function_ in names; }
    }
  }

  /** An envelope is published if and only if the lateness policy is one of the two, the rows have one function between
      them, and the predicate compiles if there is one; each refusal has its own cause. The envelope carries the
      function, the predicate, the time and the policy. */
  lemma PublishedIff(rows: seq<Row>, where_: Option<string>, compiles: bool, fireAt: Option<real>, onLate: string,
                     correlation: string)
    ensures var a := Dispatch(rows, where_, compiles, fireAt, onLate, correlation);
            var policy := onLate == "skip" || onLate == "fire";
            var one := exists name :: OneFunction(rows, name);
            && (a.Published? <==> policy && one && (where_.Some? ==> compiles))
            && (a.NoCandidates? <==> policy && rows == [])
            && (a == Rejected(InvalidOnLate) <==> !policy)
            && (a == Rejected(AmbiguousFunction) <==> policy && rows != [] && !one)
            && (a == Rejected(InvalidPredicate) <==> policy && one && where_.Some? && !compiles)
            && (a.Published? ==>
                  && OneFunction(rows, a.envelope.function_)
                  && a.envelope.where_ == (if where_ == Some("") then None else where_)
                  && a.envelope.fireAt == fireAt && a.envelope.onLate == onLate
                  && a.envelope.correlation == correlation)
  {
    hide OneFunction;
    var names := FunctionNames(rows);
    forall name ensures OneFunction(rows, name) <==> names == {name} { OneFunctionIsName(rows, name); }
    if |names| == 1 {
      FirstNameIsNamed(rows);
      assert |names - {FirstName(rows)}| == 0;
      assert names == {FirstName(rows)};
      assert OneFunction(rows, FirstName(rows));
    }
  }

  /** A task that has just been made for a predicate that holds, or for none, and in time, can run the function and
      reply: from every state there are steps that lead there. */
  lemma TaskCanReply(s: Fleet, t: nat)
    requires t < |s.tasks| && s.tasks[t].phase.Created?
    requires var e := s.tasks[t].envelope; e.fireAt.Some? && e.onLate == "skip" ==> s.now <= e.fireAt.value
    ensures var task := s.tasks[t];
            exists steps :: IsRun(s, steps) && Execute(s, steps).replies ==
                            s.replies + [Reply(t, task.device, task.envelope.correlation)]
  {
    hide IsRun, Execute;
    var e := s.tasks[t].envelope;
    var s1 := Next(s, Decide(t, true));
    if e.fireAt.Some? && e.fireAt.value > s.now {
      var s2 := Next(s1, Tick(e.fireAt.value));
      var s3 := Next(s2, Wake(t));
      Ends(s3, Finish(t));
      Precedes(s2, Wake(t), [Finish(t)]);
      Precedes(s1, Tick(e.fireAt.value), [Wake(t)] + [Finish(t)]);
      Precedes(s, Decide(t, true), [Tick(e.fireAt.value)] + ([Wake(t)] + [Finish(t)]));
    } else {
      Ends(s1, Finish(t));
      Precedes(s, Decide(t, true), [Finish(t)]);
    }
  }

  lemma Ends(s: Fleet, step: Step)
    requires Enabled(s, step)
    ensures IsRun(s, [step]) && Execute(s, [step]) == Next(s, step)
  {
    assert [step][1..] == [];
    assert IsRun(Next(s, step), []);
  }

  lemma Precedes(s: Fleet, step: Step, rest: seq<Step>)
    requires Enabled(s, step) && IsRun(Next(s, step), rest)
    ensures IsRun(s, [step] + rest) && Execute(s, [step] + rest) == Execute(Next(s, step), rest)
  {
    assert ([step] + rest)[1..] == rest;
  }

  /** Over every run, exactly the deliveries that pass the gate have become tasks, in their order; a finished task has
      one reply, which carries its device and correlation id; and so a correlation id has as many replies as finished
      tasks. */
  lemma EveryFinishedTaskReplies(steps: seq<Step>, correlation: string)
    requires IsRun(QUIET, steps)
    ensures var s := Execute(QUIET, steps);
            && Origins(s.tasks) == TakenUp(steps)
            && |RepliesTo(s.replies, correlation)| == FinishedFor(s.tasks, correlation)
    ensures forall t :: 0 <= t < |Execute(QUIET, steps).tasks| && Execute(QUIET, steps).tasks[t].phase.Done? ==>
              RepliesOnce(Execute(QUIET, steps), t)
  {
    hide Execute, IsRun, Next, TakenUp, Origins;
    RunsAreSound(QUIET, steps);
    RunsAnswer(QUIET, steps, correlation);
    RunsTakeUp(QUIET, steps);
    assert Origins([]) == [];
    assert [] + TakenUp(steps) == TakenUp(steps);
  }

  /** One reply comes from task `t`, and it names that device and correlation id. */
  ghost predicate RepliesOnce(s: Fleet, t: nat)
    requires t < |s.tasks|
  {
    exists k :: 0 <= k < |s.replies|
      && s.replies[k] == Reply(t, s.tasks[t].device, s.tasks[t].envelope.correlation)
      && forall i :: 0 <= i < |s.replies| && s.replies[i].task == t ==> i == k
  }

  /** Over every run, whenever a function has been fired for an envelope: the device passed the target gate, its
      predicate evaluated true if there was one, under `skip` it was not late at the gate, and it did not fire before
      `fire_at`. */
  lemma FiredAsMeant(steps: seq<Step>, t: nat)
    requires IsRun(QUIET, steps) && t < |Execute(QUIET, steps).tasks| && Fired(Execute(QUIET, steps).tasks[t].phase)
    ensures var task := Execute(QUIET, steps).tasks[t];
            var e, p := task.envelope, task.phase;
            && (e.targets == {} || task.device in e.targets)
            && (e.where_.Some? && e.where_.value != "" ==> p.passed)
            && !(e.fireAt.Some? && e.onLate == "skip" && p.gate > e.fireAt.value)
            && (e.fireAt.Some? ==> p.firedAt >= e.fireAt.value)
  {
    hide Execute, IsRun, Next;
    RunsAreSound(QUIET, steps);
  }

  /** Over every run, a device that takes up an envelope and drops it does so for one of two reasons: its predicate did
      not hold, or it was late under `skip`. */
  lemma DroppedForCause(steps: seq<Step>, t: nat)
    requires IsRun(QUIET, steps) && t < |Execute(QUIET, steps).tasks| && Execute(QUIET, steps).tasks[t].phase.Dropped?
    ensures var task := Execute(QUIET, steps).tasks[t];
            var e, p := task.envelope, task.phase;
            || (e.where_.Some? && e.where_.value != "" && !p.passed)
            || (e.fireAt.Some? && e.onLate == "skip" && p.gate > e.fireAt.value)
  {
    hide Execute, IsRun, Next;
    RunsAreSound(QUIET, steps);
  }

  /** Each delivered envelope is answered at most once; under at-most-once delivery the replies to an envelope with
      targets come from distinct targets, so there are at most `candidates` of them. */
  lemma RepliesAreBounded(steps: seq<Step>, e: Envelope)
    requires IsRun(QUIET, steps) && DeliveredOnce(steps) && DeliversOnly(steps, e) && e.targets != {}
    ensures var mine := RepliesTo(Execute(QUIET, steps).replies, e.correlation);
            && (forall i, j :: 0 <= i < j < |mine| ==> mine[i].device != mine[j].device)
            && (forall i :: 0 <= i < |mine| ==> mine[i].device in e.targets)
            && |mine| <= |e.targets|
  {
    hide Execute, IsRun, Next;
    RunsAreSound(QUIET, steps);
    RunsAreSingle(QUIET, steps);
    RunsKeepEnvelope(QUIET, steps, e);
    var s := Execute(QUIET, steps);
    var mine := RepliesTo(s.replies, e.correlation);
    RepliesToAreReplies(s.replies, e.correlation);
    forall i, j | 0 <= i < j < |mine| ensures mine[i].device != mine[j].device {
      assert mine[i] in s.replies && mine[j] in s.replies;
    }
    forall i | 0 <= i < |mine| ensures mine[i].device in e.targets { assert mine[i] in s.replies; }
    DistinctFit(mine, e.targets);
  }

  /** Broadcast safety, end to end. The rows that a selector resolved to all carry device ids, and the run delivers no
      other envelope for the correlation id than the one published. Then whatever fires for it is one of the devices
      selected, its predicate held if one was given, it was not late under `skip`, and it fires at or after `fire_at`;
      and if no device gets the envelope twice, the replies come from distinct devices selected, and there are no more
      of them than candidates. */
  lemma BroadcastIsSafe(rows: seq<Row>, where_: Option<string>, compiles: bool, fireAt: Option<real>, onLate: string,
                        correlation: string, steps: seq<Step>)
    requires correlation != "" && forall r :: r in rows ==> r.device != ""
    requires Dispatch(rows, where_, compiles, fireAt, onLate, correlation).Published?
    requires IsRun(QUIET, steps)
    requires DeliversOnly(steps, Dispatch(rows, where_, compiles, fireAt, onLate, correlation).envelope)
    ensures forall t :: 0 <= t < |Execute(QUIET, steps).tasks| ==>
              FiredSafely(Execute(QUIET, steps).tasks[t], DeviceIds(rows), where_, fireAt, onLate, correlation)
    ensures var replies := RepliesTo(Execute(QUIET, steps).replies, correlation);
            DeliveredOnce(steps) ==>
              && (forall i, j :: 0 <= i < j < |replies| ==> replies[i].device != replies[j].device)
              && (forall i :: 0 <= i < |replies| ==> replies[i].device in DeviceIds(rows))
              && |replies| <= Dispatch(rows, where_, compiles, fireAt, onLate, correlation).candidates
  {
    hide Execute, IsRun, Next, DeliversOnly, DeliveredOnce, RepliesTo, FiredSafely;
    var a := Dispatch(rows, where_, compiles, fireAt, onLate, correlation);
    GateIsSelection(rows, where_, compiles, fireAt, onLate, correlation, "");
    NoTasksYet(a.envelope);
    RunsKeepEnvelope(QUIET, steps, a.envelope);
    forall t | 0 <= t < |Execute(QUIET, steps).tasks|
      ensures FiredSafely(Execute(QUIET, steps).tasks[t], DeviceIds(rows), where_, fireAt, onLate, correlation)
    {
      TaskIsSafe(rows, where_, compiles, fireAt, onLate, correlation, steps, t);
    }
    if DeliveredOnce(steps) { RepliesAreBounded(steps, a.envelope); }
  }

  /** A task for the correlation id, if it has fired, was meant to. */
  predicate FiredSafely(task: Task, selected: set<string>, where_: Option<string>, fireAt: Option<real>, onLate: string,
                        correlation: string)
  {
    task.envelope.correlation == correlation && Fired(task.phase) ==>
      && task.device in selected
      && (where_.Some? && where_.value != "" ==> task.phase.passed)
      && (fireAt.Some? && onLate == "skip" ==> task.phase.gate <= fireAt.value)
      && (fireAt.Some? ==> task.phase.firedAt >= fireAt.value)
  }

  lemma TaskIsSafe(rows: seq<Row>, where_: Option<string>, compiles: bool, fireAt: Option<real>, onLate: string,
                   correlation: string, steps: seq<Step>, t: nat)
    requires correlation != "" && DeviceIds(rows) != {}
    requires Dispatch(rows, where_, compiles, fireAt, onLate, correlation).Published?
    requires IsRun(QUIET, steps) && t < |Execute(QUIET, steps).tasks|
    requires SameEnvelope(Execute(QUIET, steps), Dispatch(rows, where_, compiles, fireAt, onLate, correlation).envelope)
    ensures FiredSafely(Execute(QUIET, steps).tasks[t], DeviceIds(rows), where_, fireAt, onLate, correlation)
  {
    hide Execute, IsRun, Next;
    var task := Execute(QUIET, steps).tasks[t];
    if task.envelope.correlation == correlation && Fired(task.phase) {
      FiredAsMeant(steps, t);
    }
  }

  lemma NoTasksYet(e: Envelope)
    ensures SameEnvelope(QUIET, e)
  {
  }

  // ----- where the verdicts come from -----

  /** The verdicts of a run come from the evaluator: where a predicate is found to hold, the call made for that task has
      answered true there. `calls` tells the call of each task. */
  ghost predicate Consults(s: Fleet, steps: seq<Step>, evaluator: EvalSlots.State, calls: map<nat, nat>)
    requires IsRun(s, steps)
    decreases |steps|
  {
    steps == [] ||
    (&& (steps[0].Decide? && steps[0].passed && Conditional(s.tasks[steps[0].t].envelope) ==>
           steps[0].t in calls && EvalSlots.SaysYes(evaluator, calls[steps[0].t]))
     && Consults(Next(s, steps[0]), steps[1..], evaluator, calls))
  }

  ghost predicate Vouched(s: Fleet, evaluator: EvalSlots.State, calls: map<nat, nat>) {
    forall t :: 0 <= t < |s.tasks| && !s.tasks[t].phase.Created? && s.tasks[t].phase.passed &&
                Conditional(s.tasks[t].envelope) ==>
      t in calls && EvalSlots.SaysYes(evaluator, calls[t])
  }

  lemma {:induction false} RunsAreVouched(s: Fleet, steps: seq<Step>, evaluator: EvalSlots.State, calls: map<nat, nat>)
    requires IsRun(s, steps) && Consults(s, steps, evaluator, calls) && Vouched(s, evaluator, calls)
    ensures Vouched(Execute(s, steps), evaluator, calls)
    decreases |steps|
  {
    hide EvalSlots.SaysYes, Conditional;
    if steps == [] {
    } else {
      RunsAreVouched(Next(s, steps[0]), steps[1..], evaluator, calls);
    }
  }

  /** Over every run of a fleet whose verdicts come from an evaluator: what fires for an envelope with a predicate does
      so because the evaluator's call for it answered true, with a predicate that finished true, no later after the
      call's deadline than the loop is ever behind its timers. */
  lemma FiredOnTrueVerdict(steps: seq<Step>, t: nat, evals: seq<EvalSlots.Step>, calls: map<nat, nat>, late: nat)
    requires IsRun(QUIET, steps) && EvalSlots.IsRun(EvalSlots.INIT, evals)
    requires Consults(QUIET, steps, EvalSlots.Execute(EvalSlots.INIT, evals), calls)
    requires t < |Execute(QUIET, steps).tasks| && Fired(Execute(QUIET, steps).tasks[t].phase)
    requires Conditional(Execute(QUIET, steps).tasks[t].envelope)
    ensures var e := EvalSlots.Execute(EvalSlots.INIT, evals);
            && t in calls && EvalSlots.SaysYes(e, calls[t])
            && var j := e.calls[calls[t]].phase.job;
               && j < |e.jobs| && e.jobs[j].Settled? && e.jobs[j].outcome == EvalSlots.Yes
               && (EvalSlots.NoLater(EvalSlots.INIT, evals, late) ==>
                     e.jobs[j].done <= e.calls[calls[t]].deadline + late)
  {
    hide Execute, IsRun, Next, EvalSlots.Execute, EvalSlots.IsRun, EvalSlots.NoLater, Consults;
    FiredAsMeant(steps, t);
    RunsAreVouched(QUIET, steps, EvalSlots.Execute(EvalSlots.INIT, evals), calls);
    EvalSlots.TrueMeansFinishedTrue(evals, calls[t], late);
  }

  function RepliesTo(replies: seq<Reply>, correlation: string): seq<Reply> {
    if replies == [] then []
    else (if replies[0].correlation == correlation then [replies[0]] else []) + RepliesTo(replies[1..], correlation)
  }

  lemma {:induction false} RepliesToAreReplies(replies: seq<Reply>, correlation: string)
    requires forall i, j :: 0 <= i < j < |replies| ==> replies[i].task != replies[j].task
    ensures var mine := RepliesTo(replies, correlation);
            && (forall r :: r in mine <==> r in replies && r.correlation == correlation)
            && (forall i, j :: 0 <= i < j < |mine| ==> mine[i].task != mine[j].task)
  {
    if replies == [] {
    } else {
      RepliesToAreReplies(replies[1..], correlation);
      var rest := RepliesTo(replies[1..], correlation);
      assert forall r :: r in replies <==> r == replies[0] || r in replies[1..];
      forall r | r in rest ensures r.task != replies[0].task {
        var k :| 0 <= k < |replies[1..]| && replies[1..][k] == r;
        assert replies[k + 1] == r;
      }
    }
  }

  lemma {:induction false} DistinctFit(rs: seq<Reply>, targets: set<string>)
    requires forall i, j :: 0 <= i < j < |rs| ==> rs[i].device != rs[j].device
    requires forall i :: 0 <= i < |rs| ==> rs[i].device in targets
    ensures |rs| <= |targets|
    decreases |rs|
  {
    if rs == [] {
    } else {
      var d := rs[0].device;
      DistinctFit(rs[1..], targets - {d});
      assert |targets - {d}| == |targets| - 1;
    }
  }
}
