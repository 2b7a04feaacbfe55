/**
  The pressure runner of `pressure.go` as a state machine: a launcher that starts
  workers on every tick, workers that send one result per SQL task into a bounded
  channel, and a collector that counts them and reports when the channel is drained.

  A state holds every goroutine's program counter. A step names the goroutine that
  moves and whatever it does not decide itself: the outcome of `db.Exec`, the tick,
  the two contexts. Every interleaving is a sequence of such steps.
 */
module Pressure {

  /** The capacity of the result channel. */
  const CAPACITY := 1000

  /** The number of SQL tasks, the passes over them per worker, the workers per tick. */
  datatype Config = Config(tasks: nat, reqNum: int, concurrentNum: int)

  /** Where `Run` stands after it has connected. */
  datatype Launcher =
    | Selecting
    | Spawning(i: nat)
    | Starting(i: nat)
    | Waiting
    | Closing
    | Awaiting
    | Returned

  /** Where `exec` stands: before a pass, at task `j` of one, or on its way out. */
  datatype WorkerPc =
    | Checking
    | Executing(j: nat)
    | Sending(j: nat, ok: bool)
    | Exiting
    | Finished

  datatype Worker = Worker(passes: nat, pc: WorkerPc)

  /** Where `handleResponse` stands. */
  datatype Collector = Receiving | Handling(ret: bool) | Signalling | Ended

  /** `sent` and `handled` are history: every result sent, every result counted. */
  datatype State = State(
    launcher: Launcher, workers: seq<Worker>, wg: int, rootDone: bool, expired: bool,
    channel: seq<bool>, closed: bool, collector: Collector, total: int, success: int,
    panicked: bool, sent: seq<bool>, handled: seq<bool>)

  datatype Step =
    | CancelRoot | Expire
    | Tick | Leave | Spawn | Go | WaitOver | Close | Rendezvous
    | Check(w: nat) | Exec(w: nat, ok: bool) | Send(w: nat) | Done(w: nat)
    | Receive | Handle | Drained

  const INITIAL := State(Selecting, [], 0, false, false, [], false, Receiving, 0, 0, false, [], [])

  predicate Enabled(cfg: Config, s: State, step: Step) {
    && !s.panicked
    && match step
       case CancelRoot => !s.rootDone
       case Expire => !s.expired
       case Tick => s.launcher.Selecting?
       case Leave => s.launcher.Selecting? && (s.rootDone || s.expired)
       case Spawn => s.launcher.Spawning?
       case Go => s.launcher.Starting?
       case WaitOver => s.launcher.Waiting? && s.wg == 0
       case Close => s.launcher.Closing?
       case Rendezvous => s.launcher.Awaiting? && s.collector.Signalling?
       case Check(w) => w < |s.workers| && s.workers[w].pc.Checking?
       case Exec(w, _) => w < |s.workers| && s.workers[w].pc.Executing?
       case Send(w) => w < |s.workers| && s.workers[w].pc.Sending? && (s.closed || |s.channel| < CAPACITY)
       case Done(w) => w < |s.workers| && s.workers[w].pc.Exiting?
       case Receive => s.collector.Receiving? && s.channel != []
       case Handle => s.collector.Handling?
       case Drained => s.collector.Receiving? && s.channel == [] && s.closed
  }

  /** A send or a close on a closed channel, and a negative WaitGroup, panic. */
  function Apply(cfg: Config, s: State, step: Step): State
    requires Enabled(cfg, s, step)
  {
    match step
    case CancelRoot => s.(rootDone := true)
    case Expire => s.(expired := true)
    case Tick => s.(launcher := Spawning(0))
    case Leave => s.(launcher := Waiting)
    case Spawn =>
      if s.launcher.i < cfg.concurrentNum then s.(wg := s.wg + 1, launcher := Starting(s.launcher.i))
      else s.(launcher := Selecting)
    case Go => s.(workers := s.workers + [Worker(0, Checking)], launcher := Spawning(s.launcher.i + 1))
    case WaitOver => s.(launcher := Closing)
    case Close => if s.closed then s.(panicked := true) else s.(closed := true, launcher := Awaiting)
    case Rendezvous => s.(launcher := Returned, collector := Ended)
    case Check(w) => s.(workers := s.workers[w := AfterCheck(cfg, s.workers[w], s.expired)])
    case Exec(w, ok) =>
      var me := s.workers[w];
      s.(workers := s.workers[w := me.(pc := Sending(me.pc.j, ok))])
    case Send(w) =>
      if s.closed then s.(panicked := true)
      else
        var me := s.workers[w];
        s.(workers := s.workers[w := AfterSend(cfg, me)], channel := s.channel + [me.pc.ok], sent := s.sent + [me.pc.ok])
    case Done(w) =>
      if s.wg <= 0 then s.(panicked := true)
      else s.(workers := s.workers[w := s.workers[w].(pc := Finished)], wg := s.wg - 1)
    case Receive => s.(channel := s.channel[1..], collector := Handling(s.channel[0]))
    case Handle =>
      s.(total := s.total + 1, success := if s.collector.ret then s.success + 1 else s.success,
         handled := s.handled + [s.collector.ret], collector := Receiving)
    case Drained => s.(collector := Signalling)
  }

  /** Cancellation is looked at only here, between two passes over the task list. */
  function AfterCheck(cfg: Config, me: Worker, expired: bool): Worker {
    if me.passes >= cfg.reqNum || expired || cfg.tasks == 0 then me.(pc := Exiting) else me.(pc := Executing(0))
  }

  function AfterSend(cfg: Config, me: Worker): Worker
    requires me.pc.Sending?
  {
    if me.pc.j + 1 < cfg.tasks then me.(pc := Executing(me.pc.j + 1)) else Worker(me.passes + 1, Checking)
  }

  // ---------- Runs ----------

  ghost predicate IsRun(cfg: Config, states: seq<State>, steps: seq<Step>) {
    && |states| == |steps| + 1
    && forall i :: 0 <= i < |steps| ==> Enabled(cfg, states[i], steps[i]) && states[i + 1] == Apply(cfg, states[i], steps[i])
  }

  // ---------- Sums over the workers ----------

  function Sum(ws: seq<Worker>, f: Worker -> int): int {
    if ws == [] then 0 else f(ws[0]) + Sum(ws[1..], f)
  }

  lemma {:induction false} SumUpdate(ws: seq<Worker>, f: Worker -> int, w: nat, x: Worker)
    requires w < |ws|
    ensures Sum(ws[w := x], f) == Sum(ws, f) - f(ws[w]) + f(x)
    decreases |ws|
  {
    if w == 0 {
      assert ws[0 := x][1..] == ws[1..];
    } else {
      assert ws[w := x][1..] == ws[1..][w - 1 := x];
      SumUpdate(ws[1..], f, w - 1, x);
    }
  }

  lemma {:induction false} SumAppend(ws: seq<Worker>, f: Worker -> int, x: Worker)
    ensures Sum(ws + [x], f) == Sum(ws, f) + f(x)
    decreases |ws|
  {
    if ws == [] {
      assert [x][1..] == [];
    } else {
      assert (ws + [x])[1..] == ws[1..] + [x];
      SumAppend(ws[1..], f, x);
    }
  }

  lemma {:induction false} SumZero(ws: seq<Worker>, f: Worker -> int)
    requires forall i :: 0 <= i < |ws| ==> f(ws[i]) >= 0
    ensures Sum(ws, f) >= 0
    ensures Sum(ws, f) == 0 <==> forall i :: 0 <= i < |ws| ==> f(ws[i]) == 0
    decreases |ws|
  {
    if ws != [] {
      SumZero(ws[1..], f);
      assert forall i :: 0 <= i < |ws| ==> i == 0 || ws[i] == ws[1..][i - 1];
    }
  }

  function Running(me: Worker): int {
    if me.pc.Finished? then 0 else 1
  }

  /** How many results a worker has sent. */
  function SentBy(cfg: Config, me: Worker): int {
    me.passes * cfg.tasks + match me.pc
                            case Executing(j) => j
                            case Sending(j, _) => j
                            case _ => 0
  }

  function Sent(cfg: Config): Worker -> int {
    me => SentBy(cfg, me)
  }

  function Trues(bs: seq<bool>): nat {
    if bs == [] then 0 else (if bs[|bs| - 1] then 1 else 0) + Trues(bs[..|bs| - 1])
  }

  // ---------- The invariant ----------

  ghost predicate WorkerOk(cfg: Config, me: Worker) {
    && (me.passes == 0 || me.passes <= cfg.reqNum)
    && (me.pc.Executing? ==> me.pc.j < cfg.tasks && me.passes < cfg.reqNum)
    && (me.pc.Sending? ==> me.pc.j < cfg.tasks && me.passes < cfg.reqNum)
  }

  /** The launch loop has been left. */
  predicate LoopLeft(s: State) {
    s.launcher.Waiting? || s.launcher.Closing? || s.launcher.Awaiting? || s.launcher.Returned?
  }

  ghost predicate AllFinished(s: State) {
    forall i :: 0 <= i < |s.workers| ==> s.workers[i].pc.Finished?
  }

  function InHand(c: Collector): seq<bool> {
    if c.Handling? then [c.ret] else []
  }

  ghost predicate Inv(cfg: Config, s: State) {
    && !s.panicked
    && (forall i :: 0 <= i < |s.workers| ==> WorkerOk(cfg, s.workers[i]))
    && s.wg == Sum(s.workers, Running) + (if s.launcher.Starting? then 1 else 0)
    && (s.launcher.Closing? || s.launcher.Awaiting? || s.launcher.Returned? ==> AllFinished(s))
    && (s.closed <==> s.launcher.Awaiting? || s.launcher.Returned?)
    && s.sent == s.handled + InHand(s.collector) + s.channel
    && s.total == |s.handled| && s.success == Trues(s.handled)
    && (s.collector.Signalling? || s.collector.Ended? ==> s.closed && s.channel == [])
    && (s.collector.Ended? <==> s.launcher.Returned?)
    && |s.channel| <= CAPACITY
    && |s.sent| == Sum(s.workers, Sent(cfg))
  }

  /** Replacing one worker that still runs moves the sums by its share. */
  lemma ReplaceWorker(cfg: Config, s: State, w: nat, x: Worker)
    requires Inv(cfg, s) && w < |s.workers| && !s.workers[w].pc.Finished? && WorkerOk(cfg, x)
    ensures WorkerOk(cfg, s.workers[w])
    ensures s.wg > 0 && !s.closed && !s.launcher.Closing?
    ensures var ws := s.workers[w := x];
            && (forall i :: 0 <= i < |ws| ==> WorkerOk(cfg, ws[i]))
            && Sum(ws, Running) == Sum(s.workers, Running) - 1 + Running(x)
            && Sum(ws, Sent(cfg)) == |s.sent| - SentBy(cfg, s.workers[w]) + SentBy(cfg, x)
  {
    SumUpdate(s.workers, Running, w, x);
    SumUpdate(s.workers, Sent(cfg), w, x);
    SomeoneRuns(s, w);
  }

  lemma SomeoneRuns(s: State, w: nat)
    requires w < |s.workers| && !s.workers[w].pc.Finished?
    ensures Sum(s.workers, Running) > 0
  {
    SumZero(s.workers, Running);
    assert Running(s.workers[w]) == 1;
  }

  lemma AnotherPass(cfg: Config, me: Worker)
    requires me.pc.Sending? && me.pc.j < cfg.tasks
    ensures SentBy(cfg, AfterSend(cfg, me)) == SentBy(cfg, me) + 1
  {
    assert (me.passes + 1) * cfg.tasks == me.passes * cfg.tasks + cfg.tasks;
  }

  lemma CheckKeepsInv(cfg: Config, s: State, w: nat)
    requires Inv(cfg, s) && Enabled(cfg, s, Check(w))
    ensures Inv(cfg, Apply(cfg, s, Check(w)))
  {
    ReplaceWorker(cfg, s, w, AfterCheck(cfg, s.workers[w], s.expired));
  }

  lemma ExecKeepsInv(cfg: Config, s: State, w: nat, ok: bool)
    requires Inv(cfg, s) && Enabled(cfg, s, Exec(w, ok))
    ensures Inv(cfg, Apply(cfg, s, Exec(w, ok)))
  {
    var me := s.workers[w];
    assert WorkerOk(cfg, me);
    ReplaceWorker(cfg, s, w, me.(pc := Sending(me.pc.j, ok)));
  }

  lemma SendKeepsInv(cfg: Config, s: State, w: nat)
    requires Inv(cfg, s) && Enabled(cfg, s, Send(w))
    ensures Inv(cfg, Apply(cfg, s, Send(w)))
  {
    var me := s.workers[w];
    assert WorkerOk(cfg, me);
    AnotherPass(cfg, me);
    ReplaceWorker(cfg, s, w, AfterSend(cfg, me));
    var t := Apply(cfg, s, Send(w));
    assert t.sent == s.handled + InHand(s.collector) + t.channel;
  }

  lemma DoneKeepsInv(cfg: Config, s: State, w: nat)
    requires Inv(cfg, s) && Enabled(cfg, s, Done(w))
    ensures Inv(cfg, Apply(cfg, s, Done(w)))
  {
    var me := s.workers[w];
    assert WorkerOk(cfg, me);
    ReplaceWorker(cfg, s, w, me.(pc := Finished));
  }

  predicate ByLauncher(step: Step) {
    step.Tick? || step.Leave? || step.Spawn? || step.Go? || step.WaitOver? || step.Close?
  }

  lemma LauncherKeepsInv(cfg: Config, s: State, step: Step)
    requires Inv(cfg, s) && Enabled(cfg, s, step) && ByLauncher(step)
    ensures Inv(cfg, Apply(cfg, s, step))
  {
    if step.Go? {
      SumAppend(s.workers, Running, Worker(0, Checking));
      SumAppend(s.workers, Sent(cfg), Worker(0, Checking));
    } else if step.WaitOver? {
      SumZero(s.workers, Running);
      assert forall i :: 0 <= i < |s.workers| ==> Running(s.workers[i]) == 0;
    }
  }

  predicate ByCollector(step: Step) {
    step.Receive? || step.Handle? || step.Drained? || step.Rendezvous?
  }

  lemma ReceiveKeepsInv(cfg: Config, s: State)
    requires Inv(cfg, s) && Enabled(cfg, s, Receive)
    ensures Inv(cfg, Apply(cfg, s, Receive))
  {
    hide WorkerOk, Sum, Trues;
    var first, rest := [s.channel[0]], s.channel[1..];
    assert s.handled + [] + s.channel == s.handled + first + rest;
  }

  lemma HandleKeepsInv(cfg: Config, s: State)
    requires Inv(cfg, s) && Enabled(cfg, s, Handle)
    ensures Inv(cfg, Apply(cfg, s, Handle))
  {
    hide WorkerOk, Sum, Sent;
    var handled := s.handled + [s.collector.ret];
    assert handled[..|handled| - 1] == s.handled;
    assert s.handled + [s.collector.ret] + s.channel == handled + [] + s.channel;
  }

  lemma CollectorKeepsInv(cfg: Config, s: State, step: Step)
    requires Inv(cfg, s) && Enabled(cfg, s, step) && ByCollector(step)
    ensures Inv(cfg, Apply(cfg, s, step))
  {
    hide WorkerOk, Sum, Trues;
    if step.Receive? {
      ReceiveKeepsInv(cfg, s);
    } else if step.Handle? {
      HandleKeepsInv(cfg, s);
    }
  }

  lemma StepKeepsInv(cfg: Config, s: State, step: Step)
    requires Inv(cfg, s) && Enabled(cfg, s, step)
    ensures Inv(cfg, Apply(cfg, s, step))
  {
    match step
    case Check(w) => CheckKeepsInv(cfg, s, w);
    case Exec(w, ok) => ExecKeepsInv(cfg, s, w, ok);
    case Send(w) => SendKeepsInv(cfg, s, w);
    case Done(w) => DoneKeepsInv(cfg, s, w);
    case CancelRoot =>
    case Expire =>
    case _ =>
      if ByLauncher(step) {
        LauncherKeepsInv(cfg, s, step);
      } else {
        CollectorKeepsInv(cfg, s, step);
      }
  }

  lemma InvInitial(cfg: Config)
    ensures Inv(cfg, INITIAL)
  {
  }

  /** Every state of every run keeps the invariant. */
  lemma {:induction false} RunKeepsInv(cfg: Config, states: seq<State>, steps: seq<Step>, i: nat)
    requires IsRun(cfg, states, steps) && states[0] == INITIAL && i < |states|
    ensures Inv(cfg, states[i])
  {
    if i == 0 {
      InvInitial(cfg);
    } else {
      RunKeepsInv(cfg, states, steps, i - 1);
      StepKeepsInv(cfg, states[i - 1], steps[i - 1]);
    }
  }

  // ---------- The channel is closed once, after the last worker ----------

  /** A worker that is about to send finds the channel open, and nothing ever panics. */
  lemma NoSendOnClosed(cfg: Config, states: seq<State>, steps: seq<Step>, i: nat)
    requires IsRun(cfg, states, steps) && states[0] == INITIAL && i < |states|
    ensures !states[i].panicked
    ensures states[i].closed ==> AllFinished(states[i])
  {
    RunKeepsInv(cfg, states, steps, i);
  }

  /** At the step that closes the channel every launched worker has finished. */
  lemma ClosedAfterLastWorker(cfg: Config, states: seq<State>, steps: seq<Step>, i: nat)
    requires IsRun(cfg, states, steps) && states[0] == INITIAL && i < |steps| && steps[i].Close?
    ensures !states[i].closed && states[i + 1].closed && AllFinished(states[i])
  {
    RunKeepsInv(cfg, states, steps, i);
  }

  lemma {:induction false} StaysClosed(cfg: Config, states: seq<State>, steps: seq<Step>, i: nat, j: nat)
    requires IsRun(cfg, states, steps) && i <= j < |states| && states[i].closed
    ensures states[j].closed
    decreases j
  {
    hide Enabled, Apply;
    if i < j {
      StaysClosed(cfg, states, steps, i, j - 1);
      StepStaysClosed(cfg, states[j - 1], steps[j - 1]);
    }
  }

  lemma StepStaysClosed(cfg: Config, s: State, step: Step)
    requires Enabled(cfg, s, step) && s.closed
    ensures Apply(cfg, s, step).closed
  {
  }

  lemma ClosedOnce(cfg: Config, states: seq<State>, steps: seq<Step>, i: nat, j: nat)
    requires IsRun(cfg, states, steps) && states[0] == INITIAL
    requires i < j < |steps| && steps[i].Close?
    ensures !steps[j].Close? && !steps[j].Send?
  {
    ClosedAfterLastWorker(cfg, states, steps, i);
    StaysClosed(cfg, states, steps, i + 1, j);
    RunKeepsInv(cfg, states, steps, j);
    assert Enabled(cfg, states[j], steps[j]);
  }

  // ---------- What Run reports ----------

  /** The result that a step puts into the channel, read off the step and its state. */
  function SentAt(s: State, step: Step): seq<bool> {
    if step.Send? && step.w < |s.workers| && s.workers[step.w].pc.Sending? then [s.workers[step.w].pc.ok] else []
  }

  /** The results that the first `n` steps of a run send, in order. */
  function SentIn(states: seq<State>, steps: seq<Step>, n: nat): seq<bool>
    requires n <= |steps| < |states|
  {
    if n == 0 then [] else SentIn(states, steps, n - 1) + SentAt(states[n - 1], steps[n - 1])
  }

  lemma StepRecordsSend(cfg: Config, s: State, step: Step)
    requires Inv(cfg, s) && Enabled(cfg, s, step)
    ensures Apply(cfg, s, step).sent == s.sent + SentAt(s, step)
  {
    if step.Send? {
      ReplaceWorker(cfg, s, step.w, s.workers[step.w].(pc := Finished));
    }
  }

  lemma {:induction false} SentIsHistory(cfg: Config, states: seq<State>, steps: seq<Step>, n: nat)
    requires IsRun(cfg, states, steps) && states[0] == INITIAL && n <= |steps|
    ensures SentIn(states, steps, n) == states[n].sent
  {
    hide Enabled, Apply, Inv, SentAt;
    if n > 0 {
      SentIsHistory(cfg, states, steps, n - 1);
      RunKeepsInv(cfg, states, steps, n - 1);
      StepRecordsSend(cfg, states[n - 1], steps[n - 1]);
    }
  }

  /** When `Run` returns, every result that was ever sent has been counted. */
  lemma ReportsEverythingSent(cfg: Config, states: seq<State>, steps: seq<Step>)
    requires IsRun(cfg, states, steps) && states[0] == INITIAL && states[|steps|].launcher.Returned?
    ensures var end, sent := states[|steps|], SentIn(states, steps, |steps|);
            end.total == |sent| && end.success == Trues(sent)
  {
    hide Enabled, Apply, SentIn, Trues;
    RunKeepsInv(cfg, states, steps, |steps|);
    SentIsHistory(cfg, states, steps, |steps|);
    var end := states[|steps|];
    assert end.sent == end.handled;
  }

  // What it reports is read off the steps alone: the executions and how they went.

  /** How many of the steps are executions, and how many of these succeeded. */
  function ExecsIn(steps: seq<Step>): nat {
    if steps == [] then 0 else ExecsIn(steps[..|steps| - 1]) + (if steps[|steps| - 1].Exec? then 1 else 0)
  }

  function SuccessesIn(steps: seq<Step>): nat {
    if steps == [] then 0
    else SuccessesIn(steps[..|steps| - 1]) + (if steps[|steps| - 1].Exec? && steps[|steps| - 1].ok then 1 else 0)
  }

  /** A worker that has executed a task and not yet sent the result. */
  function Holding(me: Worker): int {
    if me.pc.Sending? then 1 else 0
  }

  function HoldingSuccess(me: Worker): int {
    if me.pc.Sending? && me.pc.ok then 1 else 0
  }

  lemma WorkerStepCounts(cfg: Config, s: State, step: Step)
    requires Inv(cfg, s) && Enabled(cfg, s, step)
    requires step.Check? || step.Exec? || step.Send? || step.Done?
    ensures var t := Apply(cfg, s, step);
            && |t.sent| + Sum(t.workers, Holding) == |s.sent| + Sum(s.workers, Holding) + (if step.Exec? then 1 else 0)
            && Trues(t.sent) + Sum(t.workers, HoldingSuccess) ==
               Trues(s.sent) + Sum(s.workers, HoldingSuccess) + (if step.Exec? && step.ok then 1 else 0)
  {
    hide Inv, Sum;
    OpenForWorker(cfg, s, step);
    var t := Apply(cfg, s, step);
    var x := t.workers[step.w];
    assert t.workers == s.workers[step.w := x];
    SumUpdate(s.workers, Holding, step.w, x);
    SumUpdate(s.workers, HoldingSuccess, step.w, x);
    if step.Send? {
      assert t.sent[..|t.sent| - 1] == s.sent;
    }
  }

  lemma StepCounts(cfg: Config, s: State, step: Step)
    requires Inv(cfg, s) && Enabled(cfg, s, step)
    ensures var t := Apply(cfg, s, step);
            && |t.sent| + Sum(t.workers, Holding) == |s.sent| + Sum(s.workers, Holding) + (if step.Exec? then 1 else 0)
            && Trues(t.sent) + Sum(t.workers, HoldingSuccess) ==
               Trues(s.sent) + Sum(s.workers, HoldingSuccess) + (if step.Exec? && step.ok then 1 else 0)
  {
    hide Inv, Sum, Trues;
    if step.Check? || step.Exec? || step.Send? || step.Done? {
      WorkerStepCounts(cfg, s, step);
    } else if step.Go? {
      SumAppend(s.workers, Holding, Worker(0, Checking));
      SumAppend(s.workers, HoldingSuccess, Worker(0, Checking));
    }
  }

  lemma {:induction false} ExecsAreHeldOrSent(cfg: Config, states: seq<State>, steps: seq<Step>, n: nat)
    requires IsRun(cfg, states, steps) && states[0] == INITIAL && n <= |steps|
    ensures ExecsIn(steps[..n]) == |states[n].sent| + Sum(states[n].workers, Holding)
    ensures SuccessesIn(steps[..n]) == Trues(states[n].sent) + Sum(states[n].workers, HoldingSuccess)
  {
    hide Enabled, Apply, Inv;
    if n > 0 {
      ExecsAreHeldOrSent(cfg, states, steps, n - 1);
      RunKeepsInv(cfg, states, steps, n - 1);
      StepCounts(cfg, states[n - 1], steps[n - 1]);
      assert steps[..n][..n - 1] == steps[..n - 1];
    }
  }

  lemma NothingHeld(s: State)
    requires AllFinished(s)
    ensures Sum(s.workers, Holding) == 0 && Sum(s.workers, HoldingSuccess) == 0
  {
    SumZero(s.workers, Holding);
    SumZero(s.workers, HoldingSuccess);
  }

  /** When `Run` returns, Total is the number of executions in the run, and Success that of the successful ones. */
  lemma ReportsEveryExecution(cfg: Config, states: seq<State>, steps: seq<Step>)
    requires IsRun(cfg, states, steps) && states[0] == INITIAL && states[|steps|].launcher.Returned?
    ensures states[|steps|].total == ExecsIn(steps) && states[|steps|].success == SuccessesIn(steps)
  {
    hide Enabled, Apply, SentIn, Trues, Sum;
    var n := |steps|;
    RunKeepsInv(cfg, states, steps, n);
    ExecsAreHeldOrSent(cfg, states, steps, n);
    NothingHeld(states[n]);
    assert steps[..n] == steps && states[n].sent == states[n].handled;
  }

  function Passes(me: Worker): int {
    me.passes
  }

  function Limit(cfg: Config): nat {
    if cfg.reqNum < 0 then 0 else cfg.reqNum
  }

  lemma {:induction false} FinishedSums(cfg: Config, ws: seq<Worker>)
    requires forall i :: 0 <= i < |ws| ==> WorkerOk(cfg, ws[i]) && ws[i].pc.Finished?
    ensures Sum(ws, Sent(cfg)) == Sum(ws, Passes) * cfg.tasks
    ensures 0 <= Sum(ws, Passes) <= |ws| * Limit(cfg)
    decreases |ws|
  {
    if ws != [] {
      FinishedSums(cfg, ws[1..]);
      var p, q := ws[0].passes, Sum(ws[1..], Passes);
      assert WorkerOk(cfg, ws[0]);
      assert (p + q) * cfg.tasks == p * cfg.tasks + q * cfg.tasks;
      assert |ws| * Limit(cfg) == (|ws| - 1) * Limit(cfg) + Limit(cfg);
    }
  }

  lemma ProductMonotone(a: int, b: int, n: nat)
    requires 0 <= a <= b
    ensures 0 <= a * n <= b * n
  {
  }

  /**
    Wherever the timeout fell, the total is a whole number of passes over the task
    list, at most `reqNum` of them for each worker that was launched.
   */
  lemma TotalIsWholePasses(cfg: Config, states: seq<State>, steps: seq<Step>)
    requires IsRun(cfg, states, steps) && states[0] == INITIAL && states[|steps|].launcher.Returned?
    ensures var end := states[|steps|];
            && end.total == Sum(end.workers, Passes) * cfg.tasks
            && 0 <= Sum(end.workers, Passes) <= |end.workers| * Limit(cfg)
            && 0 <= end.total <= |end.workers| * Limit(cfg) * cfg.tasks
  {
    hide Enabled, Apply;
    RunKeepsInv(cfg, states, steps, |steps|);
    FinishedSums(cfg, states[|steps|].workers);
    ProductMonotone(Sum(states[|steps|].workers, Passes), |states[|steps|].workers| * Limit(cfg), cfg.tasks);
  }

  // ---------- How many passes are made ----------

  /** How many of the steps are ticks. */
  function TicksIn(steps: seq<Step>): nat {
    if steps == [] then 0 else TicksIn(steps[..|steps| - 1]) + (if steps[|steps| - 1].Tick? then 1 else 0)
  }

  function PerTick(cfg: Config): nat {
    if cfg.concurrentNum < 0 then 0 else cfg.concurrentNum
  }

  /** How many workers there are after `ticks` ticks, the last of which may be at work. */
  ghost predicate Launched(cfg: Config, s: State, ticks: nat) {
    match s.launcher
    case Spawning(i) => ticks > 0 && i <= PerTick(cfg) && |s.workers| == (ticks - 1) * PerTick(cfg) + i
    case Starting(i) => ticks > 0 && i < PerTick(cfg) && |s.workers| == (ticks - 1) * PerTick(cfg) + i
    case _ => |s.workers| == ticks * PerTick(cfg)
  }

  lemma StepLaunches(cfg: Config, s: State, step: Step, ticks: nat)
    requires Enabled(cfg, s, step) && Launched(cfg, s, ticks)
    ensures Launched(cfg, Apply(cfg, s, step), ticks + (if step.Tick? then 1 else 0))
  {
    hide AfterCheck, AfterSend;
    if step.Spawn? && s.launcher.i >= cfg.concurrentNum {
      assert (ticks - 1) * PerTick(cfg) + PerTick(cfg) == ticks * PerTick(cfg);
    }
  }

  lemma {:induction false} RunLaunches(cfg: Config, states: seq<State>, steps: seq<Step>, n: nat)
    requires IsRun(cfg, states, steps) && states[0] == INITIAL && n <= |steps|
    ensures Launched(cfg, states[n], TicksIn(steps[..n]))
  {
    hide Enabled, Apply, Launched;
    if n > 0 {
      RunLaunches(cfg, states, steps, n - 1);
      StepLaunches(cfg, states[n - 1], steps[n - 1], TicksIn(steps[..n - 1]));
      assert steps[..n][..n - 1] == steps[..n - 1];
    } else {
      NoneLaunched(cfg);
    }
  }

  lemma NoneLaunched(cfg: Config)
    ensures Launched(cfg, INITIAL, 0)
  {
  }

  /** Every tick launches `concurrentNum` workers, none if that is negative. */
  lemma WorkersPerTick(cfg: Config, states: seq<State>, steps: seq<Step>, n: nat)
    requires IsRun(cfg, states, steps) && states[0] == INITIAL && n <= |steps|
    requires states[n].launcher.Selecting? || LoopLeft(states[n])
    ensures |states[n].workers| == TicksIn(steps[..n]) * (if cfg.concurrentNum < 0 then 0 else cfg.concurrentNum)
  {
    hide Enabled, Apply, TicksIn;
    RunLaunches(cfg, states, steps, n);
  }

  /** Without a timeout a worker goes only after all its passes; without tasks it makes none. */
  ghost predicate Diligent(cfg: Config, me: Worker) {
    && (cfg.tasks == 0 ==> me.passes == 0)
    && (me.pc.Exiting? || me.pc.Finished? ==> cfg.tasks == 0 || me.passes == Limit(cfg))
  }

  lemma StepKeepsDiligent(cfg: Config, s: State, step: Step)
    requires Inv(cfg, s) && Enabled(cfg, s, step) && !s.expired && !step.Expire?
    requires forall i :: 0 <= i < |s.workers| ==> Diligent(cfg, s.workers[i])
    ensures var t := Apply(cfg, s, step);
            !t.expired && forall i :: 0 <= i < |t.workers| ==> Diligent(cfg, t.workers[i])
  {
    hide Sum, Trues;
    if step.Check? || step.Exec? || step.Send? || step.Done? {
      assert WorkerOk(cfg, s.workers[step.w]);
    }
  }

  lemma {:induction false} RunIsDiligent(cfg: Config, states: seq<State>, steps: seq<Step>, n: nat)
    requires IsRun(cfg, states, steps) && states[0] == INITIAL && n <= |steps|
    requires forall k :: 0 <= k < n ==> !steps[k].Expire?
    ensures !states[n].expired && forall i :: 0 <= i < |states[n].workers| ==> Diligent(cfg, states[n].workers[i])
  {
    hide Enabled, Apply, Inv, Diligent;
    if n > 0 {
      RunIsDiligent(cfg, states, steps, n - 1);
      RunKeepsInv(cfg, states, steps, n - 1);
      StepKeepsDiligent(cfg, states[n - 1], steps[n - 1]);
    }
  }

  lemma {:induction false} DiligentSums(cfg: Config, ws: seq<Worker>)
    requires forall i :: 0 <= i < |ws| ==> Diligent(cfg, ws[i]) && ws[i].pc.Finished?
    ensures Sum(ws, Passes) * cfg.tasks == |ws| * Limit(cfg) * cfg.tasks
    decreases |ws|
  {
    if ws != [] {
      DiligentSums(cfg, ws[1..]);
      var p, q, n := ws[0].passes, Sum(ws[1..], Passes), |ws| - 1;
      assert Diligent(cfg, ws[0]);
      assert (p + q) * cfg.tasks == p * cfg.tasks + q * cfg.tasks;
      assert (n + 1) * Limit(cfg) * cfg.tasks == n * Limit(cfg) * cfg.tasks + Limit(cfg) * cfg.tasks;
    }
  }

  /**
    If the timeout does not come before `Run` returns, every worker makes all its passes, and
    Total is known: ticks, workers per tick, passes per worker and tasks multiplied.
   */
  lemma AllPassesMade(cfg: Config, states: seq<State>, steps: seq<Step>)
    requires IsRun(cfg, states, steps) && states[0] == INITIAL && states[|steps|].launcher.Returned?
    requires forall k :: 0 <= k < |steps| ==> !steps[k].Expire?
    ensures var end := states[|steps|];
            && (forall i :: 0 <= i < |end.workers| ==> end.workers[i].passes == if cfg.tasks == 0 then 0 else Limit(cfg))
            && end.total == TicksIn(steps) * PerTick(cfg) * Limit(cfg) * cfg.tasks
  {
    hide Enabled, Apply, Sum, TicksIn;
    var n := |steps|;
    var end := states[n];
    RunKeepsInv(cfg, states, steps, n);
    RunIsDiligent(cfg, states, steps, n);
    forall i | 0 <= i < |end.workers|
      ensures end.workers[i].passes == if cfg.tasks == 0 then 0 else Limit(cfg)
    {
      assert Diligent(cfg, end.workers[i]);
    }
    TotalIsWholePasses(cfg, states, steps);
    DiligentSums(cfg, end.workers);
    RunLaunches(cfg, states, steps, n);
    assert steps[..n] == steps;
  }

  // ---------- After the timeout ----------

  /** The passes that a worker will have made when it finishes the one it is in. */
  function InAll(me: Worker): nat {
    if me.pc.Executing? || me.pc.Sending? then me.passes + 1 else me.passes
  }

  lemma StepAfterTimeout(cfg: Config, s: State, step: Step, w: nat)
    requires Enabled(cfg, s, step) && s.expired && w < |s.workers|
    ensures var t := Apply(cfg, s, step);
            t.expired && w < |t.workers| && InAll(t.workers[w]) <= InAll(s.workers[w])
    ensures step.Go? ==> Apply(cfg, s, step).workers[|s.workers|] == Worker(0, Checking)
  {
  }

  /** Once the timeout has come a worker makes at most the pass that it has begun. */
  lemma {:induction false} NoPassAfterTimeout(cfg: Config, states: seq<State>, steps: seq<Step>, i: nat, j: nat, w: nat)
    requires IsRun(cfg, states, steps) && i <= j < |states| && states[i].expired && w < |states[i].workers|
    ensures states[j].expired && w < |states[j].workers|
    ensures states[j].workers[w].passes <= InAll(states[j].workers[w]) <= InAll(states[i].workers[w])
    decreases j
  {
    hide Enabled, Apply;
    if i < j {
      NoPassAfterTimeout(cfg, states, steps, i, j - 1, w);
      StepAfterTimeout(cfg, states[j - 1], steps[j - 1], w);
    }
  }

  /** The launch loop is left only after one of the two contexts is done. */
  ghost predicate ContextDone(steps: seq<Step>) {
    exists k :: 0 <= k < |steps| && (steps[k].CancelRoot? || steps[k].Expire?)
  }

  lemma StepNeedsContext(cfg: Config, s: State, step: Step)
    requires Enabled(cfg, s, step) && (LoopLeft(s) ==> s.rootDone || s.expired)
    ensures var t := Apply(cfg, s, step);
            && (LoopLeft(t) ==> t.rootDone || t.expired)
            && (t.rootDone || t.expired ==> s.rootDone || s.expired || step.CancelRoot? || step.Expire?)
  {
  }

  lemma {:induction false} LeavesOnlyWhenDone(cfg: Config, states: seq<State>, steps: seq<Step>, n: nat)
    requires IsRun(cfg, states, steps) && states[0] == INITIAL && n <= |steps|
    ensures LoopLeft(states[n]) ==> states[n].rootDone || states[n].expired
    ensures states[n].rootDone || states[n].expired ==> ContextDone(steps[..n])
  {
    hide Enabled, Apply;
    if n > 0 {
      LeavesOnlyWhenDone(cfg, states, steps, n - 1);
      StepNeedsContext(cfg, states[n - 1], steps[n - 1]);
      if ContextDone(steps[..n - 1]) {
        var k :| 0 <= k < n - 1 && (steps[..n - 1][k].CancelRoot? || steps[..n - 1][k].Expire?);
        assert steps[..n][k] == steps[k];
      } else if steps[n - 1].CancelRoot? || steps[n - 1].Expire? {
        assert steps[..n][n - 1] == steps[n - 1];
      }
    }
  }

  /** The channel holds at most 1000 results, and a worker has to wait exactly when it does. */
  lemma ChannelBounded(cfg: Config, states: seq<State>, steps: seq<Step>, n: nat, w: nat)
    requires IsRun(cfg, states, steps) && states[0] == INITIAL && n <= |steps|
    requires w < |states[n].workers| && states[n].workers[w].pc.Sending?
    ensures |states[n].channel| <= 1000 && (Enabled(cfg, states[n], Send(w)) <==> |states[n].channel| < 1000)
  {
    hide Apply, Sum;
    RunKeepsInv(cfg, states, steps, n);
  }

  // ---------- No deadlock, and an end ----------

  /** Some goroutine can move, whatever the contexts do. */
  ghost predicate CanMove(cfg: Config, s: State) {
    exists step :: Enabled(cfg, s, step) && !step.CancelRoot? && !step.Expire?
  }

  lemma MovesBy(cfg: Config, s: State, step: Step)
    requires Enabled(cfg, s, step) && !step.CancelRoot? && !step.Expire?
    ensures CanMove(cfg, s)
  {
  }

  lemma CollectorMoves(cfg: Config, s: State)
    requires Inv(cfg, s) && (s.channel != [] || s.closed) && !s.launcher.Returned?
    ensures s.launcher.Awaiting? || s.channel != [] ==> CanMove(cfg, s)
  {
    match s.collector
    case Receiving => MovesBy(cfg, s, if s.channel != [] then Receive else Drained);
    case Handling(_) => MovesBy(cfg, s, Handle);
    case Signalling => if s.launcher.Awaiting? { MovesBy(cfg, s, Rendezvous); }
    case Ended =>
  }

  /** Once the launch loop is left there is always a move until `Run` returns. */
  lemma NoDeadlock(cfg: Config, s: State)
    requires Inv(cfg, s) && LoopLeft(s) && !s.launcher.Returned?
    ensures CanMove(cfg, s)
  {
    match s.launcher
    case Closing => MovesBy(cfg, s, Close);
    case Awaiting => CollectorMoves(cfg, s);
    case Waiting =>
      SumZero(s.workers, Running);
      if s.wg == 0 {
        MovesBy(cfg, s, WaitOver);
      } else {
        var w :| 0 <= w < |s.workers| && Running(s.workers[w]) != 0;
        match s.workers[w].pc {
          case Checking => MovesBy(cfg, s, Check(w));
          case Executing(_) => MovesBy(cfg, s, Exec(w, true));
          case Exiting => MovesBy(cfg, s, Done(w));
          case Sending(_, _) =>
            if |s.channel| < CAPACITY {
              MovesBy(cfg, s, Send(w));
            } else {
              CollectorMoves(cfg, s);
            }
        }
      }
  }

  /** What a worker may still do, counting two later moves of the collector per result. */
  function Work(cfg: Config, me: Worker): int {
    var left := if me.passes < cfg.reqNum then cfg.reqNum - me.passes else 0;
    match me.pc
    case Checking => left * (4 * cfg.tasks + 1) + 2
    case Executing(j) => (left - 1) * (4 * cfg.tasks + 1) + 4 * (cfg.tasks - j) + 2
    case Sending(j, _) => (left - 1) * (4 * cfg.tasks + 1) + 4 * (cfg.tasks - j) + 1
    case Exiting => 1
    case Finished => 0
  }

  function WorkOf(cfg: Config): Worker -> int {
    me => Work(cfg, me)
  }

  function LauncherRank(l: Launcher): nat {
    match l
    case Waiting => 3
    case Closing => 2
    case Awaiting => 1
    case _ => 0
  }

  function CollectorRank(c: Collector): nat {
    match c
    case Receiving => 2
    case Handling(_) => 3
    case Signalling => 1
    case Ended => 0
  }

  function Measure(cfg: Config, s: State): int {
    Sum(s.workers, WorkOf(cfg)) + 2 * |s.channel| + CollectorRank(s.collector) + LauncherRank(s.launcher)
    + (if s.rootDone then 0 else 1) + (if s.expired then 0 else 1)
  }

  lemma WorkNonNegative(cfg: Config, me: Worker)
    requires WorkerOk(cfg, me)
    ensures Work(cfg, me) >= 0 && (me.pc.Checking? ==> Work(cfg, me) >= 2)
  {
    var left := if me.passes < cfg.reqNum then cfg.reqNum - me.passes else 0;
    if left > 0 {
      assert (left - 1) * (4 * cfg.tasks + 1) >= 0;
      assert left * (4 * cfg.tasks + 1) >= 0;
    }
  }

  lemma MeasureNonNegative(cfg: Config, s: State)
    requires Inv(cfg, s)
    ensures Measure(cfg, s) >= 0
  {
    forall i | 0 <= i < |s.workers|
      ensures WorkOf(cfg)(s.workers[i]) >= 0
    {
      WorkNonNegative(cfg, s.workers[i]);
    }
    SumZero(s.workers, WorkOf(cfg));
  }

  lemma OnePassLess(cfg: Config, left: int)
    ensures left * (4 * cfg.tasks + 1) == (left - 1) * (4 * cfg.tasks + 1) + 4 * cfg.tasks + 1
  {
  }

  lemma CheckWork(cfg: Config, me: Worker, expired: bool)
    requires WorkerOk(cfg, me) && me.pc.Checking?
    ensures Work(cfg, AfterCheck(cfg, me, expired)) < Work(cfg, me)
  {
    WorkNonNegative(cfg, me);
    OnePassLess(cfg, cfg.reqNum - me.passes);
  }

  lemma SendWork(cfg: Config, me: Worker)
    requires WorkerOk(cfg, me) && me.pc.Sending?
    ensures Work(cfg, AfterSend(cfg, me)) <= Work(cfg, me) - 3
  {
    var left := cfg.reqNum - me.passes;
    if me.pc.j + 1 == cfg.tasks {
      assert Work(cfg, me) == (left - 1) * (4 * cfg.tasks + 1) + 5;
      assert left == 1 ==> (left - 1) * (4 * cfg.tasks + 1) == 0;
    }
  }

  lemma WorkerWorksOff(cfg: Config, s: State, step: Step)
    requires Inv(cfg, s) && Enabled(cfg, s, step)
    requires step.Check? || step.Exec? || step.Send? || step.Done?
    ensures Sum(Apply(cfg, s, step).workers, WorkOf(cfg)) < Sum(s.workers, WorkOf(cfg)) - (if step.Send? then 2 else 0)
  {
    hide Work, AfterCheck, AfterSend, Sum;
    var me := s.workers[step.w];
    assert WorkerOk(cfg, me);
    ReplaceWorker(cfg, s, step.w, Worker(0, Finished));
    match step {
      case Check(w) =>
        CheckWork(cfg, me, s.expired);
        SumUpdate(s.workers, WorkOf(cfg), w, AfterCheck(cfg, me, s.expired));
      case Exec(w, ok) =>
        ExecWork(cfg, me, ok);
        SumUpdate(s.workers, WorkOf(cfg), w, me.(pc := Sending(me.pc.j, ok)));
      case Send(w) =>
        SendWork(cfg, me);
        SumUpdate(s.workers, WorkOf(cfg), w, AfterSend(cfg, me));
      case Done(w) =>
        ExitWork(cfg, me);
        SumUpdate(s.workers, WorkOf(cfg), w, me.(pc := Finished));
    }
  }

  lemma ExecWork(cfg: Config, me: Worker, ok: bool)
    requires me.pc.Executing?
    ensures Work(cfg, me.(pc := Sending(me.pc.j, ok))) < Work(cfg, me)
  {
  }

  lemma ExitWork(cfg: Config, me: Worker)
    requires me.pc.Exiting?
    ensures Work(cfg, me.(pc := Finished)) < Work(cfg, me)
  {
  }

  lemma WorkerStepLowers(cfg: Config, s: State, step: Step)
    requires Inv(cfg, s) && LoopLeft(s) && Enabled(cfg, s, step)
    requires step.Check? || step.Exec? || step.Send? || step.Done?
    ensures LoopLeft(Apply(cfg, s, step))
    ensures Measure(cfg, Apply(cfg, s, step)) < Measure(cfg, s)
  {
    hide Inv, Sum, Work;
    WorkerWorksOff(cfg, s, step);
    OpenForWorker(cfg, s, step);
  }

  /** A worker that moves finds the channel open and itself counted. */
  lemma OpenForWorker(cfg: Config, s: State, step: Step)
    requires Inv(cfg, s) && Enabled(cfg, s, step)
    requires step.Check? || step.Exec? || step.Send? || step.Done?
    ensures !s.closed && s.wg > 0
  {
    ReplaceWorker(cfg, s, step.w, Worker(0, Finished));
  }

  lemma OtherStepLowers(cfg: Config, s: State, step: Step)
    requires Inv(cfg, s) && LoopLeft(s) && Enabled(cfg, s, step)
    requires !(step.Check? || step.Exec? || step.Send? || step.Done?)
    ensures LoopLeft(Apply(cfg, s, step))
    ensures Measure(cfg, Apply(cfg, s, step)) < Measure(cfg, s)
  {
    hide Sum, Work, Trues, WorkerOk;
  }

  /** Once the launch loop is left, every step of every goroutine lowers the measure. */
  lemma StepLowersMeasure(cfg: Config, s: State, step: Step)
    requires Inv(cfg, s) && LoopLeft(s) && Enabled(cfg, s, step)
    ensures LoopLeft(Apply(cfg, s, step))
    ensures Measure(cfg, Apply(cfg, s, step)) < Measure(cfg, s)
  {
    hide Inv, Sum, Work;
    if step.Check? || step.Exec? || step.Send? || step.Done? {
      WorkerStepLowers(cfg, s, step);
    } else {
      OtherStepLowers(cfg, s, step);
    }
  }

  /** So a run that has left the launch loop at `i` has few steps to go, and can only end with `Run` returned. */
  lemma {:induction false} RunEnds(cfg: Config, states: seq<State>, steps: seq<Step>, i: nat, j: nat)
    requires IsRun(cfg, states, steps) && states[0] == INITIAL
    requires i <= j < |states| && LoopLeft(states[i])
    ensures LoopLeft(states[j])
    ensures j - i <= Measure(cfg, states[i]) - Measure(cfg, states[j]) <= Measure(cfg, states[i])
    ensures CanMove(cfg, states[j]) || states[j].launcher.Returned?
    decreases j
  {
    hide Enabled, Apply, Inv, Measure, CanMove;
    RunKeepsInv(cfg, states, steps, j);
    MeasureNonNegative(cfg, states[j]);
    if i < j {
      RunEnds(cfg, states, steps, i, j - 1);
      RunKeepsInv(cfg, states, steps, j - 1);
      StepLowersMeasure(cfg, states[j - 1], steps[j - 1]);
    }
    if !states[j].launcher.Returned? {
      NoDeadlock(cfg, states[j]);
    }
  }
}
