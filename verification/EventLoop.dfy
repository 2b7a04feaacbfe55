/**
  `IoSelector` and `EventLoop` of `event_loop/mod.rs` as they are written: a vector
  of slots and a queue of callbacks, changed in place. Each method is proved against
  the operation of `EventLoopSpec` that it carries out.
 */
module EventLoop {
  import opened Options
  import opened EventLoopSpec

  class EventLoop {
    var tasks: Slots
    var nextTickQueue: seq<nat>
    // Numbers that stand for the boxed callbacks of tasks and of ticks.
    var nextId: nat
    var nextTick: nat
    ghost var called: seq<Delivery>
    ghost var cleared: seq<nat>
    ghost var discarded: seq<nat>
    ghost var peak: nat
    ghost var ran: seq<nat>
    ghost var kinds: seq<Kind>

    ghost function View(): Loop
      reads this
    {
      Loop(tasks, nextId, called, cleared, discarded, peak, nextTickQueue, nextTick, ran, kinds)
    }

    constructor ()
      ensures View() == EMPTY
    {
      tasks, nextTickQueue, nextId, nextTick := [], [], 0, 0;
      called, cleared, discarded, peak, ran, kinds := [], [], [], 0, [], [];
    }

    /** First fit. */
    method AddTask(kind: Kind) returns (n: nat)
      modifies this
      ensures View() == EventLoopSpec.AddTask(old(View()), kind)
      ensures n == FirstFree(old(tasks)) && n < |tasks| && tasks[n] == Some(Task(old(nextId), kind))
    {
      var task := Task(nextId, kind);
      nextId, kinds := nextId + 1, kinds + [kind];
      n := 0;
      while n < |tasks| && tasks[n].Some?
        invariant n <= |tasks| && tasks == old(tasks)
        invariant forall i :: 0 <= i < n ==> tasks[i].Some?
      {
        n := n + 1;
      }
      FirstFreeIs(tasks, n);
      tasks := if n < |tasks| then tasks[n := Some(task)] else tasks + [Some(task)];
      peak := Watch(View()).peak;
    }

    /** `get_mut(id)?.take()`. */
    method DeleteTask(id: nat) returns (t: Option<Task>)
      modifies this`tasks
      ensures t == if id < |old(tasks)| then old(tasks)[id] else None
      ensures tasks == if t.Some? then old(tasks)[id := None] else old(tasks)
    {
      if id >= |tasks| {
        return None;
      }
      t := tasks[id];
      tasks := tasks[id := None];
    }

    method ClearTimeout(timeoutId: nat)
      modifies this
      ensures View() == EventLoopSpec.ClearTimeout(old(View()), timeoutId)
    {
      if timeoutId < |tasks| && tasks[timeoutId].Some? && tasks[timeoutId].value.kind.Timeout? {
        cleared := cleared + [tasks[timeoutId].value.id];
        tasks := tasks[timeoutId := None];
        peak := Watch(View()).peak;
      }
    }

    method SetNextTick()
      modifies this
      ensures View() == EventLoopSpec.SetNextTick(old(View()))
    {
      nextTickQueue := nextTickQueue + [nextTick];
      nextTick := nextTick + 1;
    }

    /** A callback's effect on the loop. */
    method RunCallback(ops: seq<Op>)
      modifies this
      ensures View() == RunOps(old(View()), ops)
    {
      var i := 0;
      while i < |ops|
        invariant 0 <= i <= |ops|
        invariant RunOps(old(View()), ops) == RunOps(View(), ops[i..])
      {
        assert ops[i..][1..] == ops[i + 1..];
        match ops[i] {
          case Add(kind) => var n := AddTask(kind);
          case Clear(slot) => ClearTimeout(slot);
          case NextTick => SetNextTick();
        }
        i := i + 1;
      }
    }

    /** The subscriptions of the live tasks, in slot order. */
    method Subscribe() returns (subs: seq<Subscription>)
      ensures subs == Subscriptions(tasks, |tasks|)
    {
      subs := [];
      var i := 0;
      while i < |tasks|
        invariant 0 <= i <= |tasks|
        invariant subs == Subscriptions(tasks, i)
      {
        if tasks[i].Some? {
          match tasks[i].value.kind {
            case Timeout =>
              subs := subs + [Subscription(i, Clock)];
            case Socket(e) =>
              subs := subs + [Subscription(i, NetType(e))];
            case SocketTimeout(e) =>
              subs := subs + [Subscription(i, NetType(e))];
              subs := subs + [Subscription(i, Clock)];
          }
        }
        i := i + 1;
      }
    }

    /**
      `answer` is what `poll_oneoff` does with the subscriptions: an error, or a batch
      of events, each paired with what the callback it may reach does to the loop.
     */
    method Poll(answer: Option<Batch>) returns (n: Option<nat>)
      modifies this
      ensures Subscriptions(old(tasks), |old(tasks)|) == [] ==> n == Some(0) && View() == old(View())
      ensures Subscriptions(old(tasks), |old(tasks)|) != [] && answer.None? ==> n == None && View() == old(View())
      ensures Subscriptions(old(tasks), |old(tasks)|) != [] && answer.Some? ==>
                n == Some(|answer.value|) && View() == DeliverAll(old(View()), answer.value)
    {
      var subs := Subscribe();
      if subs == [] {
        return Some(0);
      }
      if answer.None? {
        return None;
      }
      var batch := answer.value;
      var i := 0;
      while i < |batch|
        invariant 0 <= i <= |batch|
        invariant DeliverAll(old(View()), batch) == DeliverAll(View(), batch[i..])
      {
        assert batch[i..][1..] == batch[i + 1..];
        Handle(batch[i].0, batch[i].1);
        i := i + 1;
      }
      n := Some(|batch|);
    }

    /** The task has been taken out of its slot; its callback is told the result and runs. */
    method Callback(task: Task, event: Event, result: PollResult, ops: seq<Op>)
      modifies this
      ensures View() == RunOps(Watch(old(View()).(called := old(called) + [Delivery(task.id, event, result)])), ops)
    {
      called := called + [Delivery(task.id, event, result)];
      peak := Watch(View()).peak;
      RunCallback(ops);
    }

    /** One turn of the loop over the events that came back. */
    method Handle(event: Event, ops: seq<Op>)
      modifies this
      ensures View() == Deliver(old(View()), event, ops)
    {
      hide RunOps;
      var taken := DeleteTask(event.slot);
      if taken.Some? {
        var task := taken.value;
        match (task.kind, event.etype) {
          case (Timeout, Clock) =>
            Callback(task, event, TimedOut, ops);
          case (SocketTimeout(_), Clock) =>
            Callback(task, event, TimedOut, ops);
          case (Socket(net), FdRead) =>
            HandleSocket(task, net, event, ops);
          case (Socket(net), FdWrite) =>
            HandleSocket(task, net, event, ops);
          case (SocketTimeout(net), FdRead) =>
            HandleSocket(task, net, event, ops);
          case (SocketTimeout(net), FdWrite) =>
            HandleSocket(task, net, event, ops);
          case _ =>
            discarded := discarded + [task.id];
            peak := Watch(View()).peak;
        }
      }
    }

    method HandleSocket(task: Task, net: NetEvent, event: Event, ops: seq<Op>)
      modifies this
      ensures View() == RunOps(Watch(old(View()).(called := old(called) + [Delivery(task.id, event, NetOutcome(net, event))])), ops)
    {
      hide RunOps, Watch;
      if event.error {
        Callback(task, event, Failed, ops);
        return;
      }
      match net {
        case Accept =>
          if event.done {
            Callback(task, event, Accepted, ops);
          } else {
            Callback(task, event, Failed, ops);
          }
        case Read =>
          if event.done {
            Callback(task, event, ReadData, ops);
          } else {
            Callback(task, event, Failed, ops);
          }
        case Connect =>
          if event.hangup {
            Callback(task, event, Failed, ops);
          } else {
            Callback(task, event, Connected, ops);
          }
      }
    }

    /**
      Runs callbacks off the front of the queue until it is empty. `scripts` says what
      they do, in the order in which they run; a callback past its end does nothing.
     */
    method RunTickTask(scripts: seq<seq<Op>>) returns (n: nat)
      modifies this
      ensures nextTickQueue == []
      ensures View() == RunTicks(old(View()), scripts)
      ensures n == |ran| - |old(ran)|
    {
      n := 0;
      while nextTickQueue != []
        invariant RunTicks(old(View()), scripts) == RunTicks(View(), if n < |scripts| then scripts[n..] else [])
        invariant n == |ran| - |old(ran)|
        decreases if n < |scripts| then |scripts| - n else 0, |nextTickQueue|
      {
        var ops := if n < |scripts| then scripts[n] else [];
        assert n < |scripts| ==> scripts[n..][1..] == scripts[n + 1..];
        ran := ran + [nextTickQueue[0]];
        nextTickQueue := nextTickQueue[1..];
        OpsRanNothing(View(), ops);
        RunCallback(ops);
        n := n + 1;
      }
    }

    /** Ticks first; a poll only if none was waiting. */
    method RunOnce(scripts: seq<seq<Op>>, answer: Option<Batch>) returns (n: Option<nat>)
      modifies this
      ensures old(nextTickQueue) != [] ==>
                n == Some(|ran| - |old(ran)|) && n != Some(0) && View() == RunTicks(old(View()), scripts) && nextTickQueue == []
      ensures old(nextTickQueue) == [] && Subscriptions(old(tasks), |old(tasks)|) == [] ==>
                n == Some(0) && View() == old(View())
      ensures old(nextTickQueue) == [] && Subscriptions(old(tasks), |old(tasks)|) != [] && answer.None? ==>
                n == None && View() == old(View())
      ensures old(nextTickQueue) == [] && Subscriptions(old(tasks), |old(tasks)|) != [] && answer.Some? ==>
                n == Some(|answer.value|) && View() == DeliverAll(old(View()), answer.value)
    {
      TicksRun(View(), scripts);
      var ticks := RunTickTask(scripts);
      if ticks > 0 {
        return Some(ticks);
      }
      n := Poll(answer);
    }
  }

  function RunTicks(l: Loop, scripts: seq<seq<Op>>): Loop
    decreases |scripts|, |l.queue|
  {
    if l.queue == [] then l
    else if scripts == [] then RunTicks(RunTick(l, []), [])
    else RunTicks(RunTick(l, scripts[0]), scripts[1..])
  }

  lemma {:induction false} OpsRanNothing(l: Loop, ops: seq<Op>)
    ensures RunOps(l, ops).ran == l.ran
    ensures ops == [] ==> RunOps(l, ops).queue == l.queue
    decreases |ops|
  {
    if ops != [] {
      OpsRanNothing(RunOp(l, ops[0]), ops[1..]);
    }
  }

  lemma {:induction false} TicksRun(l: Loop, scripts: seq<seq<Op>>)
    ensures RunTicks(l, scripts).queue == []
    ensures |RunTicks(l, scripts).ran| >= |l.ran| + One(l.queue != [])
    ensures l.queue == [] ==> RunTicks(l, scripts) == l
    decreases |scripts|, |l.queue|
  {
    if l.queue != [] {
      var ops := if scripts == [] then [] else scripts[0];
      OpsRanNothing(l.(queue := l.queue[1..], ran := l.ran + [l.queue[0]]), ops);
      TicksRun(RunTick(l, ops), if scripts == [] then [] else scripts[1..]);
    }
  }

  lemma {:induction false} FirstFreeIs(slots: Slots, n: nat)
    requires n <= |slots| && (forall i :: 0 <= i < n ==> slots[i].Some?) && (n < |slots| ==> slots[n].None?)
    ensures FirstFree(slots) == n
  {
    if n > 0 {
      FirstFreeIs(slots[1..], n - 1);
    }
  }

  lemma {:induction false} TicksKeepInv(l: Loop, scripts: seq<seq<Op>>)
    requires Inv(l)
    ensures Inv(RunTicks(l, scripts))
    decreases |scripts|, |l.queue|
  {
    hide Inv;
    if l.queue != [] {
      var ops := if scripts == [] then [] else scripts[0];
      TickKeepsInv(l, ops);
      OpsRanNothing(l.(queue := l.queue[1..], ran := l.ran + [l.queue[0]]), ops);
      TicksKeepInv(RunTick(l, ops), if scripts == [] then [] else scripts[1..]);
    }
  }

  lemma Extended(states: seq<Loop>, steps: seq<Step>, step: Step)
    requires IsRun(states, steps) && Enabled(states[|steps|], step)
    ensures IsRun(states + [Apply(states[|steps|], step)], steps + [step])
  {
  }

  /** A drain of the queue is a run of tick steps: it goes on with any run that has come so far. */
  lemma {:induction false} TicksAreSteps(states: seq<Loop>, steps: seq<Step>, scripts: seq<seq<Op>>)
      returns (states': seq<Loop>, steps': seq<Step>)
    requires IsRun(states, steps)
    ensures IsRun(states', steps') && states <= states' && steps <= steps'
    ensures states'[|steps'|] == RunTicks(states[|steps|], scripts)
    ensures forall i :: |steps| <= i < |steps'| ==> steps'[i].Tick?
    decreases |scripts|, |states[|states| - 1].queue|
  {
    hide IsRun, RunTick;
    IsRunLength(states, steps);
    states', steps' := states, steps;
    var l := states[|steps|];
    if l.queue != [] {
      var ops := if scripts == [] then [] else scripts[0];
      assert scripts == [] ==> |RunTick(l, ops).queue| < |l.queue| by { QuietTick(l); }
      Extended(states, steps, Tick(ops));
      states', steps' := TicksAreSteps(states + [RunTick(l, ops)], steps + [Tick(ops)], if scripts == [] then [] else scripts[1..]);
    }
  }

  lemma IsRunLength(states: seq<Loop>, steps: seq<Step>)
    requires IsRun(states, steps)
    ensures |states| == |steps| + 1
  {
  }

  lemma QuietTick(l: Loop)
    requires l.queue != []
    ensures |RunTick(l, []).queue| < |l.queue|
  {
    OpsRanNothing(l.(queue := l.queue[1..], ran := l.ran + [l.queue[0]]), []);
  }
}
