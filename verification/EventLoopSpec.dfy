/**
  The event loop of `event_loop/mod.rs` on values: the slot table, the tick queue,
  and a ledger of what became of every task.

  A task is known by a number given out when it is added. A callback is whatever it
  does to the loop: a list of operations, arbitrary and different at every call.
 */
module EventLoopSpec {
  import opened Options

  datatype NetEvent = Accept | Read | Connect

  datatype Kind = Timeout | Socket(event: NetEvent) | SocketTimeout(event: NetEvent)

  datatype Task = Task(id: nat, kind: Kind)

  datatype EventType = Clock | FdRead | FdWrite

  datatype Subscription = Subscription(slot: nat, etype: EventType)

  /** `poll_oneoff` hands back a slot, not a task. `done` is how a later accept or read went. */
  datatype Event = Event(slot: nat, etype: EventType, error: bool, hangup: bool, done: bool)

  /** What a callback is told. */
  datatype PollResult = TimedOut | Accepted | ReadData | Connected | Failed

  datatype Delivery = Delivery(id: nat, event: Event, result: PollResult)

  /** What a callback may do to the loop. */
  datatype Op = Add(kind: Kind) | Clear(slot: nat) | NextTick

  type Slots = seq<Option<Task>>

  /**
    The loop and its ledger: the next number to give out, the deliveries made, the
    tasks cleared, the tasks dropped by the catch-all arm, the most tasks ever live
    at once, the tick queue, the ticks enqueued and the ticks run, and the kind that
    each task was added with.
   */
  datatype Loop = Loop(
    slots: Slots, next: nat, called: seq<Delivery>, cleared: seq<nat>, discarded: seq<nat>, peak: nat,
    queue: seq<nat>, ticks: nat, ran: seq<nat>, kinds: seq<Kind>)

  const EMPTY := Loop([], 0, [], [], [], 0, [], 0, [], [])

  // ---------- Live tasks ----------

  function One(b: bool): nat {
    if b then 1 else 0
  }

  predicate Holds(t: Option<Task>, id: nat) {
    t.Some? && t.value.id == id
  }

  /** In how many slots task `id` is. */
  function SlotsOf(slots: Slots, id: nat): nat {
    if slots == [] then 0 else One(Holds(slots[0], id)) + SlotsOf(slots[1..], id)
  }

  /** How many tasks are live. */
  function Live(slots: Slots): nat {
    if slots == [] then 0 else One(slots[0].Some?) + Live(slots[1..])
  }

  /** Keeps the largest number of live tasks seen. */
  function Watch(l: Loop): Loop {
    if Live(l.slots) > l.peak then l.(peak := Live(l.slots)) else l
  }

  // ---------- Operations ----------

  /** The slot that `add_task` chooses: the first free one, or a new one. */
  function FirstFree(slots: Slots): (n: nat)
    ensures n <= |slots|
    ensures n < |slots| ==> slots[n].None?
    ensures forall i :: 0 <= i < n ==> slots[i].Some?
  {
    if slots == [] || slots[0].None? then 0 else 1 + FirstFree(slots[1..])
  }

  function Put(slots: Slots, t: Task): Slots {
    var n := FirstFree(slots);
    if n < |slots| then slots[n := Some(t)] else slots + [Some(t)]
  }

  function AddTask(l: Loop, kind: Kind): Loop {
    Watch(l.(slots := Put(l.slots, Task(l.next, kind)), next := l.next + 1, kinds := l.kinds + [kind]))
  }

  /** `clear_timeout` leaves alone an index out of range and a slot without a timeout. */
  predicate Clearable(slots: Slots, slot: nat) {
    slot < |slots| && slots[slot].Some? && slots[slot].value.kind.Timeout?
  }

  function ClearTimeout(l: Loop, slot: nat): Loop {
    if Clearable(l.slots, slot) then
      Watch(l.(slots := l.slots[slot := None], cleared := l.cleared + [l.slots[slot].value.id]))
    else l
  }

  function SetNextTick(l: Loop): Loop {
    l.(queue := l.queue + [l.ticks], ticks := l.ticks + 1)
  }

  function RunOp(l: Loop, op: Op): Loop {
    match op
    case Add(kind) => AddTask(l, kind)
    case Clear(slot) => ClearTimeout(l, slot)
    case NextTick => SetNextTick(l)
  }

  function RunOps(l: Loop, ops: seq<Op>): Loop
    decreases |ops|
  {
    if ops == [] then l else RunOps(RunOp(l, ops[0]), ops[1..])
  }

  // ---------- One poll ----------

  function NetType(event: NetEvent): EventType {
    if event.Connect? then FdWrite else FdRead
  }

  /** A task's subscriptions; a socket with a timeout has two. */
  function SubscriptionsOf(t: Task, slot: nat): seq<Subscription> {
    match t.kind
    case Timeout => [Subscription(slot, Clock)]
    case Socket(e) => [Subscription(slot, NetType(e))]
    case SocketTimeout(e) => [Subscription(slot, NetType(e)), Subscription(slot, Clock)]
  }

  /** The subscriptions of the first `n` slots, in order. */
  function Subscriptions(slots: Slots, n: nat): seq<Subscription>
    requires n <= |slots|
  {
    if n == 0 then []
    else Subscriptions(slots, n - 1) + (if slots[n - 1].Some? then SubscriptionsOf(slots[n - 1].value, n - 1) else [])
  }

  /** The arms of `poll`'s match; the catch-all arm gives None. */
  function Outcome(kind: Kind, e: Event): Option<PollResult> {
    match kind
    case Timeout => if e.etype.Clock? then Some(TimedOut) else None
    case SocketTimeout(net) => if e.etype.Clock? then Some(TimedOut) else Some(NetOutcome(net, e))
    case Socket(net) => if e.etype.Clock? then None else Some(NetOutcome(net, e))
  }

  function NetOutcome(net: NetEvent, e: Event): PollResult {
    if e.error then Failed
    else match net
         case Accept => if e.done then Accepted else Failed
         case Read => if e.done then ReadData else Failed
         case Connect => if e.hangup then Failed else Connected
  }

  function Take(l: Loop, slot: nat): Loop
    requires slot < |l.slots|
  {
    l.(slots := l.slots[slot := None])
  }

  /** One event of the batch; `ops` is what the callback does if one is called. */
  function Deliver(l: Loop, e: Event, ops: seq<Op>): Loop {
    if e.slot >= |l.slots| || l.slots[e.slot].None? then l
    else
      var t := l.slots[e.slot].value;
      match Outcome(t.kind, e)
      case None => Watch(Take(l, e.slot).(discarded := l.discarded + [t.id]))
      case Some(result) => RunOps(Watch(Take(l, e.slot).(called := l.called + [Delivery(t.id, e, result)])), ops)
  }

  /** A batch of events with what each callback does. */
  type Batch = seq<(Event, seq<Op>)>

  /** Every event answers a subscription; the same one may be answered again. */
  predicate Matches(batch: Batch, slots: Slots) {
    forall i :: 0 <= i < |batch| ==>
      Subscription(batch[i].0.slot, batch[i].0.etype) in Subscriptions(slots, |slots|)
  }

  function DeliverAll(l: Loop, batch: Batch): Loop
    decreases |batch|
  {
    if batch == [] then l else DeliverAll(Deliver(l, batch[0].0, batch[0].1), batch[1..])
  }

  /** One callback of the tick queue. */
  function RunTick(l: Loop, ops: seq<Op>): Loop
    requires l.queue != []
  {
    RunOps(l.(queue := l.queue[1..], ran := l.ran + [l.queue[0]]), ops)
  }

  // ---------- Runs of the loop ----------

  datatype Step = Call(op: Op) | Poll(batch: Batch) | Tick(ops: seq<Op>)

  /** A poll happens only when no tick is waiting, and gets only events it subscribed to. */
  predicate Enabled(l: Loop, step: Step) {
    match step
    case Call(_) => true
    case Poll(batch) => l.queue == [] && Matches(batch, l.slots)
    case Tick(_) => l.queue != []
  }

  function Apply(l: Loop, step: Step): Loop
    requires Enabled(l, step)
  {
    match step
    case Call(op) => RunOp(l, op)
    case Poll(batch) => DeliverAll(l, batch)
    case Tick(ops) => RunTick(l, ops)
  }

  ghost predicate IsRun(states: seq<Loop>, steps: seq<Step>) {
    && |states| == |steps| + 1
    && states[0] == EMPTY
    && forall i :: 0 <= i < |steps| ==> Enabled(states[i], steps[i]) && states[i + 1] == Apply(states[i], steps[i])
  }

  // ---------- The ledger balances ----------

  /** How often task `id` was called back. */
  function CallsOf(called: seq<Delivery>, id: nat): nat {
    if called == [] then 0 else One(called[|called| - 1].id == id) + CallsOf(called[..|called| - 1], id)
  }

  /** In how many places the ledger has task `id`: live, called, cleared or dropped. */
  function Places(l: Loop, id: nat): nat {
    SlotsOf(l.slots, id) + CallsOf(l.called, id) + multiset(l.cleared)[id] + multiset(l.discarded)[id]
  }

  /** Every task ever added is in exactly one place, and no other number is anywhere. */
  ghost predicate Balanced(l: Loop) {
    forall id: nat :: Places(l, id) == One(id < l.next)
  }

  /** The table has as many slots as tasks were ever live at once. */
  ghost predicate Compact(l: Loop) {
    |l.slots| == l.peak
  }

  /** Ticks run in the order in which they were enqueued, none twice, none skipped. */
  ghost predicate Fifo(l: Loop) {
    && |l.ran| + |l.queue| == l.ticks
    && (forall i :: 0 <= i < |l.ran| ==> l.ran[i] == i)
    && (forall i :: 0 <= i < |l.queue| ==> l.queue[i] == |l.ran| + i)
  }

  ghost predicate Inv(l: Loop) {
    Balanced(l) && Compact(l) && Fifo(l)
  }

  lemma {:induction false} CountsUpdate(slots: Slots, i: nat, t: Option<Task>, id: nat)
    requires i < |slots|
    ensures SlotsOf(slots[i := t], id) == SlotsOf(slots, id) - One(Holds(slots[i], id)) + One(Holds(t, id))
    ensures Live(slots[i := t]) == Live(slots) - One(slots[i].Some?) + One(t.Some?)
    decreases |slots|
  {
    if i == 0 {
      assert slots[0 := t][1..] == slots[1..];
    } else {
      assert slots[i := t][1..] == slots[1..][i - 1 := t];
      CountsUpdate(slots[1..], i - 1, t, id);
    }
  }

  lemma {:induction false} CountsAppend(slots: Slots, t: Option<Task>, id: nat)
    ensures SlotsOf(slots + [t], id) == SlotsOf(slots, id) + One(Holds(t, id))
    ensures Live(slots + [t]) == Live(slots) + One(t.Some?)
    decreases |slots|
  {
    if slots == [] {
      assert (slots + [t])[1..] == [];
    } else {
      assert (slots + [t])[1..] == slots[1..] + [t];
      CountsAppend(slots[1..], t, id);
    }
  }

  lemma {:induction false} LiveAtMost(slots: Slots)
    ensures Live(slots) <= |slots|
    ensures (forall i :: 0 <= i < |slots| ==> slots[i].Some?) ==> Live(slots) == |slots|
    decreases |slots|
  {
    if slots != [] {
      LiveAtMost(slots[1..]);
    }
  }

  lemma AddKeepsInv(l: Loop, kind: Kind)
    requires Inv(l)
    ensures Inv(AddTask(l, kind))
  {
    var t := Task(l.next, kind);
    var n, r := FirstFree(l.slots), AddTask(l, kind);
    forall id: nat
      ensures Places(r, id) == One(id < r.next)
    {
      assert Places(l, id) == One(id < l.next);
      if n < |l.slots| {
        CountsUpdate(l.slots, n, Some(t), id);
      } else {
        CountsAppend(l.slots, Some(t), id);
      }
    }
    AddIsCompact(l, kind);
  }

  lemma AddIsCompact(l: Loop, kind: Kind)
    requires Compact(l)
    ensures Compact(AddTask(l, kind))
  {
    var t := Task(l.next, kind);
    if FirstFree(l.slots) < |l.slots| {
      LiveAtMost(Put(l.slots, t));
    } else {
      CountsAppend(l.slots, Some(t), 0);
      LiveAtMost(l.slots);
    }
  }

  /** Taking the task out of a slot leaves the peak alone. */
  lemma TakeIsCompact(l: Loop, slot: nat)
    requires Compact(l) && slot < |l.slots|
    ensures Live(l.slots[slot := None]) <= l.peak
  {
    LiveAtMost(l.slots[slot := None]);
  }

  lemma ClearKeepsInv(l: Loop, slot: nat)
    requires Inv(l)
    ensures Inv(ClearTimeout(l, slot))
  {
    if Clearable(l.slots, slot) {
      var r := ClearTimeout(l, slot);
      TakeIsCompact(l, slot);
      forall id: nat
        ensures Places(r, id) == One(id < r.next)
      {
        assert Places(l, id) == One(id < l.next);
        CountsUpdate(l.slots, slot, None, id);
      }
    }
  }

  /**
    `clear_timeout` takes away the timeout in that slot, which is then in the ledger as
    cleared. It does nothing for an index out of range, a free slot or another task.
   */
  lemma ClearTakesOneTimeout(l: Loop, slot: nat, id: nat)
    ensures var r := ClearTimeout(l, slot);
            if slot < |l.slots| && l.slots[slot].Some? && l.slots[slot].value.kind == Timeout then
              && r.slots == l.slots[slot := None] && r.cleared == l.cleared + [l.slots[slot].value.id]
              && SlotsOf(r.slots, id) == SlotsOf(l.slots, id) - One(l.slots[slot].value.id == id)
            else r == l
  {
    if Clearable(l.slots, slot) {
      CountsUpdate(l.slots, slot, None, id);
    }
  }

  /** A tick that is set waits behind all others: as many run before it as were ever set before. */
  lemma TickWaitsItsTurn(l: Loop)
    requires Fifo(l)
    ensures var r := SetNextTick(l);
            && |r.queue| == |l.queue| + 1 && r.queue[..|l.queue|] == l.queue
            && r.queue[|l.queue|] == |l.ran| + |l.queue| == l.ticks && r.ran == l.ran
  {
  }

  lemma OpKeepsInv(l: Loop, op: Op)
    requires Inv(l)
    ensures Inv(RunOp(l, op))
  {
    match op
    case Add(kind) => AddKeepsInv(l, kind);
    case Clear(slot) => ClearKeepsInv(l, slot);
    case NextTick => SamePlaces(l, SetNextTick(l));
  }

  lemma SamePlaces(l: Loop, r: Loop)
    requires Balanced(l) && l.slots == r.slots && l.called == r.called
    requires l.cleared == r.cleared && l.discarded == r.discarded && l.next == r.next
    ensures Balanced(r)
  {
    assert forall id: nat :: Places(r, id) == Places(l, id);
  }

  lemma {:induction false} OpsKeepInv(l: Loop, ops: seq<Op>)
    requires Inv(l)
    ensures Inv(RunOps(l, ops))
    decreases |ops|
  {
    hide RunOp, Inv;
    if ops != [] {
      OpKeepsInv(l, ops[0]);
      OpsKeepInv(RunOp(l, ops[0]), ops[1..]);
    }
  }

  lemma DiscardKeepsInv(l: Loop, slot: nat)
    requires Inv(l) && slot < |l.slots| && l.slots[slot].Some?
    ensures Inv(Watch(Take(l, slot).(discarded := l.discarded + [l.slots[slot].value.id])))
  {
    var r := Take(l, slot).(discarded := l.discarded + [l.slots[slot].value.id]);
    TakeIsCompact(l, slot);
    forall id: nat
      ensures Places(r, id) == One(id < r.next)
    {
      assert Places(l, id) == One(id < l.next);
      CountsUpdate(l.slots, slot, None, id);
    }
  }

  lemma CallKeepsInv(l: Loop, slot: nat, d: Delivery)
    requires Inv(l) && slot < |l.slots| && l.slots[slot].Some? && d.id == l.slots[slot].value.id
    ensures Inv(Watch(Take(l, slot).(called := l.called + [d])))
  {
    var r := Take(l, slot).(called := l.called + [d]);
    TakeIsCompact(l, slot);
    assert r.called[..|r.called| - 1] == l.called;
    forall id: nat
      ensures Places(r, id) == One(id < r.next)
    {
      assert Places(l, id) == One(id < l.next);
      CountsUpdate(l.slots, slot, None, id);
    }
  }

  lemma DeliverKeepsInv(l: Loop, e: Event, ops: seq<Op>)
    requires Inv(l)
    ensures Inv(Deliver(l, e, ops))
  {
    hide Inv, Watch, Outcome, RunOps;
    if e.slot < |l.slots| && l.slots[e.slot].Some? {
      var t := l.slots[e.slot].value;
      match Outcome(t.kind, e) {
        case None => DiscardKeepsInv(l, e.slot);
        case Some(result) =>
          var d := Delivery(t.id, e, result);
          CallKeepsInv(l, e.slot, d);
          OpsKeepInv(Watch(Take(l, e.slot).(called := l.called + [d])), ops);
      }
    }
  }

  lemma {:induction false} BatchKeepsInv(l: Loop, batch: Batch)
    requires Inv(l)
    ensures Inv(DeliverAll(l, batch))
    decreases |batch|
  {
    hide Deliver, Inv;
    if batch != [] {
      DeliverKeepsInv(l, batch[0].0, batch[0].1);
      BatchKeepsInv(Deliver(l, batch[0].0, batch[0].1), batch[1..]);
    }
  }

  lemma TickKeepsInv(l: Loop, ops: seq<Op>)
    requires Inv(l) && l.queue != []
    ensures Inv(RunTick(l, ops))
  {
    var r := l.(queue := l.queue[1..], ran := l.ran + [l.queue[0]]);
    SamePlaces(l, r);
    OpsKeepInv(r, ops);
  }

  /** Every state of every run keeps the ledger balanced. */
  lemma {:induction false} RunKeepsInv(states: seq<Loop>, steps: seq<Step>, i: nat)
    requires IsRun(states, steps) && i < |states|
    ensures Inv(states[i])
  {
    hide RunOp, DeliverAll, RunTick;
    if i > 0 {
      RunKeepsInv(states, steps, i - 1);
      match steps[i - 1] {
        case Call(op) => OpKeepsInv(states[i - 1], op);
        case Poll(batch) => BatchKeepsInv(states[i - 1], batch);
        case Tick(ops) => TickKeepsInv(states[i - 1], ops);
      }
    }
  }

  lemma {:induction false} OneSlotOnly(slots: Slots, id: nat)
    ensures SlotsOf(slots, id) > 0 <==> exists i :: 0 <= i < |slots| && Holds(slots[i], id)
    ensures SlotsOf(slots, id) <= 1 ==>
              forall i, j :: 0 <= i < |slots| && 0 <= j < |slots| && Holds(slots[i], id) && Holds(slots[j], id) ==> i == j
    decreases |slots|
  {
    if slots != [] {
      var rest := slots[1..];
      OneSlotOnly(rest, id);
      forall i | 0 <= i < |slots| && Holds(slots[i], id)
        ensures i == 0 || Holds(rest[i - 1], id)
      {
      }
      if SlotsOf(rest, id) > 0 {
        var i :| 0 <= i < |rest| && Holds(rest[i], id);
        assert Holds(slots[i + 1], id);
      }
    }
  }

  /**
    In every state of every run a task that was added is live in one slot only, or
    was called back once, or was cleared once, or was dropped once: never two of them.
   */
  lemma ExactlyOneFate(states: seq<Loop>, steps: seq<Step>, i: nat, id: nat)
    requires IsRun(states, steps) && i < |states|
    ensures var l := states[i];
            && SlotsOf(l.slots, id) + CallsOf(l.called, id) + multiset(l.cleared)[id] + multiset(l.discarded)[id]
               == One(id < l.next)
            && (forall j, k :: 0 <= j < |l.slots| && 0 <= k < |l.slots| && Holds(l.slots[j], id) && Holds(l.slots[k], id)
                  ==> j == k)
  {
    hide Enabled, Apply;
    RunKeepsInv(states, steps, i);
    var l := states[i];
    assert Places(l, id) == One(id < l.next);
    OneSlotOnly(l.slots, id);
  }

  /** In every state of every run the table is exactly as long as the peak. */
  lemma TableIsPeak(states: seq<Loop>, steps: seq<Step>, i: nat)
    requires IsRun(states, steps) && i < |states|
    ensures |states[i].slots| == states[i].peak && Live(states[i].slots) <= states[i].peak
  {
    hide Enabled, Apply;
    RunKeepsInv(states, steps, i);
    LiveAtMost(states[i].slots);
  }

  /** In every state of every run the ticks that ran are the first ones enqueued, in order. */
  lemma TicksInOrder(states: seq<Loop>, steps: seq<Step>, i: nat)
    requires IsRun(states, steps) && i < |states|
    ensures Fifo(states[i])
  {
    hide Enabled, Apply;
    RunKeepsInv(states, steps, i);
  }

  // ---------- An index names its task until the task is gone ----------

  ghost predicate Gone(l: Loop, id: nat) {
    CallsOf(l.called, id) > 0 || id in l.cleared || id in l.discarded
  }

  /** From `l` to `r`: every slot keeps its task unless the task is called, cleared or dropped. */
  ghost predicate KeepsNames(l: Loop, r: Loop) {
    && |l.slots| <= |r.slots|
    && l.next <= r.next
    && (forall id: nat :: Gone(l, id) ==> Gone(r, id))
    && (forall i :: 0 <= i < |l.slots| && l.slots[i].Some? ==> r.slots[i] == l.slots[i] || Gone(r, l.slots[i].value.id))
    && (forall i :: 0 <= i < |r.slots| && r.slots[i].Some? && r.slots[i].value.id < l.next ==>
          i < |l.slots| && r.slots[i] == l.slots[i])
  }

  lemma AddKeepsNames(l: Loop, kind: Kind)
    ensures KeepsNames(l, AddTask(l, kind))
    ensures var n, r := FirstFree(l.slots), AddTask(l, kind);
            && n < |r.slots| && r.slots[n] == Some(Task(l.next, kind))
            && (forall i :: 0 <= i < |l.slots| && i != n ==> r.slots[i] == l.slots[i])
            && (n < |l.slots| ==> l.slots[n].None?)
  {
    assert forall id: nat :: Gone(AddTask(l, kind), id) == Gone(l, id);
  }

  lemma OpKeepsNames(l: Loop, op: Op)
    ensures KeepsNames(l, RunOp(l, op))
  {
    match op
    case Add(kind) => AddKeepsNames(l, kind);
    case Clear(slot) =>
    case NextTick => assert forall id: nat :: Gone(SetNextTick(l), id) == Gone(l, id);
  }

  lemma NamesCompose(a: Loop, b: Loop, c: Loop)
    requires KeepsNames(a, b) && KeepsNames(b, c)
    ensures KeepsNames(a, c)
  {
    hide Gone;
  }

  lemma {:induction false} OpsKeepNames(l: Loop, ops: seq<Op>)
    ensures KeepsNames(l, RunOps(l, ops))
    decreases |ops|
  {
    hide RunOp, Gone;
    if ops != [] {
      OpKeepsNames(l, ops[0]);
      OpsKeepNames(RunOp(l, ops[0]), ops[1..]);
      NamesCompose(l, RunOp(l, ops[0]), RunOps(l, ops));
    }
  }

  lemma TakenIsGone(l: Loop, slot: nat, r: Loop)
    requires slot < |l.slots| && l.slots[slot].Some? && r.slots == l.slots[slot := None] && r.next == l.next
    requires forall id: nat :: Gone(r, id) <==> Gone(l, id) || id == l.slots[slot].value.id
    ensures KeepsNames(l, r)
  {
  }

  lemma DeliverKeepsNames(l: Loop, e: Event, ops: seq<Op>)
    ensures KeepsNames(l, Deliver(l, e, ops))
  {
    if e.slot < |l.slots| && l.slots[e.slot].Some? {
      var t := l.slots[e.slot].value;
      match Outcome(t.kind, e) {
        case None => TakenIsGone(l, e.slot, Deliver(l, e, ops));
        case Some(result) =>
          var r := Watch(Take(l, e.slot).(called := l.called + [Delivery(t.id, e, result)]));
          assert r.called[..|r.called| - 1] == l.called;
          TakenIsGone(l, e.slot, r);
          OpsKeepNames(r, ops);
          NamesCompose(l, r, Deliver(l, e, ops));
      }
    }
  }

  lemma {:induction false} BatchKeepsNames(l: Loop, batch: Batch)
    ensures KeepsNames(l, DeliverAll(l, batch))
    decreases |batch|
  {
    hide Deliver, Gone;
    if batch != [] {
      var r := Deliver(l, batch[0].0, batch[0].1);
      DeliverKeepsNames(l, batch[0].0, batch[0].1);
      BatchKeepsNames(r, batch[1..]);
      NamesCompose(l, r, DeliverAll(l, batch));
    }
  }

  /** Along every run the index that `add_task` returned names its task until the task is gone. */
  lemma {:induction false} IndexNamesTask(states: seq<Loop>, steps: seq<Step>, i: nat, j: nat)
    requires IsRun(states, steps) && i <= j < |states|
    ensures KeepsNames(states[i], states[j])
    decreases j
  {
    hide RunOp, DeliverAll, RunOps, Gone;
    if i < j {
      IndexNamesTask(states, steps, i, j - 1);
      var l := states[j - 1];
      match steps[j - 1] {
        case Call(op) => OpKeepsNames(l, op);
        case Poll(batch) => BatchKeepsNames(l, batch);
        case Tick(ops) =>
          var r := l.(queue := l.queue[1..], ran := l.ran + [l.queue[0]]);
          SameGone(l, r);
          OpsKeepNames(r, ops);
          NamesCompose(l, r, states[j]);
      }
      NamesCompose(states[i], l, states[j]);
    }
  }

  lemma SameGone(l: Loop, r: Loop)
    requires l.slots == r.slots && l.next == r.next
    requires l.called == r.called && l.cleared == r.cleared && l.discarded == r.discarded
    ensures KeepsNames(l, r)
  {
    assert forall id: nat :: Gone(r, id) == Gone(l, id);
  }

  // ---------- Which task an event reaches ----------

  lemma {:induction false} SubscriptionsIff(slots: Slots, n: nat, slot: nat, etype: EventType)
    requires n <= |slots|
    ensures Subscription(slot, etype) in Subscriptions(slots, n) <==>
            slot < n && slots[slot].Some? && Subscription(slot, etype) in SubscriptionsOf(slots[slot].value, slot)
  {
    if n > 0 {
      SubscriptionsIff(slots, n - 1, slot, etype);
    }
  }

  /** The callback told of an event is the one of the task that subscribed to it. */
  ghost predicate Proper(start: Loop, d: Delivery) {
    var e := d.event;
    && e.slot < |start.slots| && Holds(start.slots[e.slot], d.id)
    && Subscription(e.slot, e.etype) in SubscriptionsOf(start.slots[e.slot].value, e.slot)
    && (d.result.TimedOut? <==> e.etype.Clock?)
  }

  /** From `l` to `r`: nothing was dropped, and every event reached only its subscriber. */
  ghost predicate WellDelivered(start: Loop, l: Loop, r: Loop) {
    && r.discarded == l.discarded
    && forall k :: |l.called| <= k < |r.called| ==> Proper(start, r.called[k])
  }

  /** At its turn, the event finds in its slot a task numbered from `mark` on. */
  predicate Stale(l: Loop, e: Event, mark: nat) {
    e.slot < |l.slots| && l.slots[e.slot].Some? && l.slots[e.slot].value.id >= mark
  }

  /** No event of the batch finds a task that was added during the batch. */
  predicate NoneStale(l: Loop, batch: Batch, mark: nat)
    decreases |batch|
  {
    batch == [] ||
    (!Stale(l, batch[0].0, mark) && NoneStale(Deliver(l, batch[0].0, batch[0].1), batch[1..], mark))
  }

  lemma {:induction false} OpsCallNothing(l: Loop, ops: seq<Op>)
    ensures RunOps(l, ops).called == l.called && RunOps(l, ops).discarded == l.discarded
    decreases |ops|
  {
    if ops != [] {
      assert RunOp(l, ops[0]).called == l.called && RunOp(l, ops[0]).discarded == l.discarded;
      OpsCallNothing(RunOp(l, ops[0]), ops[1..]);
    }
  }

  /** What one event adds to the ledger. */
  lemma DeliverAdds(l: Loop, e: Event, ops: seq<Op>)
    ensures var r := Deliver(l, e, ops);
            if e.slot >= |l.slots| || l.slots[e.slot].None? then r == l
            else
              var t := l.slots[e.slot].value;
              match Outcome(t.kind, e)
              case None => r.called == l.called && r.discarded == l.discarded + [t.id]
              case Some(result) => r.called == l.called + [Delivery(t.id, e, result)] && r.discarded == l.discarded
  {
    if e.slot < |l.slots| && l.slots[e.slot].Some? {
      var t := l.slots[e.slot].value;
      match Outcome(t.kind, e)
      case None =>
      case Some(result) => OpsCallNothing(Watch(Take(l, e.slot).(called := l.called + [Delivery(t.id, e, result)])), ops);
    }
  }

  lemma {:induction false} BatchExtends(l: Loop, batch: Batch)
    ensures l.called <= DeliverAll(l, batch).called && l.discarded <= DeliverAll(l, batch).discarded
    decreases |batch|
  {
    hide Deliver;
    if batch != [] {
      DeliverAdds(l, batch[0].0, batch[0].1);
      BatchExtends(Deliver(l, batch[0].0, batch[0].1), batch[1..]);
    }
  }

  lemma OldIds(l: Loop, i: nat)
    requires Inv(l) && i < |l.slots| && l.slots[i].Some?
    ensures l.slots[i].value.id < l.next
  {
    var id := l.slots[i].value.id;
    assert Holds(l.slots[i], id);
    OneSlotOnly(l.slots, id);
    assert Places(l, id) == One(id < l.next);
  }

  /** One event: properly delivered, or delivered to nobody, exactly when it is not stale. */
  lemma OneEvent(start: Loop, l: Loop, e: Event, ops: seq<Op>)
    requires Inv(start) && KeepsNames(start, l)
    requires Subscription(e.slot, e.etype) in Subscriptions(start.slots, |start.slots|)
    ensures WellDelivered(start, l, Deliver(l, e, ops)) <==> !Stale(l, e, start.next)
  {
    hide RunOps, Inv, Gone;
    DeliverAdds(l, e, ops);
    SubscriptionsIff(start.slots, |start.slots|, e.slot, e.etype);
    OldIds(start, e.slot);
    var r := Deliver(l, e, ops);
    if e.slot < |l.slots| && l.slots[e.slot].Some? {
      var t := l.slots[e.slot].value;
      if t.id < start.next {
        assert start.slots[e.slot] == l.slots[e.slot];
      } else if Outcome(t.kind, e).Some? {
        assert !Proper(start, r.called[|l.called|]);
      }
    }
  }

  lemma {:induction false} BatchFrom(start: Loop, l: Loop, batch: Batch)
    requires Inv(start) && KeepsNames(start, l) && Matches(batch, start.slots)
    ensures WellDelivered(start, l, DeliverAll(l, batch)) <==> NoneStale(l, batch, start.next)
    decreases |batch|
  {
    hide Deliver, Inv, KeepsNames, Proper, Stale;
    if batch != [] {
      var e, ops := batch[0].0, batch[0].1;
      var r := Deliver(l, e, ops);
      var end := DeliverAll(l, batch);
      DeliverKeepsNames(l, e, ops);
      NamesCompose(start, l, r);
      OneEvent(start, l, e, ops);
      DeliverAdds(l, e, ops);
      BatchExtends(r, batch[1..]);
      BatchFrom(start, r, batch[1..]);
      WellDeliveredSplits(start, l, r, end);
    }
  }

  lemma WellDeliveredSplits(start: Loop, l: Loop, r: Loop, end: Loop)
    requires l.called <= r.called <= end.called && l.discarded <= r.discarded <= end.discarded
    ensures WellDelivered(start, l, end) <==> WellDelivered(start, l, r) && WellDelivered(start, r, end)
  {
    hide Proper;
    if WellDelivered(start, l, end) {
      assert |r.discarded| == |l.discarded|;
      assert forall k :: |l.called| <= k < |r.called| ==> r.called[k] == end.called[k];
    }
    if WellDelivered(start, l, r) && WellDelivered(start, r, end) {
      assert forall k :: |l.called| <= k < |r.called| ==> r.called[k] == end.called[k];
    }
  }

  // ---------- Every subscriber is answered ----------

  /** The slots that a batch has events for. */
  function Pending(batch: Batch): set<nat> {
    set i | 0 <= i < |batch| :: batch[i].0.slot
  }

  /** A task that was live before is found only where it was. */
  lemma SameSlot(start: Loop, l: Loop, slot: nat, i: nat)
    requires Inv(start) && KeepsNames(start, l) && slot < |start.slots| && start.slots[slot].Some?
    requires i < |l.slots| && Holds(l.slots[i], start.slots[slot].value.id)
    ensures i == slot && l.slots[i] == start.slots[slot]
  {
    hide Inv, Gone;
    var id := start.slots[slot].value.id;
    OldIds(start, slot);
    assert l.slots[i] == start.slots[i];
    assert Holds(start.slots[i], id) && Holds(start.slots[slot], id);
    AtMostOneSlot(start, id);
    OneSlotOnly(start.slots, id);
  }

  lemma AtMostOneSlot(l: Loop, id: nat)
    requires Inv(l)
    ensures SlotsOf(l.slots, id) <= 1
  {
    assert Places(l, id) == One(id < l.next);
  }

  /**
    What can have become of a task that was live before the batch: it is not dropped, it is
    cleared only as a timeout, called only for an event of its slot, and gone after one.
   */
  ghost predicate Fate(t: Task, l: Loop, seen: bool) {
    && t.id !in l.discarded && (t.id in l.cleared ==> t.kind.Timeout?)
    && (CallsOf(l.called, t.id) > 0 ==> seen) && (seen ==> Gone(l, t.id))
  }

  lemma OpKeepsFate(start: Loop, l: Loop, op: Op, slot: nat, seen: bool)
    requires Inv(start) && KeepsNames(start, l) && slot < |start.slots| && start.slots[slot].Some?
    requires Fate(start.slots[slot].value, l, seen)
    ensures Fate(start.slots[slot].value, RunOp(l, op), seen)
  {
    hide Inv;
    if op.Clear? && Clearable(l.slots, op.slot) && l.slots[op.slot].value.id == start.slots[slot].value.id {
      SameSlot(start, l, slot, op.slot);
    }
  }

  lemma {:induction false} OpsKeepFate(start: Loop, l: Loop, ops: seq<Op>, slot: nat, seen: bool)
    requires Inv(start) && KeepsNames(start, l) && slot < |start.slots| && start.slots[slot].Some?
    requires Fate(start.slots[slot].value, l, seen)
    ensures Fate(start.slots[slot].value, RunOps(l, ops), seen)
    decreases |ops|
  {
    hide Inv, Fate, RunOp, KeepsNames;
    if ops != [] {
      OpKeepsFate(start, l, ops[0], slot, seen);
      OpKeepsNames(l, ops[0]);
      NamesCompose(start, l, RunOp(l, ops[0]));
      OpsKeepFate(start, RunOp(l, ops[0]), ops[1..], slot, seen);
    }
  }

  /** A task that is gone is in no slot. */
  lemma GoneIsNotLive(l: Loop, i: nat)
    requires Inv(l) && i < |l.slots| && l.slots[i].Some?
    ensures !Gone(l, l.slots[i].value.id)
  {
    var id := l.slots[i].value.id;
    assert Holds(l.slots[i], id);
    OneSlotOnly(l.slots, id);
    assert Places(l, id) == One(id < l.next);
  }

  lemma CallOne(called: seq<Delivery>, d: Delivery, id: nat)
    ensures CallsOf(called + [d], id) == CallsOf(called, id) + One(d.id == id)
  {
    assert (called + [d])[..|called|] == called;
  }

  /** The event finds this task in its own slot, or another one; in the task's slot only when the task is gone. */
  lemma WhichTask(start: Loop, l: Loop, i: nat, slot: nat)
    requires Inv(start) && KeepsNames(start, l) && slot < |start.slots| && start.slots[slot].Some?
    requires i < |l.slots| && l.slots[i].Some?
    ensures var t, other := start.slots[slot].value, l.slots[i].value;
            if other.id == t.id then i == slot && other == t else i == slot ==> Gone(l, t.id)
  {
    hide Inv, Gone;
    if l.slots[i].value.id == start.slots[slot].value.id {
      SameSlot(start, l, slot, i);
    }
  }

  /** A callback for a task in slot `i`. */
  lemma CallKeepsFate(t: Task, l: Loop, r: Loop, d: Delivery, seen: bool, now: bool)
    requires Fate(t, l, seen) && r.called == l.called + [d] && r.cleared == l.cleared && r.discarded == l.discarded
    requires (d.id == t.id ==> now) && (now ==> d.id == t.id || Gone(l, t.id))
    ensures Fate(t, r, seen || now)
  {
    CallOne(l.called, d, t.id);
  }

  /** A task in slot `i` that is dropped. */
  lemma DropKeepsFate(t: Task, l: Loop, r: Loop, id: nat, seen: bool, now: bool)
    requires Fate(t, l, seen) && r.called == l.called && r.cleared == l.cleared && r.discarded == l.discarded + [id]
    requires id != t.id && (now ==> Gone(l, t.id))
    ensures Fate(t, r, seen || now)
  {
  }

  lemma DeliverKeepsFate(start: Loop, l: Loop, e: Event, ops: seq<Op>, slot: nat, seen: bool)
    requires Inv(start) && Inv(l) && KeepsNames(start, l) && slot < |start.slots| && start.slots[slot].Some?
    requires Subscription(e.slot, e.etype) in Subscriptions(start.slots, |start.slots|)
    requires Fate(start.slots[slot].value, l, seen)
    ensures Fate(start.slots[slot].value, Deliver(l, e, ops), seen || e.slot == slot)
  {
    hide Inv, Fate, RunOps, Watch, Gone;
    var t := start.slots[slot].value;
    SubscriptionsIff(start.slots, |start.slots|, e.slot, e.etype);
    if e.slot >= |l.slots| || l.slots[e.slot].None? {
      NobodyThere(start, l, e, slot, seen);
    } else {
      var other := l.slots[e.slot].value;
      WhichTask(start, l, e.slot, slot);
      match Outcome(other.kind, e) {
        case None =>
          WatchOnly(Take(l, e.slot).(discarded := l.discarded + [other.id]));
          DropKeepsFate(t, l, Deliver(l, e, ops), other.id, seen, e.slot == slot);
        case Some(result) =>
          var r := Watch(Take(l, e.slot).(called := l.called + [Delivery(other.id, e, result)]));
          WatchOnly(Take(l, e.slot).(called := l.called + [Delivery(other.id, e, result)]));
          CallKeepsFate(t, l, r, Delivery(other.id, e, result), seen, e.slot == slot);
          CalledNames(l, e, result);
          NamesCompose(start, l, r);
          OpsKeepFate(start, r, ops, slot, seen || e.slot == slot);
      }
    }
  }

  lemma WatchOnly(l: Loop)
    ensures Watch(l) == l.(peak := Watch(l).peak)
  {
  }

  /** The slot is free: its task is gone already. */
  lemma NobodyThere(start: Loop, l: Loop, e: Event, slot: nat, seen: bool)
    requires KeepsNames(start, l) && slot < |start.slots| && start.slots[slot].Some?
    requires Fate(start.slots[slot].value, l, seen)
    requires e.slot >= |l.slots| || l.slots[e.slot].None?
    ensures Fate(start.slots[slot].value, l, seen || e.slot == slot)
  {
  }

  lemma CalledNames(l: Loop, e: Event, result: PollResult)
    requires e.slot < |l.slots| && l.slots[e.slot].Some?
    ensures KeepsNames(l, Watch(Take(l, e.slot).(called := l.called + [Delivery(l.slots[e.slot].value.id, e, result)])))
  {
    var r := Watch(Take(l, e.slot).(called := l.called + [Delivery(l.slots[e.slot].value.id, e, result)]));
    assert r.called[..|r.called| - 1] == l.called;
    TakenIsGone(l, e.slot, r);
  }

  lemma {:induction false} BatchKeepsFate(start: Loop, l: Loop, batch: Batch, slot: nat, seen: bool)
    requires Inv(start) && Inv(l) && KeepsNames(start, l) && slot < |start.slots| && start.slots[slot].Some?
    requires Matches(batch, start.slots) && Fate(start.slots[slot].value, l, seen)
    ensures Fate(start.slots[slot].value, DeliverAll(l, batch), seen || slot in Pending(batch))
    decreases |batch|
  {
    hide Inv, Fate, KeepsNames, Deliver;
    if batch != [] {
      var e, ops := batch[0].0, batch[0].1;
      DeliverKeepsFate(start, l, e, ops, slot, seen);
      DeliverKeepsInv(l, e, ops);
      DeliverKeepsNames(l, e, ops);
      NamesCompose(start, l, Deliver(l, e, ops));
      BatchKeepsFate(start, Deliver(l, e, ops), batch[1..], slot, seen || e.slot == slot);
      PendingSplits(batch);
    }
  }

  lemma PendingSplits(batch: Batch)
    requires batch != []
    ensures Pending(batch) == {batch[0].0.slot} + Pending(batch[1..])
  {
    forall n | n in Pending(batch)
      ensures n == batch[0].0.slot || n in Pending(batch[1..])
    {
      var i :| 0 <= i < |batch| && batch[i].0.slot == n;
      assert i > 0 ==> batch[1..][i - 1] == batch[i];
    }
    forall n | n in Pending(batch[1..])
      ensures n in Pending(batch)
    {
      var i :| 0 <= i < |batch| - 1 && batch[1..][i].0.slot == n;
      assert batch[i + 1].0.slot == n;
    }
    assert batch[0].0.slot in Pending(batch);
  }

  /** From `l` to `r`: the task in the slot is called back once; a timeout may be cleared instead. */
  ghost predicate Answered(l: Loop, r: Loop, slot: nat) {
    && slot < |l.slots| && l.slots[slot].Some?
    && var t := l.slots[slot].value;
       CallsOf(r.called, t.id) + (if t.kind.Timeout? then multiset(r.cleared)[t.id] else 0) == 1
  }

  /** From `l` to `r`: the task in the slot is not called back, and kept unless it is a timeout that is cleared. */
  ghost predicate Untouched(l: Loop, r: Loop, slot: nat)
    requires slot < |l.slots| && l.slots[slot].Some?
  {
    var t := l.slots[slot].value;
    && CallsOf(r.called, t.id) == 0
    && SlotsOf(r.slots, t.id) + (if t.kind.Timeout? then multiset(r.cleared)[t.id] else 0) == 1
  }

  lemma EveryFate(start: Loop, r: Loop, slot: nat, seen: bool)
    requires Inv(start) && Inv(r) && KeepsNames(start, r) && slot < |start.slots| && start.slots[slot].Some?
    requires Fate(start.slots[slot].value, r, seen)
    ensures if seen then Answered(start, r, slot) else Untouched(start, r, slot)
  {
    var t := start.slots[slot].value;
    OldIds(start, slot);
    assert Places(r, t.id) == One(t.id < r.next) == 1;
    assert t.id in r.cleared <==> t.id in multiset(r.cleared);
    assert t.id in r.discarded <==> t.id in multiset(r.discarded);
  }

  /**
    Whatever the callbacks do: every event of a batch finds a task in its slot when the batch
    begins, and that task is called back once, however many events of the batch are for it,
    or was cleared as a timeout. The other tasks are not called, and no task is dropped that
    was there when the batch began.
   */
  lemma AnsweredOnce(states: seq<Loop>, steps: seq<Step>, i: nat, slot: nat)
    requires IsRun(states, steps) && i < |steps| && steps[i].Poll?
    ensures slot in Pending(steps[i].batch) ==> Answered(states[i], states[i + 1], slot)
    ensures slot < |states[i].slots| && states[i].slots[slot].Some? ==>
              && states[i].slots[slot].value.id !in states[i + 1].discarded
              && (slot !in Pending(steps[i].batch) ==> Untouched(states[i], states[i + 1], slot))
  {
    hide DeliverAll, Answered, Untouched, Inv, Gone, KeepsNames;
    var l, batch := states[i], steps[i].batch;
    RunKeepsInv(states, steps, i);
    RunKeepsInv(states, steps, i + 1);
    IndexNamesTask(states, steps, i, i);
    IndexNamesTask(states, steps, i, i + 1);
    PendingIsLive(l, batch, slot);
    if slot < |l.slots| && l.slots[slot].Some? {
      FateAtStart(l, slot);
      BatchKeepsFate(l, l, batch, slot, false);
      EveryFate(l, states[i + 1], slot, slot in Pending(batch));
    }
  }

  /** A socket task is called back exactly once for its events in a batch, and a socket with timeout for both. */
  lemma SocketCalledOnce(states: seq<Loop>, steps: seq<Step>, i: nat, slot: nat)
    requires IsRun(states, steps) && i < |steps| && steps[i].Poll? && slot in Pending(steps[i].batch)
    ensures slot < |states[i].slots| && states[i].slots[slot].Some?
    ensures var t := states[i].slots[slot].value;
            !t.kind.Timeout? ==> CallsOf(states[i].called, t.id) == 0 && CallsOf(states[i + 1].called, t.id) == 1
  {
    hide DeliverAll, Inv;
    AnsweredOnce(states, steps, i, slot);
    RunKeepsInv(states, steps, i);
    GoneIsNotLive(states[i], slot);
  }

  lemma PendingIsLive(l: Loop, batch: Batch, slot: nat)
    requires Matches(batch, l.slots)
    ensures slot in Pending(batch) ==> slot < |l.slots| && l.slots[slot].Some?
  {
    if slot in Pending(batch) {
      var k :| 0 <= k < |batch| && batch[k].0.slot == slot;
      SubscriptionsIff(l.slots, |l.slots|, slot, batch[k].0.etype);
    }
  }

  lemma FateAtStart(l: Loop, slot: nat)
    requires Inv(l) && slot < |l.slots| && l.slots[slot].Some?
    ensures Fate(l.slots[slot].value, l, false)
  {
    GoneIsNotLive(l, slot);
  }

  /**
    The catch-all arm is not taken and every event of the batch reaches only the task
    that subscribed, exactly when no event finds a task added during the batch. In any
    case every task with an event in the batch is answered.
   */
  lemma DeliveryExact(states: seq<Loop>, steps: seq<Step>, i: nat)
    requires IsRun(states, steps) && i < |steps| && steps[i].Poll?
    ensures WellDelivered(states[i], states[i], states[i + 1]) <==>
            NoneStale(states[i], steps[i].batch, states[i].next)
    ensures forall slot :: slot in Pending(steps[i].batch) ==> Answered(states[i], states[i + 1], slot)
  {
    hide DeliverAll, NoneStale, WellDelivered, Gone, Answered;
    RunKeepsInv(states, steps, i);
    assert KeepsNames(states[i], states[i]);
    BatchFrom(states[i], states[i], steps[i].batch);
    forall slot | slot in Pending(steps[i].batch)
      ensures Answered(states[i], states[i + 1], slot)
    {
      AnsweredOnce(states, steps, i, slot);
    }
  }

  // ---------- What the callbacks are told ----------

  /** The network event that a task of this kind waits for, if it has one. */
  predicate WaitsToAccept(kind: Kind) {
    kind == Socket(Accept) || kind == SocketTimeout(Accept)
  }

  predicate WaitsToRead(kind: Kind) {
    kind == Socket(Read) || kind == SocketTimeout(Read)
  }

  predicate WaitsToConnect(kind: Kind) {
    kind == Socket(Connect) || kind == SocketTimeout(Connect)
  }

  predicate HasTimeout(kind: Kind) {
    kind.Timeout? || kind.SocketTimeout?
  }

  /**
    A callback of this kind of task is told the right thing about the event: that time is
    over, what its own operation brought, or that it failed, each exactly when it is so.
   */
  ghost predicate ToldRight(kind: Kind, e: Event, result: PollResult) {
    && (result.TimedOut? <==> e.etype.Clock?) && (e.etype.Clock? ==> HasTimeout(kind))
    && (!e.etype.Clock? ==> WaitsToAccept(kind) || WaitsToRead(kind) || WaitsToConnect(kind))
    && (result.Accepted? ==> WaitsToAccept(kind)) && (result.ReadData? ==> WaitsToRead(kind))
    && (result.Connected? ==> WaitsToConnect(kind))
    && (!e.etype.Clock? ==>
          (result.Failed? <==>
           e.error || ((WaitsToAccept(kind) || WaitsToRead(kind)) && !e.done) || (WaitsToConnect(kind) && e.hangup)))
  }

  /** The live tasks have the kinds that they were added with, and every callback so far was told the right thing. */
  ghost predicate Honest(l: Loop) {
    && |l.kinds| == l.next
    && (forall i :: 0 <= i < |l.slots| && l.slots[i].Some? ==>
          l.slots[i].value.id < l.next && l.slots[i].value.kind == l.kinds[l.slots[i].value.id])
    && (forall k :: 0 <= k < |l.called| ==>
          l.called[k].id < l.next && ToldRight(l.kinds[l.called[k].id], l.called[k].event, l.called[k].result))
  }

  lemma OpKeepsHonest(l: Loop, op: Op)
    requires Honest(l)
    ensures Honest(RunOp(l, op))
  {
    hide ToldRight;
    if op.Add? {
      AddKeepsNames(l, op.kind);
    }
  }

  lemma {:induction false} OpsKeepHonest(l: Loop, ops: seq<Op>)
    requires Honest(l)
    ensures Honest(RunOps(l, ops))
    decreases |ops|
  {
    hide RunOp, Honest;
    if ops != [] {
      OpKeepsHonest(l, ops[0]);
      OpsKeepHonest(RunOp(l, ops[0]), ops[1..]);
    }
  }

  lemma OutcomeIsRight(kind: Kind, e: Event)
    ensures Outcome(kind, e).Some? ==> ToldRight(kind, e, Outcome(kind, e).value)
    ensures Outcome(kind, e).None? <==> (kind.Timeout? && !e.etype.Clock?) || (kind.Socket? && e.etype.Clock?)
  {
    if !kind.Timeout? {
      match kind.event
      case Accept => assert WaitsToAccept(kind);
      case Read => assert WaitsToRead(kind);
      case Connect => assert WaitsToConnect(kind);
    }
  }

  lemma DeliverKeepsHonest(l: Loop, e: Event, ops: seq<Op>)
    requires Honest(l)
    ensures Honest(Deliver(l, e, ops))
  {
    hide ToldRight, Outcome, RunOps;
    if e.slot < |l.slots| && l.slots[e.slot].Some? {
      var t := l.slots[e.slot].value;
      OutcomeIsRight(t.kind, e);
      if Outcome(t.kind, e).Some? {
        OpsKeepHonest(Watch(Take(l, e.slot).(called := l.called + [Delivery(t.id, e, Outcome(t.kind, e).value)])), ops);
      }
    }
  }

  lemma {:induction false} BatchKeepsHonest(l: Loop, batch: Batch)
    requires Honest(l)
    ensures Honest(DeliverAll(l, batch))
    decreases |batch|
  {
    hide Deliver, Honest;
    if batch != [] {
      DeliverKeepsHonest(l, batch[0].0, batch[0].1);
      BatchKeepsHonest(Deliver(l, batch[0].0, batch[0].1), batch[1..]);
    }
  }

  lemma TickKeepsHonest(l: Loop, ops: seq<Op>)
    requires Honest(l) && l.queue != []
    ensures Honest(RunTick(l, ops))
  {
    hide RunOps;
    OpsKeepHonest(l.(queue := l.queue[1..], ran := l.ran + [l.queue[0]]), ops);
  }

  /** In every state of every run, against the kinds with which the tasks were added. */
  lemma {:induction false} CallbacksToldRight(states: seq<Loop>, steps: seq<Step>, i: nat)
    requires IsRun(states, steps) && i < |states|
    ensures Honest(states[i])
  {
    hide RunOp, DeliverAll, RunTick;
    if i > 0 {
      CallbacksToldRight(states, steps, i - 1);
      hide Honest;
      match steps[i - 1] {
        case Call(op) => OpKeepsHonest(states[i - 1], op);
        case Poll(batch) => BatchKeepsHonest(states[i - 1], batch);
        case Tick(ops) => TickKeepsHonest(states[i - 1], ops);
      }
    }
  }

  /** What a live task is subscribed to: a connect to writing, an accept or a read to reading, a timeout to the clock. */
  lemma WhatTasksWaitFor(slots: Slots, slot: nat)
    ensures Subscription(slot, Clock) in Subscriptions(slots, |slots|) <==>
            slot < |slots| && slots[slot].Some? && HasTimeout(slots[slot].value.kind)
    ensures Subscription(slot, FdWrite) in Subscriptions(slots, |slots|) <==>
            slot < |slots| && slots[slot].Some? && WaitsToConnect(slots[slot].value.kind)
    ensures Subscription(slot, FdRead) in Subscriptions(slots, |slots|) <==>
            slot < |slots| && slots[slot].Some? && (WaitsToAccept(slots[slot].value.kind) || WaitsToRead(slots[slot].value.kind))
  {
    SubscriptionsIff(slots, |slots|, slot, Clock);
    SubscriptionsIff(slots, |slots|, slot, FdWrite);
    SubscriptionsIff(slots, |slots|, slot, FdRead);
  }

  // ---------- The first event for a task decides ----------

  lemma {:induction false} DeliverAllSplit(l: Loop, a: Batch, b: Batch)
    ensures DeliverAll(l, a + b) == DeliverAll(DeliverAll(l, a), b)
    decreases |a|
  {
    hide Deliver;
    if a == [] {
      assert a + b == b;
    } else {
      assert (a + b)[1..] == a[1..] + b;
      DeliverAllSplit(Deliver(l, a[0].0, a[0].1), a[1..], b);
    }
  }

  lemma {:induction false} OpsExtendCleared(l: Loop, ops: seq<Op>)
    ensures l.cleared <= RunOps(l, ops).cleared
    decreases |ops|
  {
    if ops != [] {
      assert l.cleared <= RunOp(l, ops[0]).cleared;
      OpsExtendCleared(RunOp(l, ops[0]), ops[1..]);
    }
  }

  lemma {:induction false} BatchExtendsCleared(l: Loop, batch: Batch)
    ensures l.cleared <= DeliverAll(l, batch).cleared
    decreases |batch|
  {
    hide Outcome, RunOps;
    if batch != [] {
      var (e, ops) := batch[0];
      if e.slot < |l.slots| && l.slots[e.slot].Some? && Outcome(l.slots[e.slot].value.kind, e).Some? {
        var t := l.slots[e.slot].value;
        OpsExtendCleared(Watch(Take(l, e.slot).(called := l.called + [Delivery(t.id, e, Outcome(t.kind, e).value)])), ops);
      }
      BatchExtendsCleared(Deliver(l, e, ops), batch[1..]);
    }
  }

  /** The task was called back for this event. */
  ghost predicate CalledFor(l: Loop, id: nat, e: Event) {
    exists k :: 0 <= k < |l.called| && l.called[k].id == id && l.called[k].event == e
  }

  lemma FirstTurn(start: Loop, l: Loop, e: Event, ops: seq<Op>)
    requires Inv(start) && KeepsNames(start, l) && e.slot < |start.slots| && start.slots[e.slot].Some?
    requires Subscription(e.slot, e.etype) in Subscriptions(start.slots, |start.slots|)
    requires Fate(start.slots[e.slot].value, l, false)
    ensures var id := start.slots[e.slot].value.id;
            id in l.cleared || CalledFor(Deliver(l, e, ops), id, e)
  {
    hide Inv, Deliver;
    SubscriptionsIff(start.slots, |start.slots|, e.slot, e.etype);
    var t := start.slots[e.slot].value;
    DeliverAdds(l, e, ops);
    OutcomeIsRight(t.kind, e);
    if t.id !in l.cleared {
      assert l.slots[e.slot] == start.slots[e.slot];
      assert Deliver(l, e, ops).called[|l.called|].id == t.id;
    }
  }

  /**
    In every run and for every poll: of the events for one task the first in the batch is the
    one that its callback is told of, unless the task is a timeout that was cleared before.
   */
  lemma FirstEventDecides(states: seq<Loop>, steps: seq<Step>, i: nat, k: nat)
    requires IsRun(states, steps) && i < |steps| && steps[i].Poll? && k < |steps[i].batch|
    requires forall j :: 0 <= j < k ==> steps[i].batch[j].0.slot != steps[i].batch[k].0.slot
    ensures var e := steps[i].batch[k].0;
            && e.slot < |states[i].slots| && states[i].slots[e.slot].Some?
            && var t := states[i].slots[e.slot].value;
               CalledFor(states[i + 1], t.id, e) || (t.kind.Timeout? && t.id in states[i + 1].cleared)
  {
    hide DeliverAll, Inv, Gone, KeepsNames, Fate, CalledFor;
    var l, batch := states[i], steps[i].batch;
    var before, e, ops, after := batch[..k], batch[k].0, batch[k].1, batch[k + 1..];
    assert batch == before + ([batch[k]] + after);
    RunKeepsInv(states, steps, i);
    RunKeepsInv(states, steps, i + 1);
    assert e.slot in Pending(batch);
    PendingIsLive(l, batch, e.slot);
    IndexNamesTask(states, steps, i, i);
    FateAtStart(l, e.slot);
    BatchKeepsFate(l, l, before, e.slot, false);
    var m := DeliverAll(l, before);
    BatchKeepsNames(l, before);
    FirstTurn(l, m, e, ops);
    DeliverAllSplit(l, before, [batch[k]] + after);
    FirstOfRest(m, batch[k], after);
    BatchExtendsCleared(m, [batch[k]] + after);
    BatchExtends(Deliver(m, e, ops), after);
    KeepsCalledFor(Deliver(m, e, ops), states[i + 1], l.slots[e.slot].value.id, e);
    FateKnown(l.slots[e.slot].value, m, false);
  }

  lemma FateKnown(t: Task, l: Loop, seen: bool)
    requires Fate(t, l, seen)
    ensures t.id in l.cleared ==> t.kind.Timeout?
  {
  }

  lemma FirstOfRest(l: Loop, first: (Event, seq<Op>), rest: Batch)
    ensures DeliverAll(l, [first] + rest) == DeliverAll(Deliver(l, first.0, first.1), rest)
  {
    hide Deliver;
    assert ([first] + rest)[1..] == rest;
  }

  lemma KeepsCalledFor(l: Loop, r: Loop, id: nat, e: Event)
    requires l.called <= r.called
    ensures CalledFor(l, id, e) ==> CalledFor(r, id, e)
  {
    if CalledFor(l, id, e) {
      var k :| 0 <= k < |l.called| && l.called[k].id == id && l.called[k].event == e;
      assert r.called[k] == l.called[k];
    }
  }

  // ---------- A condition on what the callbacks add ----------

  /** While `pending` slots still have events to come, no operation adds into one of them. */
  predicate OpsAvoid(l: Loop, ops: seq<Op>, pending: set<nat>)
    decreases |ops|
  {
    ops == [] ||
    ((ops[0].Add? ==> FirstFree(l.slots) !in pending) && OpsAvoid(RunOp(l, ops[0]), ops[1..], pending))
  }

  /** The loop after the event at hand took its task, before the callback does anything. */
  function Called(l: Loop, e: Event): Loop {
    Deliver(l, e, [])
  }

  /** No slot is refilled while the batch still holds an event for it. */
  predicate NoRefill(l: Loop, batch: Batch)
    decreases |batch|
  {
    batch == [] ||
    (OpsAvoid(Called(l, batch[0].0), batch[0].1, Pending(batch[1..])) &&
     NoRefill(Deliver(l, batch[0].0, batch[0].1), batch[1..]))
  }

  ghost predicate Clean(l: Loop, pending: set<nat>, mark: nat) {
    forall i :: 0 <= i < |l.slots| && i in pending && l.slots[i].Some? ==> l.slots[i].value.id < mark
  }

  lemma {:induction false} OpsKeepClean(l: Loop, ops: seq<Op>, pending: set<nat>, mark: nat)
    requires Clean(l, pending, mark) && OpsAvoid(l, ops, pending)
    ensures Clean(RunOps(l, ops), pending, mark)
    decreases |ops|
  {
    if ops != [] {
      var r := RunOp(l, ops[0]);
      if ops[0].Add? {
        AddKeepsNames(l, ops[0].kind);
        var n := FirstFree(l.slots);
        assert forall i :: 0 <= i < |r.slots| && i != n ==> i < |l.slots| && r.slots[i] == l.slots[i];
      }
      OpsKeepClean(r, ops[1..], pending, mark);
    }
  }

  lemma DeliverKeepsClean(l: Loop, e: Event, ops: seq<Op>, pending: set<nat>, mark: nat)
    requires Clean(l, pending, mark) && OpsAvoid(Called(l, e), ops, pending)
    ensures Clean(Deliver(l, e, ops), pending, mark)
  {
    if e.slot < |l.slots| && l.slots[e.slot].Some? && Outcome(l.slots[e.slot].value.kind, e).Some? {
      assert Clean(Called(l, e), pending, mark);
      OpsKeepClean(Called(l, e), ops, pending, mark);
    }
  }

  lemma {:induction false} NoRefillNoStale(l: Loop, batch: Batch, mark: nat)
    requires Clean(l, Pending(batch), mark) && NoRefill(l, batch)
    ensures NoneStale(l, batch, mark)
    decreases |batch|
  {
    hide Deliver, Called, OpsAvoid;
    if batch != [] {
      var e, ops, rest := batch[0].0, batch[0].1, batch[1..];
      assert e.slot in Pending(batch);
      assert Pending(rest) <= Pending(batch) by {
        forall n | n in Pending(rest)
          ensures n in Pending(batch)
        {
          var i :| 0 <= i < |rest| && rest[i].0.slot == n;
          assert batch[i + 1] == rest[i];
        }
      }
      DeliverKeepsClean(l, e, ops, Pending(rest), mark);
      NoRefillNoStale(Deliver(l, e, ops), rest, mark);
    }
  }

  /**
    If no slot freed in the batch is refilled while the batch still holds an event
    for it, nothing is dropped, each event reaches only the task that subscribed, and
    that task is called back once: a socket task exactly once for both its events.
   */
  lemma DeliveredIfNotRefilled(states: seq<Loop>, steps: seq<Step>, i: nat)
    requires IsRun(states, steps) && i < |steps| && steps[i].Poll?
    requires NoRefill(states[i], steps[i].batch)
    ensures WellDelivered(states[i], states[i], states[i + 1])
    ensures forall slot :: slot in Pending(steps[i].batch) ==> Answered(states[i], states[i + 1], slot)
  {
    hide DeliverAll, NoneStale, WellDelivered, NoRefill, Answered;
    RunKeepsInv(states, steps, i);
    var l := states[i];
    forall j | 0 <= j < |l.slots| && l.slots[j].Some?
      ensures l.slots[j].value.id < l.next
    {
      OldIds(l, j);
    }
    NoRefillNoStale(l, steps[i].batch, l.next);
    DeliveryExact(states, steps, i);
  }

  // ---------- What happens without the condition ----------

  /** A reader with a timeout whose callback reads again, while its timeout is in the same batch. */
  const READ_AGAIN: Batch :=
    [(Event(0, FdRead, false, false, true), [Add(Socket(Read))]), (Event(0, Clock, false, false, true), [])]

  /** After the first event the new reader is in the old reader's slot. */
  lemma ReaderReusesSlot()
    ensures var l, (e, ops) := AddTask(EMPTY, SocketTimeout(Read)), READ_AGAIN[0];
            && Enabled(l, Poll(READ_AGAIN))
            && FirstFree(Called(l, e).slots) == 0
            && Deliver(l, e, ops).slots == [Some(Task(1, Socket(Read)))] && Deliver(l, e, ops).discarded == []
  {
    var t0 := Task(0, SocketTimeout(Read));
    var l := AddTask(EMPTY, SocketTimeout(Read));
    var (e, ops) := READ_AGAIN[0];
    assert l.slots == [Some(t0)] && l.next == 1;
    assert Subscriptions(l.slots, 1) == [Subscription(0, FdRead), Subscription(0, Clock)] by {
      assert Subscriptions(l.slots, 0) == [];
    }
    var freed := Called(l, e);
    assert [Some(t0)][0 := None] == [None];
    assert freed.slots == [None] && freed.next == 1;
    assert ops[1..] == [];
  }

  /** Then the old timeout, still in the batch, drops the new reader: it is never called. */
  lemma StaleEventDropsTask()
    ensures var l := AddTask(EMPTY, SocketTimeout(Read));
            && Enabled(l, Poll(READ_AGAIN))
            && !NoRefill(l, READ_AGAIN)
            && DeliverAll(l, READ_AGAIN).discarded == [1]
            && Live(DeliverAll(l, READ_AGAIN).slots) == 0
  {
    hide AddTask;
    ReaderReusesSlot();
    var l := AddTask(EMPTY, SocketTimeout(Read));
    assert READ_AGAIN[1..] == [READ_AGAIN[1]] && READ_AGAIN[1..][1..] == [];
    assert 0 in Pending(READ_AGAIN[1..]) by { assert READ_AGAIN[1..][0].0.slot == 0; }
    var l1 := Deliver(l, READ_AGAIN[0].0, READ_AGAIN[0].1);
    var l2 := Deliver(l1, READ_AGAIN[1].0, READ_AGAIN[1].1);
    assert l2.slots == [None] && l2.discarded == [1];
    assert DeliverAll(l, READ_AGAIN) == DeliverAll(l1, READ_AGAIN[1..]) == DeliverAll(l2, []) == l2;
  }
}
