/**
  The conditions of a ComputeNode: `GetConditionFromPods` counts what the pods
  report, `updateComputeNodeStatusCondition` merges the report into the conditions
  kept so far.
 */
module ComputeNode {

  datatype CondType = Pending | Deployed | Initialized | Started | Ready | Unknown | Failed | Succeed

  datatype CondStatus = True | False | Undecided

  datatype Condition = Condition(ctype: CondType, status: CondStatus, reason: string)

  datatype PodPhase = PodPending | PodRunning | PodSucceeded | PodFailed | PodUnknown

  datatype PodCondType = PodScheduled | PodInitialized | ContainersReady | PodReady | OtherType

  datatype PodCondition = PodCondition(ctype: PodCondType, holds: bool)

  datatype Pod = Pod(phase: PodPhase, conditions: seq<PodCondition>)

  // ---------- One pod ----------

  function TypeOf(t: PodCondType): seq<CondType> {
    match t
    case PodScheduled => [Deployed]
    case PodInitialized => [Initialized]
    case ContainersReady => [Started]
    case PodReady => [Ready]
    case OtherType => []
  }

  /** The condition types of the pod conditions that hold. */
  function FromConditions(pcs: seq<PodCondition>): seq<CondType> {
    if pcs == [] then []
    else FromConditions(pcs[..|pcs| - 1]) + (if pcs[|pcs| - 1].holds then TypeOf(pcs[|pcs| - 1].ctype) else [])
  }

  function FromPod(pod: Pod): seq<CondType> {
    var types := FromConditions(pod.conditions);
    if pod.phase.PodUnknown? then [Unknown]
    else if pod.phase.PodPending? || (pod.phase.PodRunning? && |types| == 4) then [Pending] + types
    else if pod.phase.PodFailed? then [Failed]
    else types
  }

  method ConditionsOfPodConditions(pcs: seq<PodCondition>) returns (types: seq<CondType>)
    ensures types == FromConditions(pcs)
  {
    types := [];
    for i := 0 to |pcs|
      invariant types == FromConditions(pcs[..i])
    {
      assert pcs[..i + 1][..i] == pcs[..i];
      if !pcs[i].holds {
        continue;
      }
      if pcs[i].ctype.PodScheduled? {
        types := types + [Deployed];
      }
      if pcs[i].ctype.PodInitialized? {
        types := types + [Initialized];
      }
      if pcs[i].ctype.ContainersReady? {
        types := types + [Started];
      }
      if pcs[i].ctype.PodReady? {
        types := types + [Ready];
      }
    }
    assert pcs[..|pcs|] == pcs;
  }

  method ConditionsOfPod(pod: Pod) returns (types: seq<CondType>)
    ensures types == FromPod(pod)
  {
    if pod.phase.PodUnknown? {
      return [Unknown];
    }
    var podConditions := ConditionsOfPodConditions(pod.conditions);
    if pod.phase.PodPending? || (pod.phase.PodRunning? && |podConditions| == 4) {
      return [Pending] + podConditions;
    }
    if pod.phase.PodFailed? {
      return [Failed];
    }
    types := podConditions;
  }

  // ---------- All pods ----------

  /** How often the first `n` pods report `t`. */
  function Count(pods: seq<Pod>, t: CondType, n: nat): nat
    requires n <= |pods|
  {
    if n == 0 then 0 else Count(pods, t, n - 1) + multiset(FromPod(pods[n - 1]))[t]
  }

  function Held(t: CondType, reason: string): Condition {
    Condition(t, True, reason)
  }

  function If(b: bool, c: Condition): seq<Condition> {
    if b then [c] else []
  }

  /** What `n` pods say together, from how often they report each type. */
  function Summary(n: nat, unknown: nat, ready: nat, started: nat, initialized: nat, deployed: nat, pending: nat, failed: nat): seq<Condition> {
    If(unknown == n, Held(Unknown, "PodUnknown")) +
    If(ready > 0, Held(Ready, "PodReady")) +
    If(started > 0, Held(Started, "PodStarted")) +
    If(initialized > 0, Held(Initialized, "PodInitialized")) +
    If(deployed > 0, Held(Deployed, "PodDeployed")) +
    If(pending > 0, Held(Pending, "PodPending")) +
    If(failed > 0, Held(Failed, "PodFailed"))
  }

  function Report(pods: seq<Pod>): seq<Condition> {
    var n := |pods|;
    if n == 0 then [Held(Unknown, "PodNotFound")]
    else
      Summary(n, Count(pods, Unknown, n), Count(pods, Ready, n), Count(pods, Started, n), Count(pods, Initialized, n),
              Count(pods, Deployed, n), Count(pods, Pending, n), Count(pods, Failed, n))
  }

  function Get(m: map<CondType, nat>, t: CondType): nat {
    if t in m then m[t] else 0
  }

  method GetConditionFromPods(pods: seq<Pod>) returns (conds: seq<Condition>)
    ensures conds == Report(pods)
  {
    hide Count, Summary;
    if |pods| == 0 {
      return [Held(Unknown, "PodNotFound")];
    }
    var result: map<CondType, nat> := map[];
    assert forall t :: Get(result, t) == Count(pods, t, 0) by { CountNone(pods); }
    for i := 0 to |pods|
      invariant forall t :: Get(result, t) == Count(pods, t, i)
    {
      CountOneMore(pods, i);
      result := Tally(result, pods[i]);
    }
    conds := Summarize(|pods|, Get(result, Unknown), Get(result, Ready), Get(result, Started), Get(result, Initialized),
                       Get(result, Deployed), Get(result, Pending), Get(result, Failed));
  }

  lemma CountNone(pods: seq<Pod>)
    ensures forall t :: Count(pods, t, 0) == 0
  {
  }

  lemma CountOneMore(pods: seq<Pod>, i: nat)
    requires i < |pods|
    ensures forall t :: Count(pods, t, i + 1) == Count(pods, t, i) + multiset(FromPod(pods[i]))[t]
  {
    hide FromPod;
  }

  method Summarize(n: nat, unknown: nat, ready: nat, started: nat, initialized: nat, deployed: nat, pending: nat, failed: nat)
      returns (conds: seq<Condition>)
    ensures conds == Summary(n, unknown, ready, started, initialized, deployed, pending, failed)
  {
    hide If;
    conds := If(unknown == n, Held(Unknown, "PodUnknown"));
    conds := conds + If(ready > 0, Held(Ready, "PodReady"));
    conds := conds + If(started > 0, Held(Started, "PodStarted"));
    conds := conds + If(initialized > 0, Held(Initialized, "PodInitialized"));
    conds := conds + If(deployed > 0, Held(Deployed, "PodDeployed"));
    conds := conds + If(pending > 0, Held(Pending, "PodPending"));
    conds := conds + If(failed > 0, Held(Failed, "PodFailed"));
  }

  lemma OneMoreType(types: seq<CondType>, i: nat)
    requires i < |types|
    ensures forall t :: multiset(types[..i + 1])[t] == multiset(types[..i])[t] + if t == types[i] then 1 else 0
  {
    assert types[..i + 1] == types[..i] + [types[i]];
  }

  /** The inner loop: one more for every type the pod reports. */
  method Tally(counts: map<CondType, nat>, pod: Pod) returns (result: map<CondType, nat>)
    ensures forall t :: Get(result, t) == Get(counts, t) + multiset(FromPod(pod))[t]
  {
    hide FromPod;
    var pcs := ConditionsOfPod(pod);
    result := counts;
    for idx := 0 to |pcs|
      invariant forall t :: Get(result, t) == Get(counts, t) + multiset(pcs[..idx])[t]
    {
      OneMoreType(pcs, idx);
      result := result[pcs[idx] := Get(result, pcs[idx]) + 1];
    }
    assert pcs[..|pcs|] == pcs;
  }

  // ---------- What is reported ----------

  /** A type is among the conditions. */
  predicate Has(conditions: seq<Condition>, t: CondType) {
    exists i :: 0 <= i < |conditions| && conditions[i].ctype == t
  }

  /** A pod condition of that type holds. */
  predicate SomeHolds(pcs: seq<PodCondition>, t: PodCondType) {
    exists i :: 0 <= i < |pcs| && pcs[i].ctype == t && pcs[i].holds
  }

  /** How many conditions of the four types hold. */
  function Holding(pcs: seq<PodCondition>): nat {
    if pcs == [] then 0
    else Holding(pcs[..|pcs| - 1]) + (if pcs[|pcs| - 1].holds && !pcs[|pcs| - 1].ctype.OtherType? then 1 else 0)
  }

  lemma SomeHoldsSplit(pcs: seq<PodCondition>, t: PodCondType)
    requires pcs != []
    ensures SomeHolds(pcs, t) <==> SomeHolds(pcs[..|pcs| - 1], t) || (pcs[|pcs| - 1].ctype == t && pcs[|pcs| - 1].holds)
  {
    var before := pcs[..|pcs| - 1];
    if SomeHolds(before, t) {
      var i :| 0 <= i < |before| && before[i].ctype == t && before[i].holds;
      assert pcs[i] == before[i];
    }
    if SomeHolds(pcs, t) {
      var i :| 0 <= i < |pcs| && pcs[i].ctype == t && pcs[i].holds;
      assert i < |before| ==> before[i] == pcs[i];
    }
  }

  lemma {:induction false} TypesOfConditions(pcs: seq<PodCondition>)
    ensures Deployed in FromConditions(pcs) <==> SomeHolds(pcs, PodScheduled)
    ensures Initialized in FromConditions(pcs) <==> SomeHolds(pcs, PodInitialized)
    ensures Started in FromConditions(pcs) <==> SomeHolds(pcs, ContainersReady)
    ensures Ready in FromConditions(pcs) <==> SomeHolds(pcs, PodReady)
    ensures Unknown !in FromConditions(pcs) && Pending !in FromConditions(pcs) && Failed !in FromConditions(pcs)
    ensures |FromConditions(pcs)| == Holding(pcs)
    decreases |pcs|
  {
    hide SomeHolds;
    if pcs == [] {
      NoneHolds();
    } else {
      TypesOfConditions(pcs[..|pcs| - 1]);
      SomeHoldsSplit(pcs, PodScheduled);
      SomeHoldsSplit(pcs, PodInitialized);
      SomeHoldsSplit(pcs, ContainersReady);
      SomeHoldsSplit(pcs, PodReady);
    }
  }

  lemma NoneHolds()
    ensures forall t :: !SomeHolds([], t)
  {
  }

  /** The pod is looked at condition by condition. */
  predicate Examined(pod: Pod) {
    !pod.phase.PodUnknown? && !pod.phase.PodFailed?
  }

  predicate CountsAsPending(pod: Pod) {
    pod.phase.PodPending? || (pod.phase.PodRunning? && Holding(pod.conditions) == 4)
  }

  /** Exactly what one pod reports. */
  predicate Says(pod: Pod, t: CondType) {
    match t
    case Unknown => pod.phase.PodUnknown?
    case Failed => pod.phase.PodFailed?
    case Pending => CountsAsPending(pod)
    case Deployed => Examined(pod) && SomeHolds(pod.conditions, PodScheduled)
    case Initialized => Examined(pod) && SomeHolds(pod.conditions, PodInitialized)
    case Started => Examined(pod) && SomeHolds(pod.conditions, ContainersReady)
    case Ready => Examined(pod) && SomeHolds(pod.conditions, PodReady)
    case Succeed => false
  }

  lemma PodSays(pod: Pod, t: CondType)
    requires !t.Succeed?
    ensures t in FromPod(pod) <==> Says(pod, t)
  {
    hide SomeHolds, Holding, FromConditions;
    TypesOfConditions(pod.conditions);
  }

  lemma {:induction false} Counted(pods: seq<Pod>, t: CondType, n: nat)
    requires n <= |pods| && !t.Succeed?
    ensures Count(pods, t, n) > 0 <==> exists i :: 0 <= i < n && Says(pods[i], t)
  {
    hide FromPod, Says;
    if n > 0 {
      Counted(pods, t, n - 1);
      PodSays(pods[n - 1], t);
    }
  }

  lemma {:induction false} CountedUnknown(pods: seq<Pod>, n: nat)
    requires n <= |pods|
    ensures Count(pods, Unknown, n) <= n
    ensures Count(pods, Unknown, n) == n <==> forall i :: 0 <= i < n ==> pods[i].phase.PodUnknown?
  {
    hide FromPod;
    if n > 0 {
      CountedUnknown(pods, n - 1);
      UnknownPod(pods[n - 1]);
    }
  }

  lemma HasConcat(a: seq<Condition>, b: bool, c: Condition, t: CondType)
    ensures Has(a + If(b, c), t) <==> Has(a, t) || (b && c.ctype == t)
  {
    var r := a + If(b, c);
    if Has(a, t) {
      var i :| 0 <= i < |a| && a[i].ctype == t;
      assert r[i] == a[i];
    }
    if b {
      assert r[|a|] == c;
    }
  }

  lemma SummaryHas(n: nat, unknown: nat, ready: nat, started: nat, initialized: nat, deployed: nat, pending: nat, failed: nat, t: CondType)
    ensures Has(Summary(n, unknown, ready, started, initialized, deployed, pending, failed), t) <==>
            match t
            case Unknown => unknown == n
            case Ready => ready > 0
            case Started => started > 0
            case Initialized => initialized > 0
            case Deployed => deployed > 0
            case Pending => pending > 0
            case Failed => failed > 0
            case Succeed => false
  {
    hide Has, If;
    var c0 := If(unknown == n, Held(Unknown, "PodUnknown"));
    var c1 := c0 + If(ready > 0, Held(Ready, "PodReady"));
    var c2 := c1 + If(started > 0, Held(Started, "PodStarted"));
    var c3 := c2 + If(initialized > 0, Held(Initialized, "PodInitialized"));
    var c4 := c3 + If(deployed > 0, Held(Deployed, "PodDeployed"));
    var c5 := c4 + If(pending > 0, Held(Pending, "PodPending"));
    assert [] + c0 == c0;
    HasConcat([], unknown == n, Held(Unknown, "PodUnknown"), t);
    HasConcat(c0, ready > 0, Held(Ready, "PodReady"), t);
    HasConcat(c1, started > 0, Held(Started, "PodStarted"), t);
    HasConcat(c2, initialized > 0, Held(Initialized, "PodInitialized"), t);
    HasConcat(c3, deployed > 0, Held(Deployed, "PodDeployed"), t);
    HasConcat(c4, pending > 0, Held(Pending, "PodPending"), t);
    HasConcat(c5, failed > 0, Held(Failed, "PodFailed"), t);
    assert !Has([], t) by { EmptyHasNothing([], t); }
  }

  lemma EmptyHasNothing(cs: seq<Condition>, t: CondType)
    ensures cs == [] ==> !Has(cs, t)
  {
  }

  /** Exactly which types are reported: Unknown if every pod says so, any other if some pod does. */
  lemma ReportSays(pods: seq<Pod>, t: CondType)
    requires pods != []
    ensures Has(Report(pods), t) <==>
            if t.Unknown? then forall i :: 0 <= i < |pods| ==> pods[i].phase.PodUnknown?
            else exists i :: 0 <= i < |pods| && Says(pods[i], t)
  {
    hide Count, Summary, Has, Says;
    var n := |pods|;
    SummaryHas(n, Count(pods, Unknown, n), Count(pods, Ready, n), Count(pods, Started, n), Count(pods, Initialized, n),
               Count(pods, Deployed, n), Count(pods, Pending, n), Count(pods, Failed, n), t);
    if t.Unknown? {
      CountedUnknown(pods, n);
    } else if !t.Succeed? {
      Counted(pods, t, n);
    } else {
      NobodySucceeds();
    }
  }

  lemma NobodySucceeds()
    ensures forall pod :: !Says(pod, Succeed)
  {
  }

  /** The reason that comes with each type. */
  function ReasonOf(t: CondType): string {
    match t
    case Unknown => "PodUnknown"
    case Ready => "PodReady"
    case Started => "PodStarted"
    case Initialized => "PodInitialized"
    case Deployed => "PodDeployed"
    case Pending => "PodPending"
    case Failed => "PodFailed"
    case Succeed => ""
  }

  ghost predicate Explained(cs: seq<Condition>) {
    forall i :: 0 <= i < |cs| ==> cs[i].status == True && cs[i].reason == ReasonOf(cs[i].ctype)
  }

  lemma ExplainedAppend(cs: seq<Condition>, b: bool, c: Condition)
    requires Explained(cs) && c == Condition(c.ctype, True, ReasonOf(c.ctype))
    ensures Explained(cs + If(b, c))
  {
    hide ReasonOf;
  }

  lemma NothingExplained()
    ensures Explained([])
  {
  }

  lemma SummaryExplained(n: nat, unknown: nat, ready: nat, started: nat, initialized: nat, deployed: nat, pending: nat, failed: nat)
    ensures Explained(Summary(n, unknown, ready, started, initialized, deployed, pending, failed))
  {
    hide Explained, If;
    NothingExplained();
    var c0 := [] + If(unknown == n, Held(Unknown, "PodUnknown"));
    ExplainedAppend([], unknown == n, Held(Unknown, "PodUnknown"));
    assert c0 == If(unknown == n, Held(Unknown, "PodUnknown"));
    var c1 := c0 + If(ready > 0, Held(Ready, "PodReady"));
    var c2 := c1 + If(started > 0, Held(Started, "PodStarted"));
    var c3 := c2 + If(initialized > 0, Held(Initialized, "PodInitialized"));
    var c4 := c3 + If(deployed > 0, Held(Deployed, "PodDeployed"));
    var c5 := c4 + If(pending > 0, Held(Pending, "PodPending"));
    ExplainedAppend(c0, ready > 0, Held(Ready, "PodReady"));
    ExplainedAppend(c1, started > 0, Held(Started, "PodStarted"));
    ExplainedAppend(c2, initialized > 0, Held(Initialized, "PodInitialized"));
    ExplainedAppend(c3, deployed > 0, Held(Deployed, "PodDeployed"));
    ExplainedAppend(c4, pending > 0, Held(Pending, "PodPending"));
    ExplainedAppend(c5, failed > 0, Held(Failed, "PodFailed"));
  }

  /** A report holds conditions that are True, each with the reason of its type; without pods it is that none was found. */
  lemma ReasonsAre(pods: seq<Pod>)
    ensures if pods == [] then Report(pods) == [Condition(Unknown, True, "PodNotFound")] else Explained(Report(pods))
  {
    hide Count, Summary, Explained;
    var n := |pods|;
    if n > 0 {
      SummaryExplained(n, Count(pods, Unknown, n), Count(pods, Ready, n), Count(pods, Started, n), Count(pods, Initialized, n),
                       Count(pods, Deployed, n), Count(pods, Pending, n), Count(pods, Failed, n));
    }
  }

  // ---------- Unknown is reported alone ----------

  lemma UnknownPod(pod: Pod)
    ensures multiset(FromPod(pod))[Unknown] == if pod.phase.PodUnknown? then 1 else 0
    ensures pod.phase.PodUnknown? ==> FromPod(pod) == [Unknown]
  {
    TypesOfConditions(pod.conditions);
  }

  lemma {:induction false} AllUnknown(pods: seq<Pod>, n: nat, t: CondType)
    requires n <= |pods|
    ensures Count(pods, Unknown, n) <= n
    ensures Count(pods, Unknown, n) == n && t != Unknown ==> Count(pods, t, n) == 0
  {
    hide FromPod;
    if n > 0 {
      AllUnknown(pods, n - 1, t);
      UnknownPod(pods[n - 1]);
      assert t != Unknown ==> multiset([Unknown])[t] == 0;
    }
  }

  /** A report holds each type at most once, always True, and Unknown only on its own. */
  ghost predicate WellReported(conds: seq<Condition>) {
    && (forall i :: 0 <= i < |conds| ==> conds[i].status == True)
    && (forall i, j :: 0 <= i < j < |conds| ==> conds[i].ctype != conds[j].ctype)
    && (forall i :: 0 <= i < |conds| && conds[i].ctype.Unknown? ==> |conds| == 1)
  }

  /** The order in which the types are reported. */
  function Rank(t: CondType): nat {
    match t
    case Unknown => 0
    case Ready => 1
    case Started => 2
    case Initialized => 3
    case Deployed => 4
    case Pending => 5
    case Failed => 6
    case Succeed => 7
  }

  ghost predicate Ordered(conds: seq<Condition>, k: nat) {
    && (forall i :: 0 <= i < |conds| ==> conds[i].status == True && 0 < Rank(conds[i].ctype) < k)
    && (forall i, j :: 0 <= i < j < |conds| ==> Rank(conds[i].ctype) < Rank(conds[j].ctype))
  }

  lemma OrderedAppend(conds: seq<Condition>, b: bool, c: Condition)
    requires Ordered(conds, Rank(c.ctype)) && c.status == True && Rank(c.ctype) > 0
    ensures Ordered(conds + If(b, c), Rank(c.ctype) + 1)
  {
    hide Rank;
  }

  lemma SummaryOrdered(n: nat, unknown: nat, ready: nat, started: nat, initialized: nat, deployed: nat, pending: nat, failed: nat)
    requires unknown != n
    ensures Ordered(Summary(n, unknown, ready, started, initialized, deployed, pending, failed), 7)
  {
    hide Ordered, If;
    var c0 := If(false, Held(Unknown, "PodUnknown"));
    var c1 := c0 + If(ready > 0, Held(Ready, "PodReady"));
    var c2 := c1 + If(started > 0, Held(Started, "PodStarted"));
    var c3 := c2 + If(initialized > 0, Held(Initialized, "PodInitialized"));
    var c4 := c3 + If(deployed > 0, Held(Deployed, "PodDeployed"));
    var c5 := c4 + If(pending > 0, Held(Pending, "PodPending"));
    assert Ordered(c0, 1) by { NoneOrdered(); }
    OrderedAppend(c0, ready > 0, Held(Ready, "PodReady"));
    OrderedAppend(c1, started > 0, Held(Started, "PodStarted"));
    OrderedAppend(c2, initialized > 0, Held(Initialized, "PodInitialized"));
    OrderedAppend(c3, deployed > 0, Held(Deployed, "PodDeployed"));
    OrderedAppend(c4, pending > 0, Held(Pending, "PodPending"));
    OrderedAppend(c5, failed > 0, Held(Failed, "PodFailed"));
  }

  lemma NoneOrdered()
    ensures Ordered(If(false, Held(Unknown, "PodUnknown")), 1)
  {
  }

  lemma OrderedIsWellReported(conds: seq<Condition>)
    requires Ordered(conds, 7)
    ensures WellReported(conds)
  {
  }

  lemma UnknownReportedAlone(pods: seq<Pod>)
    ensures WellReported(Report(pods))
  {
    hide Count, Ordered;
    var n := |pods|;
    if n > 0 {
      AllUnknown(pods, n, Ready);
      AllUnknown(pods, n, Started);
      AllUnknown(pods, n, Initialized);
      AllUnknown(pods, n, Deployed);
      AllUnknown(pods, n, Pending);
      AllUnknown(pods, n, Failed);
      if Count(pods, Unknown, n) == n {
        assert Report(pods) == [Held(Unknown, "PodUnknown")];
      } else {
        SummaryOrdered(n, Count(pods, Unknown, n), Count(pods, Ready, n), Count(pods, Started, n),
                       Count(pods, Initialized, n), Count(pods, Deployed, n), Count(pods, Pending, n), Count(pods, Failed, n));
        OrderedIsWellReported(Report(pods));
      }
    }
  }

  // ---------- Merging ----------

  function Merged(e: Condition, c: Condition): Condition {
    if e.ctype == c.ctype then c
    else if c.ctype.Unknown? || e.ctype.Unknown? then e.(status := False)
    else e
  }

  function MergeAll(conditions: seq<Condition>, c: Condition): (r: seq<Condition>)
    ensures |r| == |conditions| && forall i :: 0 <= i < |r| ==> r[i] == Merged(conditions[i], c)
  {
    if conditions == [] then [] else [Merged(conditions[0], c)] + MergeAll(conditions[1..], c)
  }

  function MergeOne(conditions: seq<Condition>, c: Condition): seq<Condition> {
    MergeAll(conditions, c) + (if Has(conditions, c.ctype) then [] else [c])
  }

  function Merge(conditions: seq<Condition>, conds: seq<Condition>): seq<Condition>
    decreases |conds|
  {
    if conds == [] then conditions else Merge(MergeOne(conditions, conds[0]), conds[1..])
  }

  // ---------- What the merge keeps ----------

  predicate Lit(c: Condition) {
    c.status == True
  }

  /** One entry per type. */
  ghost predicate Distinct(cs: seq<Condition>) {
    forall i, j :: 0 <= i < j < |cs| ==> cs[i].ctype != cs[j].ctype
  }

  /** One entry per type, and a True Unknown excludes every other True. */
  ghost predicate Exclusive(cs: seq<Condition>) {
    && Distinct(cs)
    && (forall i, j :: 0 <= i < |cs| && 0 <= j < |cs| && i != j && cs[i].ctype.Unknown? && Lit(cs[i]) ==> !Lit(cs[j]))
  }

  /** A type is shown when its condition is there and True. */
  ghost predicate Shown(cs: seq<Condition>, t: CondType) {
    exists i :: 0 <= i < |cs| && cs[i].ctype == t && Lit(cs[i])
  }

  lemma MergeKeepsTypes(cs: seq<Condition>, c: Condition)
    requires Distinct(cs)
    ensures Distinct(MergeOne(cs, c))
  {
    var r := MergeOne(cs, c);
    assert forall i :: 0 <= i < |cs| ==> r[i].ctype == cs[i].ctype;
    if !Has(cs, c.ctype) {
      assert forall i :: 0 <= i < |cs| ==> cs[i].ctype != c.ctype;
    }
  }

  /** What one merged condition makes of any other type. */
  lemma MergeOneShows(cs: seq<Condition>, c: Condition, t: CondType)
    requires Lit(c)
    ensures Shown(MergeOne(cs, c), t) <==>
            t == c.ctype || (Shown(cs, t) && !c.ctype.Unknown? && !t.Unknown?)
  {
    if t == c.ctype {
      MergeOneShowsItself(cs, c);
    } else {
      MergeOneShowsOthers(cs, c, t);
    }
  }

  lemma MergeOneShowsItself(cs: seq<Condition>, c: Condition)
    requires Lit(c)
    ensures Shown(MergeOne(cs, c), c.ctype)
  {
    var r := MergeOne(cs, c);
    if Has(cs, c.ctype) {
      var i :| 0 <= i < |cs| && cs[i].ctype == c.ctype;
      assert r[i] == c;
    } else {
      assert r[|cs|] == c;
    }
  }

  lemma MergeOneShowsOthers(cs: seq<Condition>, c: Condition, t: CondType)
    requires Lit(c) && t != c.ctype
    ensures Shown(MergeOne(cs, c), t) <==> Shown(cs, t) && !c.ctype.Unknown? && !t.Unknown?
  {
    var r := MergeOne(cs, c);
    assert forall i :: 0 <= i < |cs| ==> r[i] == Merged(cs[i], c);
    if Shown(r, t) {
      var i :| 0 <= i < |r| && r[i].ctype == t && Lit(r[i]);
      assert i < |cs| && cs[i] == r[i];
    }
    if Shown(cs, t) && !c.ctype.Unknown? && !t.Unknown? {
      var i :| 0 <= i < |cs| && cs[i].ctype == t && Lit(cs[i]);
      assert r[i] == cs[i];
    }
  }

  lemma {:induction false} MergeShows(cs: seq<Condition>, conds: seq<Condition>, t: CondType)
    requires forall i :: 0 <= i < |conds| ==> Lit(conds[i]) && !conds[i].ctype.Unknown?
    ensures Shown(Merge(cs, conds), t) <==>
            Has(conds, t) || (Shown(cs, t) && (!t.Unknown? || conds == []))
    decreases |conds|
  {
    hide MergeOne, Shown;
    if conds != [] {
      MergeOneShows(cs, conds[0], t);
      MergeShows(MergeOne(cs, conds[0]), conds[1..], t);
      HasSplit(conds, t);
    }
  }

  lemma HasSplit(conds: seq<Condition>, t: CondType)
    requires conds != []
    ensures Has(conds, t) <==> conds[0].ctype == t || Has(conds[1..], t)
  {
    if Has(conds[1..], t) {
      var i :| 0 <= i < |conds| - 1 && conds[1..][i].ctype == t;
      assert conds[i + 1].ctype == t;
    }
  }

  lemma {:induction false} MergeKeepsAllTypes(cs: seq<Condition>, conds: seq<Condition>)
    requires Distinct(cs)
    ensures Distinct(Merge(cs, conds))
    decreases |conds|
  {
    hide MergeOne, Distinct;
    if conds != [] {
      MergeKeepsTypes(cs, conds[0]);
      MergeKeepsAllTypes(MergeOne(cs, conds[0]), conds[1..]);
    }
  }

  /**
    After a merge exactly these types are shown: the reported ones, and those shown
    before, which a report of Unknown all puts out and any other report leaves but
    for Unknown.
   */
  lemma MergeReport(cs: seq<Condition>, pods: seq<Pod>, t: CondType)
    ensures var report := Report(pods);
            Shown(Merge(cs, report), t) <==>
            Has(report, t) || (Shown(cs, t) && (report == [] || (!t.Unknown? && !Has(report, Unknown))))
  {
    hide Report, Shown, MergeOne;
    var report := Report(pods);
    UnknownReportedAlone(pods);
    if Has(report, Unknown) {
      assert |report| == 1 && report[0].ctype.Unknown?;
      assert report[1..] == [];
      assert Merge(cs, report) == MergeOne(cs, report[0]);
      MergeOneShows(cs, report[0], t);
      HasSplit(report, t);
      EmptyHasNothing([], t);
    } else {
      assert forall i :: 0 <= i < |report| ==> !report[i].ctype.Unknown?;
      MergeShows(cs, report, t);
    }
  }

  /** A report of that kind, seen from one entry: the reported condition of its type, or the entry as the report leaves it. */
  ghost predicate Updated(e: Condition, report: seq<Condition>, e': Condition) {
    if Has(report, e.ctype) then e' in report && e'.ctype == e.ctype
    else e' == if report != [] && (e.ctype.Unknown? || Has(report, Unknown)) then e.(status := False) else e
  }

  lemma {:induction false} MergeUpdates(cs: seq<Condition>, conds: seq<Condition>, i: nat)
    requires WellReported(conds) && i < |cs|
    ensures |cs| <= |Merge(cs, conds)| && Updated(cs[i], conds, Merge(cs, conds)[i])
    decreases |conds|
  {
    hide MergeAll;
    if conds == [] {
      EmptyHasNothing([], cs[i].ctype);
    } else {
      var c, rest, now := conds[0], conds[1..], MergeOne(cs, conds[0]);
      RestWellReported(conds);
      HasSplit(conds, cs[i].ctype);
      HasSplit(conds, Unknown);
      assert now[i] == Merged(cs[i], c) by { MergedAt(cs, c, i); }
      MergeUpdates(now, rest, i);
      if cs[i].ctype == c.ctype {
        NotAgain(conds);
        assert conds[0] in conds;
        EmptyHasNothing(rest, Unknown);
      }
    }
  }

  lemma MergedAt(cs: seq<Condition>, c: Condition, i: nat)
    requires i < |cs|
    ensures |MergeOne(cs, c)| >= |cs| && MergeOne(cs, c)[i] == Merged(cs[i], c)
  {
  }

  lemma RestWellReported(conds: seq<Condition>)
    requires WellReported(conds) && conds != []
    ensures WellReported(conds[1..])
    ensures Has(conds, Unknown) ==> conds[1..] == []
  {
  }

  lemma NotAgain(conds: seq<Condition>)
    requires WellReported(conds) && conds != []
    ensures !Has(conds[1..], conds[0].ctype)
  {
  }

  lemma {:induction false} MergeAdds(cs: seq<Condition>, conds: seq<Condition>, k: nat)
    requires WellReported(conds) && k < |conds|
    ensures conds[k] in Merge(cs, conds)
    decreases |conds|
  {
    hide MergeAll;
    var c, rest, now := conds[0], conds[1..], MergeOne(cs, conds[0]);
    RestWellReported(conds);
    if k > 0 {
      MergeAdds(now, rest, k - 1);
    } else {
      assert c in now by { MergedIsIn(cs, c); }
      var i :| 0 <= i < |now| && now[i] == c;
      MergeUpdates(now, rest, i);
      NotAgain(conds);
      assert c.ctype.Unknown? ==> rest == [] by { assert conds[0] == c; }
    }
  }

  lemma MergedIsIn(cs: seq<Condition>, c: Condition)
    ensures c in MergeOne(cs, c)
  {
    if Has(cs, c.ctype) {
      var i :| 0 <= i < |cs| && cs[i].ctype == c.ctype;
      MergedAt(cs, c, i);
    }
  }

  /**
    Entry by entry: what is reported is in the conditions afterwards, with its reason; an
    entry of a type that is not reported keeps its place and its reason, and is put out only
    by Unknown, or if it is Unknown itself.
   */
  lemma ReportIsEntered(cs: seq<Condition>, pods: seq<Pod>)
    ensures var r, report := Merge(cs, Report(pods)), Report(pods);
            && |cs| <= |r| && (forall i :: 0 <= i < |cs| ==> Updated(cs[i], report, r[i]))
            && (forall k :: 0 <= k < |report| ==> report[k] in r)
  {
    hide Report, Merge, Updated;
    UnknownReportedAlone(pods);
    var report := Report(pods);
    var r := Merge(cs, report);
    if cs != [] {
      MergeUpdates(cs, report, 0);
    }
    forall i | 0 <= i < |cs|
      ensures |cs| <= |r| && Updated(cs[i], report, r[i])
    {
      MergeUpdates(cs, report, i);
    }
    forall k | 0 <= k < |report|
      ensures report[k] in r
    {
      MergeAdds(cs, report, k);
    }
  }

  lemma ExclusiveShown(cs: seq<Condition>)
    requires Distinct(cs)
    ensures Exclusive(cs) <==> forall t :: Shown(cs, Unknown) && Shown(cs, t) ==> t == Unknown
  {
    if forall t :: Shown(cs, Unknown) && Shown(cs, t) ==> t == Unknown {
      forall i, j | 0 <= i < |cs| && 0 <= j < |cs| && i != j && cs[i].ctype.Unknown? && Lit(cs[i])
        ensures !Lit(cs[j])
      {
        assert Lit(cs[j]) ==> Shown(cs, cs[j].ctype);
      }
    }
  }

  /** The conditions after a sequence of pod lists, from none. */
  function After(lists: seq<seq<Pod>>): seq<Condition> {
    if lists == [] then [] else Merge(After(lists[..|lists| - 1]), Report(lists[|lists| - 1]))
  }

  lemma {:induction false} OneEntryPerType(lists: seq<seq<Pod>>)
    ensures Distinct(After(lists))
    decreases |lists|
  {
    hide Report, Merge;
    if lists != [] {
      OneEntryPerType(lists[..|lists| - 1]);
      MergeKeepsAllTypes(After(lists[..|lists| - 1]), Report(lists[|lists| - 1]));
    }
  }

  /** A report merged into conditions of that kind keeps them so. */
  lemma ReportKeepsExclusive(cs: seq<Condition>, pods: seq<Pod>)
    requires Exclusive(cs)
    ensures Exclusive(Merge(cs, Report(pods)))
  {
    assert Distinct(cs);
    hide Report, Merge, Exclusive, Shown, Has, Distinct;
    var r := Merge(cs, Report(pods));
    MergeKeepsAllTypes(cs, Report(pods));
    ExclusiveShown(cs);
    ExclusiveShown(r);
    UnknownIsAlone(pods);
    forall t | Shown(r, Unknown) && Shown(r, t)
      ensures t == Unknown
    {
      MergeReport(cs, pods, Unknown);
      MergeReport(cs, pods, t);
      EmptyHasNothing([], t);
      EmptyHasNothing([], Unknown);
    }
  }

  /** Whatever the pods do, Unknown is never True together with another condition. */
  lemma {:induction false} AlwaysExclusive(lists: seq<seq<Pod>>)
    ensures Exclusive(After(lists))
    decreases |lists|
  {
    hide Report, Merge;
    if lists != [] {
      AlwaysExclusive(lists[..|lists| - 1]);
      ReportKeepsExclusive(After(lists[..|lists| - 1]), lists[|lists| - 1]);
    }
  }

  lemma UnknownIsAlone(pods: seq<Pod>)
    ensures Has(Report(pods), Unknown) ==> forall t :: Has(Report(pods), t) ==> t == Unknown
  {
    hide Report;
    UnknownReportedAlone(pods);
  }

  // ---------- A condition that no pod reports any more ----------

  const READY_POD := Pod(PodRunning, [PodCondition(PodReady, true)])
  const STARTING_POD := Pod(PodRunning, [PodCondition(PodScheduled, true), PodCondition(PodReady, false)])

  lemma OneStartingPod()
    ensures Report([STARTING_POD]) == [Held(Deployed, "PodDeployed")]
  {
    var pcs := STARTING_POD.conditions;
    assert pcs[..1] == [PodCondition(PodScheduled, true)] && pcs[..1][..0] == [];
    assert FromConditions([]) == [];
    assert FromConditions(pcs[..1]) == [Deployed];
    assert FromConditions(pcs) == [Deployed];
    assert FromPod(STARTING_POD) == [Deployed];
    forall t: CondType
      ensures Count([STARTING_POD], t, 1) == multiset([Deployed])[t]
    {
      assert Count([STARTING_POD], t, 0) == 0;
    }
  }

  lemma OneReadyPod()
    ensures Has(Report([READY_POD]), Ready)
  {
    var pcs := READY_POD.conditions;
    assert pcs[..0] == [] && FromConditions([]) == [];
    assert FromConditions(pcs) == [Ready];
    assert FromPod(READY_POD) == [Ready];
    assert Count([READY_POD], Unknown, 0) == 0 && Count([READY_POD], Ready, 0) == 0;
    assert Count([READY_POD], Unknown, 1) == 0 && Count([READY_POD], Ready, 1) == 1;
    assert Report([READY_POD])[0] == Held(Ready, "PodReady");
  }

  /** After a ready pod was replaced by one that is not, Ready is still shown. */
  lemma ReadyOutlivesItsPod()
    ensures Shown(After([[READY_POD], [STARTING_POD]]), Ready) && !Has(Report([STARTING_POD]), Ready)
  {
    hide Report, Merge, Shown;
    var lists := [[READY_POD], [STARTING_POD]];
    assert lists[..1] == [[READY_POD]] && lists[..1][..0] == [];
    OneReadyPod();
    OneStartingPod();
    assert After([]) == [];
    MergeReport([], [READY_POD], Ready);
    MergeReport(After([[READY_POD]]), [STARTING_POD], Ready);
  }

  // ---------- The status ----------

  class ComputeNodeStatus {
    var conditions: seq<Condition>

    /** The inner loop over the conditions kept so far. */
    method MergeInto(c: Condition) returns (found: bool)
      modifies this
      ensures conditions == MergeAll(old(conditions), c)
      ensures found <==> Has(old(conditions), c.ctype)
    {
      found := false;
      for i := 0 to |conditions|
        invariant |conditions| == |old(conditions)|
        invariant forall k :: 0 <= k < i ==> conditions[k] == Merged(old(conditions)[k], c)
        invariant forall k :: i <= k < |conditions| ==> conditions[k] == old(conditions)[k]
        invariant found <==> exists k :: 0 <= k < i && old(conditions)[k].ctype == c.ctype
      {
        if conditions[i].ctype == c.ctype {
          found := true;
          conditions := conditions[i := conditions[i].(ctype := c.ctype, status := c.status, reason := c.reason)];
        } else if c.ctype.Unknown? || conditions[i].ctype.Unknown? {
          conditions := conditions[i := conditions[i].(status := False)];
        }
      }
    }

    method UpdateComputeNodeStatusCondition(conds: seq<Condition>)
      modifies this
      ensures conditions == Merge(old(conditions), conds)
    {
      hide MergeAll, Has;
      for idx := 0 to |conds|
        invariant Merge(old(conditions), conds) == Merge(conditions, conds[idx..])
      {
        assert conds[idx..][1..] == conds[idx + 1..];
        ghost var was := conditions;
        var found := MergeInto(conds[idx]);
        EmptyHasNothing(was, conds[idx].ctype);
        if |conditions| == 0 || !found {
          conditions := conditions + [conds[idx]];
        }
        assert conditions == MergeOne(was, conds[idx]);
      }
    }

    /** One reconciliation: afterwards a type is shown exactly as `MergeReport` says. */
    method ReconcileComputeNodeStatus(pods: seq<Pod>)
      modifies this
      ensures conditions == Merge(old(conditions), Report(pods))
      ensures old(Exclusive(conditions)) ==> Exclusive(conditions)
    {
      hide Merge, Report, Exclusive;
      var conds := GetConditionFromPods(pods);
      UpdateComputeNodeStatusCondition(conds);
      if old(Exclusive(conditions)) {
        ReportKeepsExclusive(old(conditions), pods);
      }
    }
  }
}
