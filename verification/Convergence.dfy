/** Without failures the two controllers drive every node to provisioned; after a failed Job
    they never do. Each controller action is taken as a whole here, with fresh reads. */
module Convergence {
  import opened Wrappers
  import opened Manifest
  import opened Api
  import opened Protocol
  import opened Controllers
  import opened JobNames

  /** An undeleted shim with a fixed specification and the nodes it selects. */
  datatype Goal = Goal(shim: string, spec: Spec, nodes: seq<string>)

  function JobOf(g: Goal, n: string): string {
    JobName(n, g.shim, INSTALL)
  }

  /** Different nodes, with different Jobs. */
  ghost predicate ValidGoal(g: Goal) {
    forall i, j :: 0 <= i < j < |g.nodes| ==> g.nodes[i] != g.nodes[j] && JobOf(g, g.nodes[i]) != JobOf(g, g.nodes[j])
  }

  // ---------------------------------------------------------------- actions

  datatype Action =
    | Reconcile(node: string)                   // the Shim controller reaches this node in a pass
    | Finish(node: string)                      // the node's install Job completes
    | Report(node: string)                      // the Job controller reconciles that Job
    | Unrelated(node: string, key: string, value: string)  // someone labels the node for another purpose

  function ListedAt(st: Store, n: string): Listed
    requires n in st.nodes
  {
    Listed(n, st.nodes[n])
  }

  /** A Job that has not finished gets its Complete condition. */
  function Complete1(st: Store, j: string): Store {
    if j in st.jobs && FinishedKind(st.jobs[j].conditions).None?
    then PutJob(st, j, st.jobs[j].(conditions := st.jobs[j].conditions + [Condition(Complete, true)]))
    else st
  }

  function Act(g: Goal, st: Store, a: Action): Store {
    if a.node !in st.nodes then st
    else
      match a
      case Reconcile(n) => Visit(st, g.shim, g.spec, ListedAt(st, n), SERVED).0
      case Finish(n) => Complete1(st, JobOf(g, n))
      case Report(n) => Observe(st, JobOf(g, n))
      case Unrelated(n, key, value) =>
        if key == g.shim then st else PutNode(st, n, st.nodes[n].labels[key := value])
  }

  function ActAll(g: Goal, st: Store, actions: seq<Action>): Store
    decreases |actions|
  {
    if actions == [] then st else ActAll(g, Act(g, st, actions[0]), actions[1..])
  }

  // ---------------------------------------------------------------- the four states of a node

  /** The stored Job is this node's install Job. */
  ghost predicate OwnJob(g: Goal, st: Store, n: string)
    requires n in st.nodes
  {
    && JobOf(g, n) in st.jobs
    && st.jobs[JobOf(g, n)].template == ManifestFor(g.shim, g.spec, n, st.nodes[n], INSTALL).template
    && Describes(st.jobs[JobOf(g, n)], Work(n, g.shim, INSTALL))
  }

  datatype Phase = Waiting | Running | Finished | Ready | Broken

  ghost function PhaseOf(g: Goal, st: Store, n: string): Phase
    requires n in st.nodes
  {
    var labels, j := st.nodes[n].labels, JobOf(g, n);
    if g.shim !in labels then (if j in st.jobs then Broken else Waiting)
    else if !OwnJob(g, st, n) then Broken
    else if labels[g.shim] == PENDING && FinishedKind(st.jobs[j].conditions).None? then Running
    else if labels[g.shim] == PENDING && FinishedKind(st.jobs[j].conditions) == Some(Complete) then Finished
    else if labels[g.shim] == PROVISIONED && FinishedKind(st.jobs[j].conditions) == Some(Complete) then Ready
    else Broken
  }

  function Rank(p: Phase): nat {
    match p case Waiting => 3 case Running => 2 case Finished => 1 case Ready => 0 case Broken => 0
  }

  /** The node exists, has an artifact, and its label and Job are in one of the four linked states. */
  ghost predicate Linked(g: Goal, st: Store, n: string) {
    && n in st.nodes && Resolve(g.spec.fetch, st.nodes[n].os, st.nodes[n].arch).Some?
    && !PhaseOf(g, st, n).Broken?
  }

  ghost predicate AllLinked(g: Goal, st: Store) {
    forall i :: 0 <= i < |g.nodes| ==> Linked(g, st, g.nodes[i])
  }

  // ---------------------------------------------------------------- one action on its own node

  /** What an action does to the phase of its node. */
  ghost function NextPhase(p: Phase, a: Action): Phase {
    match a
    case Reconcile(_) => if p.Waiting? then Running else p
    case Finish(_) => if p.Running? then Finished else p
    case Report(_) => if p.Finished? then Ready else p
    case Unrelated(_, _, _) => p
  }

  lemma ReconcileSteps(g: Goal, st: Store, n: string)
    requires Linked(g, st, n)
    ensures Linked(g, Act(g, st, Reconcile(n)), n)
    ensures PhaseOf(g, Act(g, st, Reconcile(n)), n) == NextPhase(PhaseOf(g, st, n), Reconcile(n))
  {
    hide JobName, Resolve;
    var found := Resolve(g.spec.fetch, st.nodes[n].os, st.nodes[n].arch);
    ManifestDescribes(g.shim, g.spec, n, INSTALL, found.value);
    hide Describes, JobManifest;
  }

  lemma FinishSteps(g: Goal, st: Store, n: string)
    requires Linked(g, st, n)
    ensures Linked(g, Act(g, st, Finish(n)), n)
    ensures PhaseOf(g, Act(g, st, Finish(n)), n) == NextPhase(PhaseOf(g, st, n), Finish(n))
  {
    hide JobName, Resolve;
    var j := JobOf(g, n);
    if j in st.jobs {
      FinishedKindStable(st.jobs[j].conditions, Condition(Complete, true));
      hide JobManifest;
    }
  }

  lemma ReportSteps(g: Goal, st: Store, n: string)
    requires Linked(g, st, n)
    ensures Linked(g, Act(g, st, Report(n)), n)
    ensures PhaseOf(g, Act(g, st, Report(n)), n) == NextPhase(PhaseOf(g, st, n), Report(n))
  {
    hide JobName, Resolve, JobManifest;
  }

  lemma UnrelatedSteps(g: Goal, st: Store, a: Action)
    requires Linked(g, st, a.node) && a.Unrelated?
    ensures Linked(g, Act(g, st, a), a.node)
    ensures PhaseOf(g, Act(g, st, a), a.node) == PhaseOf(g, st, a.node)
  {
    hide JobName, Resolve, JobManifest;
  }

  lemma OwnStep(g: Goal, st: Store, a: Action)
    requires Linked(g, st, a.node)
    ensures Linked(g, Act(g, st, a), a.node)
    ensures PhaseOf(g, Act(g, st, a), a.node) == NextPhase(PhaseOf(g, st, a.node), a)
  {
    match a {
      case Reconcile(n) => ReconcileSteps(g, st, n);
      case Finish(n) => FinishSteps(g, st, n);
      case Report(n) => ReportSteps(g, st, n);
      case Unrelated(_, _, _) => UnrelatedSteps(g, st, a);
    }
  }

  // ---------------------------------------------------------------- other nodes are not affected

  lemma PhaseIsLocal(g: Goal, a: Store, b: Store, n: string)
    requires AgreeAt(a, b, n, JobOf(g, n)) && Linked(g, a, n)
    ensures Linked(g, b, n) && PhaseOf(g, b, n) == PhaseOf(g, a, n)
  {
    hide JobName, Resolve, JobManifest;
  }

  lemma OtherNodesKept(g: Goal, st: Store, a: Action, other: string)
    requires Linked(g, st, a.node) && a.node != other && JobOf(g, a.node) != JobOf(g, other)
    ensures AgreeAt(st, Act(g, st, a), other, JobOf(g, other))
  {
    hide JobName, Resolve, JobManifest;
    if a.Reconcile? {
      DeployLeavesOthers(st, g.shim, g.spec, a.node, INSTALL, SERVED, other, JobOf(g, other));
    }
  }

  // ---------------------------------------------------------------- rank

  ghost function RankFrom(g: Goal, st: Store, i: nat): nat
    requires i <= |g.nodes| && AllLinked(g, st)
    decreases |g.nodes| - i
  {
    if i == |g.nodes| then 0 else Rank(PhaseOf(g, st, g.nodes[i])) + RankFrom(g, st, i + 1)
  }

  /** How far the cluster still has to go. */
  ghost function Distance(g: Goal, st: Store): nat
    requires AllLinked(g, st)
  {
    RankFrom(g, st, 0)
  }

  /** The action moves its node to the next phase. */
  ghost predicate Effective(g: Goal, st: Store, a: Action) {
    && a.node in g.nodes && a.node in st.nodes
    && NextPhase(PhaseOf(g, st, a.node), a) != PhaseOf(g, st, a.node)
  }

  ghost predicate OnGoal(g: Goal, a: Action) {
    a.node in g.nodes
  }

  lemma ActKeepsLinked(g: Goal, st: Store, a: Action)
    requires ValidGoal(g) && AllLinked(g, st) && OnGoal(g, a)
    ensures AllLinked(g, Act(g, st, a))
    ensures forall i :: 0 <= i < |g.nodes| ==>
              PhaseOf(g, Act(g, st, a), g.nodes[i])
              == if g.nodes[i] == a.node then NextPhase(PhaseOf(g, st, a.node), a) else PhaseOf(g, st, g.nodes[i])
  {
    hide Act, PhaseOf, JobName, Resolve;
    forall i | 0 <= i < |g.nodes|
      ensures Linked(g, Act(g, st, a), g.nodes[i]) && g.nodes[i] in st.nodes && g.nodes[i] in Act(g, st, a).nodes
      ensures PhaseOf(g, Act(g, st, a), g.nodes[i])
              == if g.nodes[i] == a.node then NextPhase(PhaseOf(g, st, a.node), a) else PhaseOf(g, st, g.nodes[i])
    {
      NodeAfterAct(g, st, a, i);
    }
  }

  lemma NodeAfterAct(g: Goal, st: Store, a: Action, i: nat)
    requires ValidGoal(g) && AllLinked(g, st) && OnGoal(g, a) && i < |g.nodes|
    ensures Linked(g, Act(g, st, a), g.nodes[i])
    ensures PhaseOf(g, Act(g, st, a), g.nodes[i])
            == if g.nodes[i] == a.node then NextPhase(PhaseOf(g, st, a.node), a) else PhaseOf(g, st, g.nodes[i])
  {
    hide Act, PhaseOf, JobName;
    var k :| 0 <= k < |g.nodes| && g.nodes[k] == a.node;
    if i == k {
      OwnStep(g, st, a);
    } else {
      OtherNodesKept(g, st, a, g.nodes[i]);
      PhaseIsLocal(g, st, Act(g, st, a), g.nodes[i]);
    }
  }

  /** One for an effective action whose node is among those from `i` on. */
  ghost function Gain(g: Goal, st: Store, a: Action, i: nat): nat
    requires i <= |g.nodes|
  {
    if Effective(g, st, a) && a.node in g.nodes[i..] then 1 else 0
  }

  lemma GainSplits(g: Goal, st: Store, a: Action, i: nat)
    requires ValidGoal(g) && i < |g.nodes|
    ensures Gain(g, st, a, i) == (if Effective(g, st, a) && a.node == g.nodes[i] then 1 else 0) + Gain(g, st, a, i + 1)
  {
    hide Effective, JobName;
    assert g.nodes[i..] == [g.nodes[i]] + g.nodes[i + 1..];
    var rest := g.nodes[i + 1..];
    assert forall k :: 0 <= k < |rest| ==> rest[k] != g.nodes[i];
  }

  lemma NoGain(g: Goal, st: Store, a: Action)
    ensures Gain(g, st, a, |g.nodes|) == 0
  {
  }

  lemma RankStep(g: Goal, st: Store, a: Action)
    requires AllLinked(g, st) && OnGoal(g, a)
    ensures a.node in st.nodes
            && Rank(NextPhase(PhaseOf(g, st, a.node), a)) + (if Effective(g, st, a) then 1 else 0) == Rank(PhaseOf(g, st, a.node))
  {
    var i :| 0 <= i < |g.nodes| && g.nodes[i] == a.node;
    assert Linked(g, st, g.nodes[i]);
    hide PhaseOf;
  }

  lemma {:induction false} RankAfterAct(g: Goal, st: Store, a: Action, i: nat)
    requires ValidGoal(g) && AllLinked(g, st) && OnGoal(g, a) && i <= |g.nodes|
    ensures AllLinked(g, Act(g, st, a))
    ensures RankFrom(g, Act(g, st, a), i) + Gain(g, st, a, i) == RankFrom(g, st, i)
    decreases |g.nodes| - i
  {
    hide Act, Linked, PhaseOf, Gain;
    ActKeepsLinked(g, st, a);
    if i == |g.nodes| {
      NoGain(g, st, a);
    } else {
      RankAfterAct(g, st, a, i + 1);
      GainSplits(g, st, a, i);
      RankStep(g, st, a);
    }
  }

  /** Every effective action brings the cluster exactly one step closer; no other action changes the
      distance. */
  lemma DistanceFalls(g: Goal, st: Store, a: Action)
    requires ValidGoal(g) && AllLinked(g, st) && OnGoal(g, a)
    ensures AllLinked(g, Act(g, st, a))
    ensures Distance(g, Act(g, st, a)) == Distance(g, st) - if Effective(g, st, a) then 1 else 0
  {
    RankAfterAct(g, st, a, 0);
    assert g.nodes[0..] == g.nodes;
  }

  /** The action that moves a node of this phase on. */
  function Cure(p: Phase, n: string): Action {
    match p case Waiting => Reconcile(n) case Running => Finish(n) case _ => Report(n)
  }

  lemma {:induction false} FindUnready(g: Goal, st: Store, i: nat) returns (k: nat)
    requires AllLinked(g, st) && i <= |g.nodes| && RankFrom(g, st, i) > 0
    ensures i <= k < |g.nodes| && !PhaseOf(g, st, g.nodes[k]).Ready?
    decreases |g.nodes| - i
  {
    if PhaseOf(g, st, g.nodes[i]).Ready? {
      k := FindUnready(g, st, i + 1);
    } else {
      k := i;
    }
  }

  /** As long as the goal is not reached, some controller or Job can take an effective action. */
  lemma Progress(g: Goal, st: Store) returns (a: Action)
    requires AllLinked(g, st) && Distance(g, st) > 0
    ensures OnGoal(g, a) && Effective(g, st, a)
  {
    var k := FindUnready(g, st, 0);
    var n := g.nodes[k];
    assert Linked(g, st, n);
    a := Cure(PhaseOf(g, st, n), n);
  }

  ghost predicate ProvisionedAt(g: Goal, st: Store, n: string) {
    n in st.nodes && Lookup(st.nodes[n].labels, g.shim) == PROVISIONED
  }

  lemma ReadyIffProvisioned(g: Goal, st: Store, n: string)
    requires Linked(g, st, n)
    ensures Rank(PhaseOf(g, st, n)) == 0 <==> ProvisionedAt(g, st, n)
  {
    hide JobName, Resolve;
    assert PENDING != PROVISIONED && "" != PROVISIONED;
  }

  lemma {:induction false} ZeroIffReady(g: Goal, st: Store, i: nat)
    requires AllLinked(g, st) && i <= |g.nodes|
    ensures RankFrom(g, st, i) == 0 <==> forall k :: i <= k < |g.nodes| ==> ProvisionedAt(g, st, g.nodes[k])
    decreases |g.nodes| - i
  {
    if i < |g.nodes| {
      ReadyIffProvisioned(g, st, g.nodes[i]);
      ZeroIffReady(g, st, i + 1);
      hide Linked, PhaseOf, ProvisionedAt;
    }
  }

  function ListAll(g: Goal, st: Store): seq<Listed>
    requires forall i :: 0 <= i < |g.nodes| ==> g.nodes[i] in st.nodes
  {
    seq(|g.nodes|, i requires 0 <= i < |g.nodes| => ListedAt(st, g.nodes[i]))
  }

  /** The next status counts every node as ready exactly at distance zero. */
  lemma StatusAtGoal(g: Goal, st: Store)
    requires AllLinked(g, st)
    ensures ReadyCount(g.shim, ListAll(g, st)) == |ListAll(g, st)| == |g.nodes| <==> Distance(g, st) == 0
  {
    ZeroIffReady(g, st, 0);
    assert forall i :: 0 <= i < |g.nodes| ==>
        (ProvisionedAt(g, st, g.nodes[i]) <==> Lookup(ListAll(g, st)[i].node.labels, g.shim) == PROVISIONED);
    ReadyIffAll(g.shim, ListAll(g, st));
  }

  // ---------------------------------------------------------------- whole runs

  /** Number of effective actions in a run. */
  ghost function EffectiveCount(g: Goal, st: Store, actions: seq<Action>): nat
    decreases |actions|
  {
    if actions == [] then 0
    else (if Effective(g, st, actions[0]) then 1 else 0) + EffectiveCount(g, Act(g, st, actions[0]), actions[1..])
  }

  lemma {:induction false} DistanceBound(g: Goal, st: Store, i: nat)
    requires AllLinked(g, st) && i <= |g.nodes|
    ensures RankFrom(g, st, i) <= 3 * (|g.nodes| - i)
    decreases |g.nodes| - i
  {
    if i < |g.nodes| {
      DistanceBound(g, st, i + 1);
    }
  }

  /** Convergence: over any schedule every node stays in a linked state, and the effective actions
      taken and the distance left always add up to the distance at the start, at most three per node. */
  lemma {:induction false} Converges(g: Goal, st: Store, actions: seq<Action>)
    requires ValidGoal(g) && AllLinked(g, st) && forall a :: a in actions ==> OnGoal(g, a)
    ensures AllLinked(g, ActAll(g, st, actions))
    ensures EffectiveCount(g, st, actions) + Distance(g, ActAll(g, st, actions)) == Distance(g, st) <= 3 * |g.nodes|
    decreases |actions|
  {
    DistanceBound(g, st, 0);
    if actions != [] {
      DistanceFalls(g, st, actions[0]);
      Converges(g, Act(g, st, actions[0]), actions[1..]);
    }
  }

  ghost predicate Untouched(g: Goal, st: Store, n: string) {
    && n in st.nodes && Resolve(g.spec.fetch, st.nodes[n].os, st.nodes[n].arch).Some?
    && g.shim !in st.nodes[n].labels && JobOf(g, n) !in st.jobs
  }

  lemma {:induction false} FreshDistance(g: Goal, st: Store, i: nat)
    requires i <= |g.nodes| && forall k :: 0 <= k < |g.nodes| ==> Untouched(g, st, g.nodes[k])
    ensures AllLinked(g, st) && RankFrom(g, st, i) == 3 * (|g.nodes| - i)
    decreases |g.nodes| - i
  {
    if i < |g.nodes| {
      FreshDistance(g, st, i + 1);
      assert Untouched(g, st, g.nodes[i]);
    }
  }

  /** From unlabelled nodes without Jobs a run provisions every node exactly when it contains three
      effective actions per node, and it can never contain more. */
  lemma FreshConverges(g: Goal, st: Store, actions: seq<Action>)
    requires ValidGoal(g) && forall a :: a in actions ==> OnGoal(g, a)
    requires forall k :: 0 <= k < |g.nodes| ==> Untouched(g, st, g.nodes[k])
    ensures var st' := ActAll(g, st, actions);
            && AllLinked(g, st') && EffectiveCount(g, st, actions) <= 3 * |g.nodes|
            && (EffectiveCount(g, st, actions) == 3 * |g.nodes|
                <==> forall i :: 0 <= i < |g.nodes| ==> ProvisionedAt(g, st', g.nodes[i]))
  {
    FreshDistance(g, st, 0);
    Converges(g, st, actions);
    ZeroIffReady(g, ActAll(g, st, actions), 0);
  }

  /** A run that cannot take a further effective action has every node provisioned, and the status
      says so. */
  lemma StuckMeansDone(g: Goal, st: Store, actions: seq<Action>)
    requires ValidGoal(g) && AllLinked(g, st) && forall a :: a in actions ==> OnGoal(g, a)
    requires forall a :: OnGoal(g, a) ==> !Effective(g, ActAll(g, st, actions), a)
    ensures var st' := ActAll(g, st, actions);
            && AllLinked(g, st') && ReadyCount(g.shim, ListAll(g, st')) == |g.nodes|
            && forall i :: 0 <= i < |g.nodes| ==> ProvisionedAt(g, st', g.nodes[i])
  {
    Converges(g, st, actions);
    var st' := ActAll(g, st, actions);
    if Distance(g, st') > 0 {
      var a := Progress(g, st');
    }
    StatusAtGoal(g, st');
    ZeroIffReady(g, st', 0);
  }

  // ---------------------------------------------------------------- a whole pass

  lemma {:induction false} ActAllSnoc(g: Goal, st: Store, actions: seq<Action>, a: Action)
    ensures ActAll(g, st, actions + [a]) == Act(g, ActAll(g, st, actions), a)
    decreases |actions|
  {
    hide Act;
    if actions == [] {
      assert ActAll(g, st, [a]) == ActAll(g, Act(g, st, a), []);
    } else {
      assert (actions + [a])[0] == actions[0] && (actions + [a])[1..] == actions[1..] + [a];
      ActAllSnoc(g, Act(g, st, actions[0]), actions[1..], a);
    }
  }

  function Reconciles(g: Goal, k: nat): seq<Action>
    requires k <= |g.nodes|
  {
    seq(k, i requires 0 <= i < k => Reconcile(g.nodes[i]))
  }

  function AllServed(k: nat): seq<DeployIO> {
    seq(k, _ => SERVED)
  }

  /** Only the listed labels decide whether a node is visited. */
  lemma VisitByLabels(st: Store, g: Goal, n: string, a: Node, b: Node)
    requires a.labels == b.labels
    ensures Visit(st, g.shim, g.spec, Listed(n, a), SERVED) == Visit(st, g.shim, g.spec, Listed(n, b), SERVED)
  {
    hide Deploy, Skips;
  }

  /** A rollout over a fresh listing of the goal's nodes is the sequence of the atomic actions that
      reconcile them: while it works on some, the listing of the others stays fresh. */
  lemma {:induction false} PassIsReconciles(g: Goal, st: Store, k: nat)
    requires ValidGoal(g) && k <= |g.nodes| && forall i :: 0 <= i < |g.nodes| ==> g.nodes[i] in st.nodes
    ensures Rollout(st, g.shim, g.spec, ListAll(g, st)[..k], AllServed(k)).0 == ActAll(g, st, Reconciles(g, k))
    decreases k
  {
    hide Visit, JobName, ActAll;
    if k == 0 {
      assert ActAll(g, st, Reconciles(g, 0)) == st by {
        ActNone(g, st, Reconciles(g, 0));
      }
    } else {
      var n, listed := k - 1, ListAll(g, st);
      PassIsReconciles(g, st, n);
      assert listed[..k][..n] == listed[..n] && AllServed(k)[..n] == AllServed(n) && listed[..k][n] == ListedAt(st, g.nodes[n]);
      var mid := Rollout(st, g.shim, g.spec, listed[..n], AllServed(n)).0;
      assert forall i :: 0 <= i < n ==> listed[..n][i].name == g.nodes[i];
      RolloutLeavesOthers(st, g.shim, g.spec, listed[..n], AllServed(n), g.nodes[n], JobOf(g, g.nodes[n]));
      assert g.nodes[n] in mid.nodes && mid.nodes[g.nodes[n]].labels == st.nodes[g.nodes[n]].labels;
      VisitByLabels(mid, g, g.nodes[n], st.nodes[g.nodes[n]], mid.nodes[g.nodes[n]]);
      assert Reconciles(g, k) == Reconciles(g, n) + [Reconcile(g.nodes[n])];
      ActAllSnoc(g, st, Reconciles(g, n), Reconcile(g.nodes[n]));
    }
  }

  lemma ActNone(g: Goal, st: Store, actions: seq<Action>)
    requires actions == []
    ensures ActAll(g, st, actions) == st
  {
  }

  // ---------------------------------------------------------------- names short enough

  /** If no Job name is truncated, different nodes are enough for a valid goal. */
  lemma ShortNamesSuffice(g: Goal)
    requires forall i :: 0 <= i < |g.nodes| ==> Untruncated(g.nodes[i], g.shim, INSTALL)
    requires forall i, j :: 0 <= i < j < |g.nodes| ==> g.nodes[i] != g.nodes[j]
    ensures ValidGoal(g)
  {
    hide JobName;
    forall i, j | 0 <= i < j < |g.nodes|
      ensures JobOf(g, g.nodes[i]) != JobOf(g, g.nodes[j])
    {
      NodesOfOneShim(g.nodes[i], g.nodes[j], g.shim, INSTALL);
    }
  }

  // ---------------------------------------------------------------- when a node can recover

  /** The stored Job does other work than the install of the goal's shim on `n`: its cut name is
      taken by another Job. */
  predicate Foreign(g: Goal, job: Job, n: string) {
    WorkOf(job) != Work(n, g.shim, INSTALL)
  }

  /** Nothing will provision this node any more: its Job has failed or is another one's, or it has no
      Job and is taken for pending or has no artifact. */
  ghost predicate Doomed(g: Goal, st: Store, n: string) {
    && n in st.nodes && !ProvisionedAt(g, st, n)
    && if JobOf(g, n) in st.jobs then
         var job := st.jobs[JobOf(g, n)];
         FinishedKind(job.conditions) == Some(Failed) || Foreign(g, job, n)
       else Lookup(st.nodes[n].labels, g.shim) == PENDING || Resolve(g.spec.fetch, st.nodes[n].os, st.nodes[n].arch).None?
  }

  /** The Job stored under this node's Job name, if any, says what it does, as all stored Jobs do. */
  ghost predicate SoundJob(g: Goal, st: Store, n: string) {
    JobOf(g, n) in st.jobs ==> Describes(st.jobs[JobOf(g, n)], WorkOf(st.jobs[JobOf(g, n)]))
  }

  lemma DescribedWork(job: Job, w: Work)
    requires Describes(job, w)
    ensures WorkOf(job) == w && Describes(job, WorkOf(job))
  {
  }

  /** The Job of `m`, if `m` is another node, is a different one and runs elsewhere. */
  ghost predicate Apart(g: Goal, st: Store, n: string, m: string) {
    m != n ==>
      && JobOf(g, m) != JobOf(g, n)
      && (JobOf(g, m) in st.jobs ==> st.jobs[JobOf(g, m)].template.nodeName != n)
  }

  lemma ApartKept(g: Goal, st: Store, a: Action, n: string, m: string)
    requires Apart(g, st, n, a.node) && Apart(g, st, n, m)
    ensures Apart(g, Act(g, st, a), n, m)
  {
    hide JobName, Resolve, FinishedKind, JobVerdict;
  }

  /** What applying the goal's manifest over a stored Job does: a foreign one refuses it, an own one
      goes on doing its work. */
  lemma ApplyOver(g: Goal, st: Store, n: string)
    requires n in st.nodes && SoundJob(g, st, n) && JobOf(g, n) in st.jobs
    ensures var job, manifest := st.jobs[JobOf(g, n)], ManifestFor(g.shim, g.spec, n, st.nodes[n], INSTALL);
            job.template == manifest.template ==>
              !Foreign(g, job, n) && Describes(Merge(job, manifest), WorkOf(job)) && WorkOf(Merge(job, manifest)) == WorkOf(job)
  {
    var job, manifest := st.jobs[JobOf(g, n)], ManifestFor(g.shim, g.spec, n, st.nodes[n], INSTALL);
    DescribedManifest(g.shim, g.spec, n, st.nodes[n], INSTALL);
    hide JobName;
    if job.template == manifest.template {
      MergeDescribes(job, manifest, WorkOf(job), Work(n, g.shim, INSTALL));
    }
  }

  lemma DoomedReconcile(g: Goal, st: Store, n: string)
    requires Doomed(g, st, n) && SoundJob(g, st, n)
    ensures Doomed(g, Act(g, st, Reconcile(n)), n) && SoundJob(g, Act(g, st, Reconcile(n)), n)
  {
    if JobOf(g, n) in st.jobs {
      ApplyOver(g, st, n);
    }
    hide JobName, Resolve, ManifestFor, Describes, WorkOf, FinishedKind;
    assert PENDING != PROVISIONED && FAILED != PROVISIONED && "" != PENDING;
  }

  lemma DoomedFinish(g: Goal, st: Store, n: string)
    requires Doomed(g, st, n) && SoundJob(g, st, n)
    ensures Doomed(g, Act(g, st, Finish(n)), n) && SoundJob(g, Act(g, st, Finish(n)), n)
  {
    hide JobName, Resolve, FinishedKind;
  }

  /** A failed Job reports failure, and a foreign one does not report the install of this shim here. */
  lemma DoomedVerdict(g: Goal, job: Job, n: string)
    requires Describes(job, WorkOf(job)) && (FinishedKind(job.conditions) == Some(Failed) || Foreign(g, job, n))
    ensures job.template.nodeName == n && job.labels[SHIM_NAME] == g.shim ==> JobVerdict(job) != Mark(PROVISIONED)
  {
    assert FAILED != PROVISIONED && INSTALL != UNINSTALL;
  }

  lemma DoomedReport(g: Goal, st: Store, n: string)
    requires Doomed(g, st, n) && SoundJob(g, st, n)
    ensures Doomed(g, Act(g, st, Report(n)), n) && SoundJob(g, Act(g, st, Report(n)), n)
  {
    if JobOf(g, n) in st.jobs {
      DoomedVerdict(g, st.jobs[JobOf(g, n)], n);
      VerdictKinds(st.jobs[JobOf(g, n)]);
    }
    hide JobName, Resolve, FinishedKind, JobVerdict, WorkOf, Describes;
    assert "" != PROVISIONED && FAILED != PROVISIONED;
  }

  lemma VerdictKinds(job: Job)
    ensures JobVerdict(job).Mark? ==> JobVerdict(job).value == FAILED || JobVerdict(job).value == PROVISIONED
  {
  }

  lemma DoomedOwnAct(g: Goal, st: Store, a: Action, n: string)
    requires Doomed(g, st, n) && SoundJob(g, st, n) && a.node == n
    ensures Doomed(g, Act(g, st, a), n) && SoundJob(g, Act(g, st, a), n)
  {
    match a {
      case Reconcile(_) => DoomedReconcile(g, st, n);
      case Finish(_) => DoomedFinish(g, st, n);
      case Report(_) => DoomedReport(g, st, n);
      case Unrelated(_, _, _) => hide JobName, Resolve, FinishedKind, Describes, WorkOf;
    }
  }

  lemma DoomedOtherAct(g: Goal, st: Store, a: Action, n: string)
    requires Doomed(g, st, n) && SoundJob(g, st, n) && a.node != n && Apart(g, st, n, a.node)
    ensures Doomed(g, Act(g, st, a), n) && SoundJob(g, Act(g, st, a), n)
  {
    hide JobName, Resolve, JobManifest, FinishedKind, JobVerdict, Describes, WorkOf;
    if a.Reconcile? {
      DeployLeavesOthers(st, g.shim, g.spec, a.node, INSTALL, SERVED, n, JobOf(g, n));
    }
  }

  /** A doomed node stays doomed: no schedule of passes, completions and Job reconciles, on this and
      on other nodes, ever labels it provisioned. */
  lemma {:induction false} DoomedForever(g: Goal, st: Store, actions: seq<Action>, n: string)
    requires Doomed(g, st, n) && SoundJob(g, st, n) && forall a :: a in actions ==> Apart(g, st, n, a.node)
    ensures Doomed(g, ActAll(g, st, actions), n) && !ProvisionedAt(g, ActAll(g, st, actions), n)
    decreases |actions|
  {
    hide Act, Apart, SoundJob;
    if actions != [] {
      var a := actions[0];
      assert a in actions;
      if a.node == n {
        DoomedOwnAct(g, st, a, n);
      } else {
        DoomedOtherAct(g, st, a, n);
      }
      forall b | b in actions[1..] ensures Apart(g, Act(g, st, a), n, b.node) {
        ApartKept(g, st, a, n, b.node);
      }
      DoomedForever(g, Act(g, st, a), actions[1..], n);
    }
  }

  /** The node's install Job is there and has not failed. */
  ghost predicate HasGoodJob(g: Goal, st: Store, n: string) {
    && n in st.nodes && JobOf(g, n) in st.jobs
    && Describes(st.jobs[JobOf(g, n)], Work(n, g.shim, INSTALL))
    && FinishedKind(st.jobs[JobOf(g, n)].conditions) != Some(Failed)
  }

  lemma ReconcileGivesJob(g: Goal, st: Store, n: string)
    requires n in st.nodes && SoundJob(g, st, n) && !ProvisionedAt(g, st, n) && !Doomed(g, st, n)
    ensures HasGoodJob(g, Act(g, st, Reconcile(n)), n)
  {
    var manifest := ManifestFor(g.shim, g.spec, n, st.nodes[n], INSTALL);
    DescribedManifest(g.shim, g.spec, n, st.nodes[n], INSTALL);
    if JobOf(g, n) in st.jobs {
      ApplyOver(g, st, n);
    }
    assert manifest.conditions == [];
    hide JobName, Resolve, ManifestFor, Describes, WorkOf;
  }

  lemma FinishAndReport(g: Goal, st: Store, n: string)
    requires HasGoodJob(g, st, n)
    ensures ProvisionedAt(g, Act(g, Act(g, st, Finish(n)), Report(n)), n)
  {
    hide JobName;
    var j := JobOf(g, n);
    var mid := Act(g, st, Finish(n));
    FinishedKindStable(st.jobs[j].conditions, Condition(Complete, true));
    FinishedKindSound(st.jobs[j].conditions);
    assert FinishedKind(mid.jobs[j].conditions) == Some(Complete);
    assert Describes(mid.jobs[j], Work(n, g.shim, INSTALL)) && n in mid.nodes;
  }

  /** Some schedule, which may involve other nodes, gets the node provisioned. */
  ghost predicate Recoverable(g: Goal, st: Store, n: string) {
    exists actions: seq<Action> ::
      ProvisionedAt(g, ActAll(g, st, actions), n) && forall a :: a in actions ==> Apart(g, st, n, a.node)
  }

  /** Exactly when an unprovisioned node recovers: if it is not doomed a pass, a completion and a
      report provision it; if it is, no schedule does. */
  lemma RecoversIff(g: Goal, st: Store, n: string)
    requires n in st.nodes && SoundJob(g, st, n) && !ProvisionedAt(g, st, n)
    ensures Recoverable(g, st, n) <==> !Doomed(g, st, n)
    ensures ProvisionedAt(g, ActAll(g, st, [Reconcile(n), Finish(n), Report(n)]), n) <==> !Doomed(g, st, n)
  {
    hide Act, Doomed, ProvisionedAt;
    var cure := [Reconcile(n), Finish(n), Report(n)];
    if Doomed(g, st, n) {
      DoomedForever(g, st, cure, n);
      if Recoverable(g, st, n) {
        var actions: seq<Action> :| ProvisionedAt(g, ActAll(g, st, actions), n) && forall a :: a in actions ==> Apart(g, st, n, a.node);
        DoomedForever(g, st, actions, n);
      }
    } else {
      ReconcileGivesJob(g, st, n);
      FinishAndReport(g, Act(g, st, Reconcile(n)), n);
      ThreeActs(g, st, Reconcile(n), Finish(n), Report(n));
    }
  }

  lemma ThreeActs(g: Goal, st: Store, a: Action, b: Action, c: Action)
    ensures ActAll(g, st, [a, b, c]) == Act(g, Act(g, Act(g, st, a), b), c)
  {
    hide Act;
    assert [a, b, c][1..] == [b, c] && [b, c][1..] == [c] && [c][1..] == [];
    var s1 := Act(g, st, a);
    var s2 := Act(g, s1, b);
    assert ActAll(g, st, [a, b, c]) == ActAll(g, s1, [b, c]);
    assert ActAll(g, s1, [b, c]) == ActAll(g, s2, [c]);
    assert ActAll(g, s2, [c]) == Act(g, s2, c);
  }

  /** A failed Job is reused by every retry, so a failed node never recovers. */
  lemma RetryNeverRecovers(g: Goal, st: Store, n: string)
    requires n in st.nodes && SoundJob(g, st, n) && !ProvisionedAt(g, st, n)
    requires JobOf(g, n) in st.jobs && FinishedKind(st.jobs[JobOf(g, n)].conditions) == Some(Failed)
    ensures !Recoverable(g, st, n)
  {
    RecoversIff(g, st, n);
  }

  /** Nor does a node whose cut Job name is the name of another Job, such as the uninstall Job of the
      same pair. */
  lemma TakenNameNeverRecovers(g: Goal, st: Store, n: string, other: Work)
    requires n in st.nodes && !ProvisionedAt(g, st, n) && JobOf(g, n) in st.jobs
    requires Describes(st.jobs[JobOf(g, n)], other) && other != Work(n, g.shim, INSTALL)
    ensures !Recoverable(g, st, n)
  {
    DescribedWork(st.jobs[JobOf(g, n)], other);
    RecoversIff(g, st, n);
  }

  /** Exactly which answers of the API make a deployment attempt doom a node that could recover: the
      pending label is stored, but no Job follows and the label is not set to failed. */
  lemma DeployDoomsIff(g: Goal, st: Store, n: string, io: DeployIO)
    requires n in st.nodes && SoundJob(g, st, n) && !ProvisionedAt(g, st, n) && !Doomed(g, st, n)
    ensures Doomed(g, Visit(st, g.shim, g.spec, ListedAt(st, n), io).0, n)
            <==> JobOf(g, n) !in st.jobs && io.get.None? && !io.update.Denied? && (!io.manifest || (io.patch.Denied? && !Marks(io)))
  {
    if JobOf(g, n) in st.jobs {
      AttemptWithJob(g, st, n, io);
    } else {
      AttemptWithoutJob(g, st, n, io);
    }
  }

  lemma AttemptWithJob(g: Goal, st: Store, n: string, io: DeployIO)
    requires n in st.nodes && SoundJob(g, st, n) && !ProvisionedAt(g, st, n) && !Doomed(g, st, n) && JobOf(g, n) in st.jobs
    ensures !Doomed(g, Visit(st, g.shim, g.spec, ListedAt(st, n), io).0, n)
  {
    ApplyOver(g, st, n);
    DeployJobs(st, g.shim, g.spec, n, INSTALL, io);
    hide Deploy, JobName, Resolve, ManifestFor, Describes, WorkOf, FinishedKind, Skips;
  }

  lemma AttemptWithoutJob(g: Goal, st: Store, n: string, io: DeployIO)
    requires n in st.nodes && !ProvisionedAt(g, st, n) && !Doomed(g, st, n) && JobOf(g, n) !in st.jobs
    ensures Doomed(g, Visit(st, g.shim, g.spec, ListedAt(st, n), io).0, n)
            <==> io.get.None? && !io.update.Denied? && (!io.manifest || (io.patch.Denied? && !Marks(io)))
  {
    var job := ManifestFor(g.shim, g.spec, n, st.nodes[n], INSTALL);
    DescribedManifest(g.shim, g.spec, n, st.nodes[n], INSTALL);
    DescribedWork(job, Work(n, g.shim, INSTALL));
    assert job.conditions == [] && FinishedKind(job.conditions).None?;
    hide JobName, Resolve, ManifestFor, Describes, WorkOf, FinishedKind, Marks;
    assert PENDING != PROVISIONED && FAILED != PROVISIONED && FAILED != PENDING && "" != PENDING;
  }

  // ---------------------------------------------------------------- stale listings

  /** What a pass that acts on an old copy of a ready node does: it leaves the node ready exactly if
      the copy already says pending or provisioned, and else sets it back to pending although its Job
      is long complete. */
  lemma StaleListSetsBack(g: Goal, st: Store, n: string, seen: Node)
    requires Linked(g, st, n) && PhaseOf(g, st, n).Ready?
    ensures var st' := Visit(st, g.shim, g.spec, Listed(n, seen), SERVED).0;
            && Linked(g, st', n)
            && (PhaseOf(g, st', n).Ready? <==> Skips(INSTALL, g.shim, seen.labels))
            && (PhaseOf(g, st', n).Finished? <==> !Skips(INSTALL, g.shim, seen.labels))
  {
    hide JobName, Resolve;
    var found := Resolve(g.spec.fetch, st.nodes[n].os, st.nodes[n].arch);
    ManifestDescribes(g.shim, g.spec, n, INSTALL, found.value);
    hide Describes, JobManifest;
  }
}
