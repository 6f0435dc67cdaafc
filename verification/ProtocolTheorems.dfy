/** Consequences of the protocol invariant for single steps and whole runs. */
module ProtocolTheorems {
  import opened Wrappers
  import opened Manifest
  import opened Api
  import opened Protocol
  import opened ProtocolSafety

  // ---------------------------------------------------------------- no lost label update

  /** The node and label key that a thread's pending call writes, if it writes a node at all. */
  function Target(th: Thread): Option<(string, string)> {
    match th
    case JobWrite(node, _, shim) => Some((node, shim))
    case Fetched(p, _) => if AtNode(p) then Some((NextNode(p), p.shim)) else None
    case PatchFailed(p, _, _) => if AtNode(p) then Some((NextNode(p), p.shim)) else None
    case _ => None
  }

  /** Nodes after a call that writes at most label `key` of node `target`. */
  ghost predicate OneKeyChange(before: map<string, Node>, after: map<string, Node>, target: string, key: string) {
    && after.Keys == before.Keys
    && (forall n :: n in before && n != target ==> after[n] == before[n])
    && (target in before ==> SameExcept(before[target].labels, after[target].labels, key))
  }

  lemma WriteNodeOneKey(w: World, name: string, local: Node, key: string, reply: Reply)
    requires NodeCopy(w, name, local, key)
    ensures OneKeyChange(w.st.nodes, WriteNode(w, name, local, reply).0.st.nodes, name, key)
  {
  }

  lemma PassStepNodes(w: World, th: Thread, reply: Reply)
    requires th.PassStart? || th.PassRead? || th.PassListed? || th.PassStatus? || th.PassClass?
    ensures PassStep(w, th, reply).0.st.nodes == w.st.nodes
  {
  }

  lemma CallOneKey(w: World, th: Thread, reply: Reply)
    requires ThreadSound(w, th) && WellPlaced(th)
    ensures var w', target := ThreadStep(w, th, reply).0, Target(th);
            if target.None? then w'.st.nodes == w.st.nodes
            else OneKeyChange(w.st.nodes, w'.st.nodes, target.value.0, target.value.1)
  {
    hide JobSound, PassSound, OneKeyChange, Skips, Resolve, JobVerdict, JobName, DeployManifest, AppliedJob;
    match th {
      case JobWrite(node, local, shim) => WriteNodeOneKey(w, node, local, shim, reply);
      case Fetched(p, local) => WriteNodeOneKey(w, NextNode(p), local, p.shim, reply);
      case PatchFailed(p, local, _) => WriteNodeOneKey(w, NextNode(p), local, p.shim, reply);
      case Labelled(p, local) =>
      case JobStart(_) =>
      case JobRead(_) =>
      case PassLoop(_) =>
      case Removing(_) =>
      case Ensuring(_, _) =>
      case Ended =>
      case _ => PassStepNodes(w, th, reply);
    }
  }

  /** Relative to what is stored just before it, a call of either controller changes no label, or
      the label of its own shim on the one node it is working on; everything else in every node's
      labels stays, whatever happened since the node was read. */
  lemma NoLostUpdate(w: World, t: nat, reply: Reply)
    requires Inv(w) && t in w.threads
    ensures var w', target := Next(w, Call(t, reply)), Target(w.threads[t]);
            if target.None? then w'.st.nodes == w.st.nodes
            else OneKeyChange(w.st.nodes, w'.st.nodes, target.value.0, target.value.1)
  {
    hide ThreadStep, OneKeyChange, ThreadSound, CoreSound, Grows, Target;
    ThreadStepSound(w, w.threads[t], reply);
    CallOneKey(w, w.threads[t], reply);
  }

  /** The step may write label `key` of `node`, or the node itself comes or goes. */
  ghost predicate Touches(w: World, s: Step, node: string, key: string) {
    match s
    case Call(t, _) => t in w.threads && Target(w.threads[t]) == Some((node, key))
    case NodeAdded(name, _, _, _) => name == node
    case NodeRemoved(name) => name == node
    case NodeRelabelled(name, _) => name == node
    case _ => false
  }

  ghost predicate RunTouches(w: World, steps: seq<Step>, node: string, key: string)
    decreases |steps|
  {
    steps != [] && (Touches(w, steps[0], node, key) || RunTouches(Next(w, steps[0]), steps[1..], node, key))
  }

  /** Absent and empty are different: `None` or the stored value. */
  function LabelOf(w: World, node: string, key: string): Option<string> {
    if node in w.st.nodes && key in w.st.nodes[node].labels then Some(w.st.nodes[node].labels[key]) else None
  }

  lemma SameExceptAt(a: Labels, b: Labels, key: string, k: string)
    requires SameExcept(a, b, key) && k != key
    ensures (k in a <==> k in b) && (k in a ==> a[k] == b[k])
  {
    assert k in a <==> k in a - {key};
    assert k in b <==> k in b - {key};
    assert k in a ==> (a - {key})[k] == (b - {key})[k];
  }

  lemma OneKeyKeepsLabel(w: World, w': World, target: string, changed: string, node: string, key: string)
    requires OneKeyChange(w.st.nodes, w'.st.nodes, target, changed) && (target != node || changed != key)
    ensures LabelOf(w', node, key) == LabelOf(w, node, key)
  {
    if target == node && node in w.st.nodes {
      SameExceptAt(w.st.nodes[node].labels, w'.st.nodes[node].labels, changed, key);
    }
  }

  lemma EnvironmentKeepsLabel(w: World, s: Step, node: string, key: string)
    requires !s.Call? && !Touches(w, s, node, key)
    ensures LabelOf(EnvironmentStep(w, s), node, key) == LabelOf(w, node, key)
  {
  }

  lemma StepKeepsLabel(w: World, s: Step, node: string, key: string)
    requires Inv(w) && !Touches(w, s, node, key)
    ensures LabelOf(Next(w, s), node, key) == LabelOf(w, node, key)
  {
    if !s.Call? {
      EnvironmentKeepsLabel(w, s, node, key);
    } else if s.t in w.threads {
      NoLostUpdate(w, s.t, s.reply);
      var target := Target(w.threads[s.t]);
      hide Next, Inv, Target, OneKeyChange;
      if target.Some? {
        OneKeyKeepsLabel(w, Next(w, s), target.value.0, target.value.1, node, key);
      }
    }
  }

  /** Different shims never disturb each other: a label that no step of the run is after keeps its
      value through every interleaving of both reconcilers working on other shims. */
  lemma {:induction false} OtherShimsKeepLabel(w: World, steps: seq<Step>, node: string, key: string)
    requires Inv(w) && !RunTouches(w, steps, node, key)
    ensures LabelOf(Run(w, steps), node, key) == LabelOf(w, node, key)
    decreases |steps|
  {
    if steps != [] {
      StepKeepsLabel(w, steps[0], node, key);
      NextKeepsInv(w, steps[0]);
      OtherShimsKeepLabel(Next(w, steps[0]), steps[1..], node, key);
    }
  }

  // ---------------------------------------------------------------- a label goes only after an uninstall

  /** A controller takes a shim's label off a node only when a Job that ran the uninstall of
      exactly that shim on exactly that node has completed. */
  lemma UnlabelledOnlyAfterUninstall(w: World, t: nat, reply: Reply, node: string, shim: string)
    requires Inv(w) && t in w.threads
    requires LabelOf(w, node, shim).Some? && LabelOf(Next(w, Call(t, reply)), node, shim).None?
    ensures Work(node, shim, UNINSTALL) in w.log.completed
  {
    var th := w.threads[t];
    NoLostUpdate(w, t, reply);
    if !Touches(w, Call(t, reply), node, shim) {
      StepKeepsLabel(w, Call(t, reply), node, shim);
    }
    assert Target(th) == Some((node, shim));
    assert ThreadSound(w, th);
    if !th.JobWrite? {
      DeployNeverUnlabels(w, t, reply);
    }
  }

  lemma DeployNeverUnlabels(w: World, t: nat, reply: Reply)
    requires Inv(w) && t in w.threads && (w.threads[t].Fetched? || w.threads[t].PatchFailed?)
    ensures var p := w.threads[t].pass;
            AtNode(p) && (LabelOf(w, NextNode(p), p.shim).Some? ==>
              LabelOf(Next(w, Call(t, reply)), NextNode(p), p.shim).Some?)
  {
    assert ThreadSound(w, w.threads[t]);
  }

  // ---------------------------------------------------------------- the finalizer

  ghost predicate Holds(w: World, shim: string) {
    shim in w.st.shims && FINALIZER in w.st.shims[shim].finalizers
  }

  lemma WriteShimFinalizer(w: World, name: string, local: Shim, reply: Reply, shim: string)
    requires Holds(w, shim) && !Holds(WriteShim(w, name, local, reply).0, shim)
    ensures name == shim && FINALIZER !in local.finalizers && ShimAccepts(w.st, name, local)
  {
  }

  /** Only the removal step takes the finalizer off. */
  lemma FinalizerRemover(w: World, th: Thread, reply: Reply, shim: string)
    requires CoreSound(w) && ThreadSound(w, th) && WellPlaced(th)
    requires Holds(w, shim) && !Holds(ThreadStep(w, th, reply).0, shim)
    ensures th.Removing? && th.pass.shim == shim && ShimAccepts(w.st, shim, th.pass.local.(finalizers := th.pass.local.finalizers - {FINALIZER}))
  {
    hide CoreSound, PassSound, JobSound, NodeCopy, Resolve, Skips;
    match th {
      case PassListed(s, seen, listed) =>
        WriteShimFinalizer(w, s, seen.(status := Status(|listed|, ReadyCount(s, listed))), reply, shim);
      case Removing(p) =>
        WriteShimFinalizer(w, p.shim, p.local.(finalizers := p.local.finalizers - {FINALIZER}), reply, shim);
      case Ensuring(s, seen) =>
        WriteShimFinalizer(w, s, seen.(finalizers := seen.finalizers + {FINALIZER}), reply, shim);
      case _ =>
    }
  }

  /** The shim object `uid` has lost its finalizer for good, or is gone. */
  ghost predicate Released(w: World, shim: string, uid: nat) {
    && uid <= w.st.clock
    && (shim in w.st.shims && w.st.shims[shim].uid == uid ==>
          w.st.shims[shim].deleting && FINALIZER !in w.st.shims[shim].finalizers)
  }

  /** A shim loses its finalizer only while it is being deleted, and only in a pass which itself, for
      every listed node that carried the label, applied an uninstall Job or was answered NotFound;
      from then on the object is released. */
  lemma FinalizerSafety(w: World, s: Step, shim: string)
    requires Inv(w) && Holds(w, shim) && !Holds(Next(w, s), shim)
    ensures s.Call? && s.t in w.threads && w.threads[s.t].Removing?
    ensures var p := w.threads[s.t].pass;
            && p.shim == shim && w.st.shims[shim].deleting && |p.outcomes| == |p.listed|
            && forall i :: 0 <= i < |p.listed| && shim in p.listed[i].node.labels ==>
                 var work := Work(p.listed[i].name, shim, UNINSTALL);
                 || (p.outcomes[i].Applied? && work in w.log.applied)
                 || (p.outcomes[i].Gone? && work in w.log.missing)
    ensures Released(Next(w, s), shim, w.st.shims[shim].uid)
  {
    if !s.Call? {
      EnvironmentKeepsFinalizer(w, s, shim);
    }
    assert s.t in w.threads;
    var th := w.threads[s.t];
    assert ThreadSound(w, th);
    ThreadStepSound(w, th, s.reply);
    FinalizerRemover(w, th, s.reply, shim);
    var p := th.pass;
    assert PassSound(w, p) && p.op == UNINSTALL && |p.outcomes| == |p.listed|;
    RemovalReleases(w, p, s.reply);
    hide ThreadStep, CoreSound, ThreadSound, Released, ShimCopy;
    forall i | 0 <= i < |p.listed| && shim in p.listed[i].node.labels
      ensures var work := Work(p.listed[i].name, shim, UNINSTALL);
              (p.outcomes[i].Applied? && work in w.log.applied) || (p.outcomes[i].Gone? && work in w.log.missing)
    {
      assert NodeDone(w, p, i);
    }
  }

  /** The accepted removal leaves the object released, or takes it away. */
  lemma RemovalReleases(w: World, p: Pass, reply: Reply)
    requires StoreSound(w) && PassSound(w, p) && p.op == UNINSTALL && Holds(w, p.shim)
    requires var w' := ThreadStep(w, Removing(p), reply).0;
             !Holds(w', p.shim)
    ensures var w' := ThreadStep(w, Removing(p), reply).0;
            w.st.shims[p.shim].deleting && Released(w', p.shim, w.st.shims[p.shim].uid)
  {
    hide NodeDone;
  }

  lemma EnvironmentKeepsFinalizer(w: World, s: Step, shim: string)
    requires !s.Call? && Holds(w, shim)
    ensures Holds(EnvironmentStep(w, s), shim)
  {
  }

  lemma WriteShimReleased(w: World, name: string, local: Shim, reply: Reply, shim: string, uid: nat)
    requires Released(w, shim, uid)
    ensures Released(WriteShim(w, name, local, reply).0, shim, uid)
  {
  }

  lemma CallReleased(w: World, th: Thread, reply: Reply, shim: string, uid: nat)
    requires Released(w, shim, uid) && WellPlaced(th)
    ensures Released(ThreadStep(w, th, reply).0, shim, uid)
  {
    hide Resolve, Skips, JobManifest, JobName;
    match th {
      case PassListed(s, seen, listed) =>
        WriteShimReleased(w, s, seen.(status := Status(|listed|, ReadyCount(s, listed))), reply, shim, uid);
      case Removing(p) =>
        WriteShimReleased(w, p.shim, p.local.(finalizers := p.local.finalizers - {FINALIZER}), reply, shim, uid);
      case Ensuring(s, seen) =>
        WriteShimReleased(w, s, seen.(finalizers := seen.finalizers + {FINALIZER}), reply, shim, uid);
      case _ =>
    }
  }

  lemma EnvironmentReleased(w: World, s: Step, shim: string, uid: nat)
    requires !s.Call? && Released(w, shim, uid)
    ensures Released(EnvironmentStep(w, s), shim, uid)
  {
  }

  /** Once removed, the finalizer is never restored on that object: not by the deferred ensure step
      of the same pass, nor by any other pass, at any later time. */
  lemma {:induction false} FinalizerNeverRestored(w: World, steps: seq<Step>, shim: string, uid: nat)
    requires Released(w, shim, uid)
    ensures Released(Run(w, steps), shim, uid)
    decreases |steps|
  {
    if steps != [] {
      var s := steps[0];
      if !s.Call? {
        EnvironmentReleased(w, s, shim, uid);
      } else if s.t in w.threads && WellPlaced(w.threads[s.t]) {
        CallReleased(w, w.threads[s.t], s.reply, shim, uid);
      }
      hide ThreadStep, EnvironmentStep;
      FinalizerNeverRestored(Next(w, s), steps[1..], shim, uid);
    }
  }

  /** The two together: the call that takes the finalizer off takes it off for good. */
  lemma RemovedForGood(w: World, s: Step, steps: seq<Step>, shim: string)
    requires Inv(w) && Holds(w, shim) && !Holds(Next(w, s), shim)
    ensures Released(Run(Next(w, s), steps), shim, w.st.shims[shim].uid)
  {
    FinalizerSafety(w, s, shim);
    FinalizerNeverRestored(Next(w, s), steps, shim, w.st.shims[shim].uid);
  }

  // ---------------------------------------------------------------- a report that is lost

  /** The step is another thread's, or nobody's. */
  predicate LeavesThread(s: Step, t: nat) {
    match s
    case Call(u, _) => u != t
    case StartJobPass(u, _) => u != t
    case StartShimPass(u, _) => u != t
    case _ => true
  }

  lemma EnvironmentLeavesThread(w: World, s: Step, t: nat)
    requires !s.Call? && t in w.threads && LeavesThread(s, t)
    ensures t in EnvironmentStep(w, s).threads && EnvironmentStep(w, s).threads[t] == w.threads[t]
  {
  }

  lemma StepLeavesThread(w: World, s: Step, t: nat)
    requires Inv(w) && t in w.threads && LeavesThread(s, t)
    ensures t in Next(w, s).threads && Next(w, s).threads[t] == w.threads[t]
  {
    if !s.Call? {
      EnvironmentLeavesThread(w, s, t);
    } else if s.t in w.threads {
      assert ThreadSound(w, w.threads[s.t]);
      ThreadStepSound(w, w.threads[s.t], s.reply);
      hide ThreadStep, CoreSound, Grows, ThreadSound;
    }
  }

  lemma {:induction false} ThreadWaits(w: World, steps: seq<Step>, t: nat)
    requires Inv(w) && t in w.threads && forall s :: s in steps ==> LeavesThread(s, t)
    ensures t in Run(w, steps).threads && Run(w, steps).threads[t] == w.threads[t]
    decreases |steps|
  {
    hide Inv, Next, LeavesThread;
    if steps != [] {
      assert steps[0] in steps;
      StepLeavesThread(w, steps[0], t);
      NextKeepsInv(w, steps[0]);
      ThreadWaits(Next(w, steps[0]), steps[1..], t);
    }
  }

  /** A report of the Job controller, with any steps of others between its read of the node and its
      write. It lands exactly if the node was not written in between; otherwise the version conflict
      loses it, nothing is stored, and the reconcile ends all the same. */
  lemma ReportLandsIff(w: World, steps: seq<Step>, t: nat, node: string, local: Node, shim: string)
    requires Inv(w) && t in w.threads && w.threads[t] == JobWrite(node, local, shim)
    requires NodeAccepts(w.st, node, local) && forall s :: s in steps ==> LeavesThread(s, t)
    ensures var r := Run(w, steps);
            var r' := Next(r, Call(t, Ok));
            && t in r'.threads && r'.threads[t] == Ended
            && (if node in r.st.nodes && r.st.nodes[node] == w.st.nodes[node]
                then node in r'.st.nodes && r'.st.nodes[node].labels == local.labels
                else r'.st == r.st)
  {
    RunKeepsInv(w, steps);
    ThreadWaits(w, steps, t);
    var r := Run(w, steps);
    assert ThreadSound(w, w.threads[t]) && local.version <= w.st.clock;
    hide Inv, ThreadSound, Run;
  }

  // ---------------------------------------------------------------- the record is what happened

  /** Whatever a step puts on record as an object is stored right after it. */
  ghost predicate RecordsStored(w: World, w': World) {
    && (forall n, x :: (n, x) in w'.log.nodes && (n, x) !in w.log.nodes ==> n in w'.st.nodes && w'.st.nodes[n] == x)
    && (forall n, x :: (n, x) in w'.log.jobs && (n, x) !in w.log.jobs ==> n in w'.st.jobs && w'.st.jobs[n] == x)
    && (forall n, x :: (n, x) in w'.log.shims && (n, x) !in w.log.shims ==> n in w'.st.shims && w'.st.shims[n] == x)
  }

  /** Work goes on record as completed exactly with a Job that got its Complete condition, and as applied
      exactly with a Job of its name that does it. */
  ghost predicate RecordsWork(w: World, w': World) {
    && (forall x :: x in w'.log.completed && x !in w.log.completed ==> exists n, job :: (n, job) in w'.log.jobs && CompletedJob(job, x))
    && (forall x :: x in w'.log.applied && x !in w.log.applied ==> exists job :: (JobName(x.node, x.shim, x.op), job) in w'.log.jobs && WorkOf(job) == x)
  }

  ghost predicate CompletedJob(job: Job, x: Work) {
    WorkOf(job) == x && Condition(Complete, true) in job.conditions
  }

  lemma PassRecords(w: World, th: Thread, reply: Reply)
    requires th.PassStart? || th.PassRead? || th.PassListed? || th.PassStatus? || th.PassClass? || th.Removing? || th.Ensuring?
    ensures var w' := ThreadStep(w, th, reply).0;
            RecordsStored(w, w') && w'.log.completed == w.log.completed && w'.log.applied == w.log.applied
  {
    hide LegalList, ReadyCount;
  }

  lemma NodeRecords(w: World, name: string, local: Node, reply: Reply)
    ensures var w' := WriteNode(w, name, local, reply).0;
            RecordsStored(w, w') && w'.log.completed == w.log.completed && w'.log.applied == w.log.applied
  {
  }

  lemma AppliedWork(st: Store, p: Pass, local: Node)
    requires AtNode(p) && (p.op == INSTALL || p.op == UNINSTALL)
    ensures var name, manifest := JobName(NextNode(p), p.shim, p.op), DeployManifest(p, local);
            JobAccepts(st, name, manifest) ==> WorkOf(AppliedJob(st, name, manifest)) == NextWork(p)
  {
    ManifestWork(p, local);
    hide DeployManifest, JobName;
  }

  lemma SameRecords(w: World, w': World)
    requires w'.log == w.log.(missing := w'.log.missing) && w'.st == w.st
    ensures RecordsStored(w, w') && RecordsWork(w, w')
  {
  }

  lemma ApplyRecords(w: World, job: Job, x: Work)
    requires WorkOf(job) == x
    ensures var v := RecordJob(w, JobName(x.node, x.shim, x.op), job);
            var w' := v.(log := v.log.(applied := v.log.applied + {x}));
            RecordsStored(w, w') && RecordsWork(w, w')
  {
    hide JobName, WorkOf, CompletedJob;
    assert (JobName(x.node, x.shim, x.op), job) in RecordJob(w, JobName(x.node, x.shim, x.op), job).log.jobs;
  }

  lemma PatchRecords(w: World, p: Pass, local: Node, reply: Reply)
    requires AtNode(p) && (p.op == INSTALL || p.op == UNINSTALL)
    ensures RecordsStored(w, PatchStep(w, p, local, reply).0) && RecordsWork(w, PatchStep(w, p, local, reply).0)
  {
    AppliedWork(w.st, p, local);
    hide DeployManifest, JobAccepts, AppliedJob, WorkOf, JobName, Relabel, EndNode, RecordsStored, RecordsWork, RecordJob;
    var name, manifest := JobName(NextNode(p), p.shim, p.op), DeployManifest(p, local);
    SameRecords(w, w);
    SameRecords(w, Heard(w, p, reply));
    if Lands(reply) && JobAccepts(w.st, name, manifest) {
      ApplyRecords(w, AppliedJob(w.st, name, manifest), NextWork(p));
    }
  }

  lemma ManifestWork(p: Pass, local: Node)
    requires AtNode(p) && (p.op == INSTALL || p.op == UNINSTALL)
    ensures WorkOf(DeployManifest(p, local)) == NextWork(p)
  {
    var found := Resolve(p.local.spec.fetch, local.os, local.arch);
    ManifestDescribes(p.shim, p.local.spec, NextNode(p), p.op, if p.op == INSTALL && found.Some? then found.value else NO_ARTIFACT);
  }

  lemma EnvironmentRecords(w: World, s: Step)
    requires !s.Call?
    ensures RecordsStored(w, EnvironmentStep(w, s)) && RecordsWork(w, EnvironmentStep(w, s))
  {
    var w' := EnvironmentStep(w, s);
    if s.JobCondition? && s.job in w.st.jobs {
      var job := w.st.jobs[s.job].(conditions := w.st.jobs[s.job].conditions + [s.condition]);
      assert (s.job, job) in w'.log.jobs;
      assert s.condition == Condition(Complete, true) ==> CompletedJob(job, WorkOf(job));
    }
    hide WorkOf, NoNewClaims;
  }

  lemma StepRecords(w: World, s: Step)
    requires Inv(w)
    ensures RecordsStored(w, Next(w, s)) && RecordsWork(w, Next(w, s))
  {
    if !s.Call? {
      EnvironmentRecords(w, s);
    } else if s.t in w.threads {
      var th := w.threads[s.t];
      assert ThreadSound(w, th);
      ThreadStepSound(w, th, s.reply);
      CallRecords(w, th, s.reply);
      hide ThreadStep, Inv, ThreadSound;
    }
  }

  lemma DeployingOp(w: World, p: Pass, local: Node)
    requires Deploying(w, p, local)
    ensures AtNode(p) && (p.op == INSTALL || p.op == UNINSTALL)
  {
  }

  lemma CallRecords(w: World, th: Thread, reply: Reply)
    requires Inv(w) && ThreadSound(w, th) && WellPlaced(th)
    ensures RecordsStored(w, ThreadStep(w, th, reply).0) && RecordsWork(w, ThreadStep(w, th, reply).0)
  {
    hide Inv, PatchStep, WriteNode, PassStep, FinalStep, Resolve, Skips, JobVerdict, NodeCopy, PassSound, JobSound;
    match th {
      case JobWrite(node, local, _) => NodeRecords(w, node, local, reply);
      case Fetched(p, local) => NodeRecords(w, NextNode(p), local, reply);
      case PatchFailed(p, local, _) => NodeRecords(w, NextNode(p), local, reply);
      case Labelled(p, local) => DeployingOp(w, p, local); PatchRecords(w, p, local, reply);
      case JobStart(_) =>
      case JobRead(_) =>
      case PassLoop(_) =>
      case Ended =>
      case _ => PassRecords(w, th, reply);
    }
  }

  /** NotFound goes on record exactly for the node at hand of the pass that was answered so. */
  lemma MissingMeansNotFound(w: World, s: Step, x: Work)
    requires x in Next(w, s).log.missing && x !in w.log.missing
    ensures s.Call? && s.reply == Refused(true) && s.t in w.threads
    ensures var th := w.threads[s.t];
            (th.PassLoop? || th.Labelled?) && AtNode(th.pass) && x == Work(NextNode(th.pass), th.pass.shim, th.pass.op)
  {
    hide DeployManifest, JobAccepts, AppliedJob, JobName, Resolve, Skips, LegalList, JobVerdict, NoNewClaims;
  }

  /** Everything on record as completed or applied is so through a Job that was stored. */
  ghost predicate Honest(w: World) {
    && (forall x :: x in w.log.completed ==> exists n, job :: (n, job) in w.log.jobs && CompletedJob(job, x))
    && (forall x :: x in w.log.applied ==> exists job :: (JobName(x.node, x.shim, x.op), job) in w.log.jobs && WorkOf(job) == x)
  }

  lemma HonestStep(w: World, w': World)
    requires Honest(w) && Grows(w, w') && RecordsWork(w, w')
    ensures Honest(w')
  {
    hide CompletedJob, WorkOf, JobName;
    forall x | x in w'.log.completed ensures exists n, job :: (n, job) in w'.log.jobs && CompletedJob(job, x) {
      if x in w.log.completed {
        var n, job :| (n, job) in w.log.jobs && CompletedJob(job, x);
        assert (n, job) in w'.log.jobs;
      }
    }
    forall x | x in w'.log.applied ensures exists job :: (JobName(x.node, x.shim, x.op), job) in w'.log.jobs && WorkOf(job) == x {
      if x in w.log.applied {
        var job :| (JobName(x.node, x.shim, x.op), job) in w.log.jobs && WorkOf(job) == x;
        assert (JobName(x.node, x.shim, x.op), job) in w'.log.jobs;
      }
    }
  }

  lemma {:induction false} RunStaysHonest(w: World, steps: seq<Step>)
    requires Inv(w) && Honest(w)
    ensures Inv(Run(w, steps)) && Honest(Run(w, steps))
    decreases |steps|
  {
    if steps != [] {
      NextKeepsInv(w, steps[0]);
      StepRecords(w, steps[0]);
      hide Inv, Next, Honest, Grows, RecordsWork, RecordsStored;
      HonestStep(w, Next(w, steps[0]));
      RunStaysHonest(Next(w, steps[0]), steps[1..]);
    }
  }

  /** A Job that runs the operation on the node for the shim was stored with its Complete condition. */
  ghost predicate EverCompleted(w: World, node: string, shim: string, op: string) {
    exists n, job :: (n, job) in w.log.jobs && Describes(job, Work(node, shim, op)) && Condition(Complete, true) in job.conditions
  }

  /** In every interleaving: behind every label `provisioned` there is a Job that was stored complete,
      placed on exactly that node and started as `install` with exactly that runtime name. */
  lemma InstallBehindLabel(w: World, steps: seq<Step>, node: string, shim: string)
    requires Initial(w)
    ensures var r := Run(w, steps);
            node in r.st.nodes && Lookup(r.st.nodes[node].labels, shim) == "provisioned" ==> EverCompleted(r, node, shim, "install")
  {
    InitialInv(w);
    RunStaysHonest(w, steps);
    ProvisionedOnlyAfterInstall(w, steps, node, shim);
    var r, x := Run(w, steps), Work(node, shim, INSTALL);
    if x in r.log.completed {
      var n, job :| (n, job) in r.log.jobs && CompletedJob(job, x);
      assert JobSound(r, job);
    }
  }
}
