/** What every interleaving keeps: no label write is lost, a node is labelled provisioned only
    after an install Job for exactly that node and shim completed, and a finalizer goes only after
    every labelled node was dealt with. */
module ProtocolSafety {
  import opened Manifest
  import opened Api
  import opened Protocol

  // ---------------------------------------------------------------- how a world may grow

  /** Objects change only by moving to a version that was never used before, and the log only
      grows. */
  ghost predicate Grows(w: World, w': World) {
    && w.st.clock <= w'.st.clock
    && w.log.nodes <= w'.log.nodes && w.log.jobs <= w'.log.jobs && w.log.shims <= w'.log.shims
    && w.log.completed <= w'.log.completed && w.log.applied <= w'.log.applied && w.log.missing <= w'.log.missing
    && (forall n :: n in w'.st.nodes ==>
          (n in w.st.nodes && w'.st.nodes[n] == w.st.nodes[n]) || w'.st.nodes[n].version > w.st.clock)
    && (forall s :: s in w'.st.shims ==>
          (s in w.st.shims && w'.st.shims[s] == w.st.shims[s]) || w'.st.shims[s].version > w.st.clock)
  }

  // ---------------------------------------------------------------- what a thread may believe

  predicate SameExcept(a: Labels, b: Labels, key: string) {
    a - {key} == b - {key}
  }

  /** A copy of a node, edited at `key` only. While its version is current, it differs from the
      stored node at most there. */
  ghost predicate NodeCopy(w: World, name: string, local: Node, key: string) {
    && local.version <= w.st.clock
    && (name in w.st.nodes && w.st.nodes[name].version == local.version ==>
          SameExcept(w.st.nodes[name].labels, local.labels, key))
  }

  /** An unedited copy of a shim. */
  ghost predicate ShimCopy(w: World, name: string, local: Shim) {
    && local.version <= w.st.clock
    && (name in w.st.shims && w.st.shims[name].version == local.version ==>
          && w.st.shims[name].deleting == local.deleting && w.st.shims[name].uid == local.uid
          && w.st.shims[name].finalizers == local.finalizers)
  }

  /** A copy of a shim whose finalizer may have been taken off. */
  ghost predicate ShimCopyModFinalizer(w: World, name: string, local: Shim) {
    && local.version <= w.st.clock
    && (name in w.st.shims && w.st.shims[name].version == local.version ==>
          && w.st.shims[name].finalizers - {FINALIZER} == local.finalizers - {FINALIZER}
          && (FINALIZER in local.finalizers ==> FINALIZER in w.st.shims[name].finalizers))
  }

  /** A stored Job describes its work, and if it completed, that is on record. */
  ghost predicate JobSound(w: World, job: Job) {
    && Describes(job, WorkOf(job))
    && (Condition(Complete, true) in job.conditions ==> WorkOf(job) in w.log.completed)
  }

  /** The label a node is about to get is backed by completed work. */
  ghost predicate Backed(w: World, node: string, labels: Labels, shim: string) {
    && (Lookup(labels, shim) == PROVISIONED ==> Work(node, shim, INSTALL) in w.log.completed)
  }

  /** Every node of the pass so far was rightly skipped, had its Job applied, or was not found. */
  ghost predicate PassSound(w: World, p: Pass) {
    && |p.outcomes| <= |p.listed| && (p.op == INSTALL || p.op == UNINSTALL)
    && ShimCopy(w, p.shim, p.local)
    && (p.op == UNINSTALL ==> p.local.deleting)
    && (forall i :: 0 <= i < |p.outcomes| ==> NodeDone(w, p, i))
  }

  ghost predicate NodeDone(w: World, p: Pass, i: nat)
    requires i < |p.outcomes| <= |p.listed|
  {
    match p.outcomes[i]
    case Skipped => Skips(p.op, p.shim, p.listed[i].node.labels)
    case Applied => Work(p.listed[i].name, p.shim, p.op) in w.log.applied
    case Gone => Work(p.listed[i].name, p.shim, p.op) in w.log.missing
    case Errored => p.op == INSTALL
  }

  /** A deployment in progress: the node copy carries the pass's own label value. */
  ghost predicate Deploying(w: World, p: Pass, local: Node) {
    && PassSound(w, p) && AtNode(p) && NodeCopy(w, NextNode(p), local, p.shim)
    && p.shim in local.labels && local.labels[p.shim] != PROVISIONED
  }

  ghost predicate ThreadSound(w: World, th: Thread) {
    match th
    case JobRead(job) => JobSound(w, job)
    case JobWrite(node, local, shim) =>
      && NodeCopy(w, node, local, shim) && Backed(w, node, local.labels, shim)
      && (shim !in local.labels ==> Work(node, shim, UNINSTALL) in w.log.completed)
    case PassRead(s, seen) => ShimCopy(w, s, seen)
    case PassListed(s, seen, _) => ShimCopy(w, s, seen)
    case PassStatus(s, seen, _) => ShimCopy(w, s, seen)
    case PassClass(p) => PassSound(w, p)
    case PassLoop(p) => PassSound(w, p)
    case Fetched(p, local) => Deploying(w, p, local)
    case Labelled(p, local) => Deploying(w, p, local)
    case PatchFailed(p, local, notFound) =>
      Deploying(w, p, local) && (notFound ==> NextWork(p) in w.log.missing)
    case Removing(p) => PassSound(w, p) && p.op == UNINSTALL && |p.outcomes| == |p.listed|
    case Ensuring(s, seen) => ShimCopyModFinalizer(w, s, seen)
    case _ => true
  }

  // ---------------------------------------------------------------- the invariant

  ghost predicate NodeEntrySound(w: World, name: string, node: Node) {
    && node.version <= w.st.clock
    && (name in w.st.nodes && w.st.nodes[name].version == node.version ==> w.st.nodes[name] == node)
  }

  ghost predicate ShimEntrySound(w: World, name: string, shim: Shim) {
    && shim.version <= w.st.clock
    && (name in w.st.shims && w.st.shims[name].version == shim.version ==> w.st.shims[name] == shim)
  }

  /** What was ever read under a current version is what is stored. */
  ghost predicate LogSound(w: World) {
    && (forall n, node :: (n, node) in w.log.nodes ==> NodeEntrySound(w, n, node))
    && (forall s, shim :: (s, shim) in w.log.shims ==> ShimEntrySound(w, s, shim))
    && (forall j, job :: (j, job) in w.log.jobs ==> JobSound(w, job))
  }

  /** What is stored can be read. */
  ghost predicate StoreSound(w: World) {
    && (forall n :: n in w.st.nodes ==> (n, w.st.nodes[n]) in w.log.nodes)
    && (forall s :: s in w.st.shims ==> (s, w.st.shims[s]) in w.log.shims && w.st.shims[s].uid <= w.st.clock)
    && (forall j :: j in w.st.jobs ==> (j, w.st.jobs[j]) in w.log.jobs)
  }

  /** A node says provisioned only if an install Job for it and the shim completed. */
  ghost predicate LabelsBacked(w: World) {
    forall n, s :: n in w.st.nodes && s in w.st.nodes[n].labels && w.st.nodes[n].labels[s] == PROVISIONED ==>
      Work(n, s, INSTALL) in w.log.completed
  }

  ghost predicate ThreadsSound(w: World) {
    forall t :: t in w.threads ==> ThreadSound(w, w.threads[t])
  }

  /** The part of the invariant that does not concern threads. */
  ghost predicate CoreSound(w: World) {
    LogSound(w) && StoreSound(w) && LabelsBacked(w)
  }

  ghost predicate Inv(w: World) {
    CoreSound(w) && ThreadsSound(w)
  }

  lemma InitialInv(w: World)
    requires Initial(w)
    ensures Inv(w)
  {
  }

  // ---------------------------------------------------------------- beliefs survive growth

  lemma BeliefsStable(w: World, w': World)
    requires Grows(w, w')
    ensures forall n, local, key :: NodeCopy(w, n, local, key) ==> NodeCopy(w', n, local, key)
    ensures forall s, local :: ShimCopy(w, s, local) ==> ShimCopy(w', s, local)
    ensures forall s, local :: ShimCopyModFinalizer(w, s, local) ==> ShimCopyModFinalizer(w', s, local)
    ensures forall job :: JobSound(w, job) ==> JobSound(w', job)
  {
  }

  lemma PassStable(w: World, w': World, p: Pass)
    requires Grows(w, w') && PassSound(w, p)
    ensures PassSound(w', p)
  {
    BeliefsStable(w, w');
    forall i | 0 <= i < |p.outcomes| ensures NodeDone(w', p, i) {
      assert NodeDone(w, p, i);
    }
  }

  lemma ThreadStable(w: World, w': World, th: Thread)
    requires Grows(w, w') && ThreadSound(w, th)
    ensures ThreadSound(w', th)
  {
    BeliefsStable(w, w');
    if th.PassClass? || th.PassLoop? || th.Fetched? || th.Labelled? || th.PatchFailed? || th.Removing? {
      PassStable(w, w', th.pass);
    }
  }

  // ---------------------------------------------------------------- writes

  /** `w'` is `w` after one write to node `name`. */
  ghost predicate NodeChange(w: World, w': World, name: string) {
    && w'.threads == w.threads && name in w'.st.nodes
    && w'.st == w.st.(clock := w.st.clock + 1, nodes := w.st.nodes[name := w'.st.nodes[name]])
    && w'.log == w.log.(nodes := w.log.nodes + {(name, w'.st.nodes[name])})
    && w'.st.nodes[name].version == w.st.clock + 1
  }

  lemma NodeChangeSound(w: World, w': World, name: string)
    requires CoreSound(w) && NodeChange(w, w', name)
    requires forall s :: s in w'.st.nodes[name].labels && w'.st.nodes[name].labels[s] == PROVISIONED ==>
               Work(name, s, INSTALL) in w.log.completed
    ensures Grows(w, w') && CoreSound(w')
  {
    hide WorkOf, Describes;
    BeliefsStable(w, w');
    forall n, node | (n, node) in w'.log.nodes ensures NodeEntrySound(w', n, node) {
      assert (n, node) in w.log.nodes ==> NodeEntrySound(w, n, node);
    }
    assert forall s, shim :: ShimEntrySound(w, s, shim) ==> ShimEntrySound(w', s, shim);
  }

  lemma WriteNodeSound(w: World, name: string, local: Node, key: string, reply: Reply)
    requires CoreSound(w) && NodeCopy(w, name, local, key) && Backed(w, name, local.labels, key)
    ensures var (w', local') := WriteNode(w, name, local, reply);
            && Grows(w, w') && CoreSound(w') && w'.threads == w.threads
            && NodeCopy(w', name, local', key) && local' == local.(version := local'.version)
  {
    var (w', local') := WriteNode(w, name, local, reply);
    if Lands(reply) && NodeAccepts(w.st, name, local) {
      forall k | k in local.labels && local.labels[k] == PROVISIONED
        ensures Work(name, k, INSTALL) in w.log.completed
      {
        if k != key {
          assert k in local.labels - {key};
          assert k in w.st.nodes[name].labels && w.st.nodes[name].labels[k] == PROVISIONED;
        }
      }
      NodeChangeSound(w, w', name);
    }
  }

  /** `w'` is `w` after one write to shim `name`, which may have made it go away. */
  ghost predicate ShimChange(w: World, w': World, name: string) {
    && w'.threads == w.threads
    && w'.st == w.st.(clock := w.st.clock + 1, shims := w'.st.shims)
    && w'.st.shims - {name} == w.st.shims - {name}
    && w'.log == w.log.(shims := w'.log.shims) && w.log.shims <= w'.log.shims
    && (forall s, shim :: (s, shim) in w'.log.shims && (s, shim) !in w.log.shims ==>
          s == name && name in w'.st.shims && shim == w'.st.shims[name])
    && (name in w'.st.shims ==>
          && w'.st.shims[name].version == w.st.clock + 1 && w'.st.shims[name].uid <= w.st.clock + 1
          && (name, w'.st.shims[name]) in w'.log.shims)
  }

  lemma OtherShims(w: World, w': World, name: string, s: string)
    requires ShimChange(w, w', name) && s != name
    ensures s in w'.st.shims <==> s in w.st.shims
    ensures s in w.st.shims ==> w'.st.shims[s] == w.st.shims[s]
  {
    assert s in w'.st.shims <==> s in w'.st.shims - {name};
    assert s in w.st.shims <==> s in w.st.shims - {name};
    assert s in w.st.shims ==> (w'.st.shims - {name})[s] == (w.st.shims - {name})[s];
  }

  lemma ShimChangeSound(w: World, w': World, name: string)
    requires CoreSound(w) && ShimChange(w, w', name)
    ensures Grows(w, w') && CoreSound(w')
  {
    hide WorkOf, Describes;
    forall s ensures s != name ==> (s in w'.st.shims <==> s in w.st.shims) && (s in w.st.shims ==> w'.st.shims[s] == w.st.shims[s]) {
      if s != name {
        OtherShims(w, w', name, s);
      }
    }
    BeliefsStable(w, w');
    forall s, shim | (s, shim) in w'.log.shims ensures ShimEntrySound(w', s, shim) {
      assert (s, shim) in w.log.shims ==> ShimEntrySound(w, s, shim);
    }
    assert forall n, node :: NodeEntrySound(w, n, node) ==> NodeEntrySound(w', n, node);
  }

  lemma WriteShimSound(w: World, name: string, local: Shim, reply: Reply)
    requires CoreSound(w)
    ensures var w' := WriteShim(w, name, local, reply).0;
            Grows(w, w') && CoreSound(w') && w'.threads == w.threads
  {
    var w' := WriteShim(w, name, local, reply).0;
    if Lands(reply) && ShimAccepts(w.st, name, local) {
      assert ShimChange(w, w', name);
      ShimChangeSound(w, w', name);
    }
  }

  lemma RecordJobSound(w: World, name: string, job: Job, done: set<Work>, applied: set<Work>)
    requires CoreSound(w)
    requires Describes(job, WorkOf(job))
    requires Condition(Complete, true) in job.conditions ==> WorkOf(job) in w.log.completed + done
    ensures var v := RecordJob(w, name, job);
            var w' := v.(log := v.log.(completed := v.log.completed + done, applied := v.log.applied + applied));
            Grows(w, w') && CoreSound(w') && w'.threads == w.threads
  {
    var v := RecordJob(w, name, job);
    var w' := v.(log := v.log.(completed := v.log.completed + done, applied := v.log.applied + applied));
    assert Grows(w, w');
    BeliefsStable(w, w');
    assert forall n, node :: NodeEntrySound(w, n, node) ==> NodeEntrySound(w', n, node);
    assert forall n, shim :: ShimEntrySound(w, n, shim) ==> ShimEntrySound(w', n, shim);
  }

  // ---------------------------------------------------------------- one call of one thread

  /** What one call must establish. */
  ghost predicate CallSound(w: World, r: (World, Thread)) {
    Grows(w, r.0) && CoreSound(r.0) && r.0.threads == w.threads && ThreadSound(r.0, r.1)
  }

  lemma CompletedWork(w: World, job: Job)
    requires JobSound(w, job)
    ensures JobVerdict(job) == Mark(PROVISIONED) ==> Work(job.template.nodeName, Lookup(job.labels, SHIM_NAME), INSTALL) in w.log.completed
    ensures JobVerdict(job) == Unmark ==> Work(job.template.nodeName, Lookup(job.labels, SHIM_NAME), UNINSTALL) in w.log.completed
  {
    FinishedKindSound(job.conditions);
  }

  lemma JobStepSound(w: World, th: Thread, reply: Reply)
    requires CoreSound(w) && ThreadSound(w, th) && (th.JobStart? || th.JobRead? || th.JobWrite?)
    ensures CallSound(w, JobStep(w, th, reply))
  {
    GrowsReflexive(w);
    hide Grows, StoreSound, LabelsBacked;
    match th {
      case JobStart(name) =>
      case JobRead(job) =>
        CompletedWork(w, job);
        hide JobSound, JobVerdict;
        if reply.SawNode? && (job.template.nodeName, reply.node) in w.log.nodes {
          assert NodeEntrySound(w, job.template.nodeName, reply.node);
        }
      case JobWrite(node, local, shim) =>
        WriteNodeSound(w, node, local, shim, reply);
    }
  }

  /** Writing the status keeps the caller's copy faithful. */
  lemma StatusSound(w: World, s: string, seen: Shim, status: Status, reply: Reply)
    requires CoreSound(w) && ShimCopy(w, s, seen)
    ensures var (w', seen') := WriteShim(w, s, seen.(status := status), reply);
            Grows(w, w') && CoreSound(w') && w'.threads == w.threads && ShimCopy(w', s, seen')
  {
    WriteShimSound(w, s, seen.(status := status), reply);
    hide Grows, CoreSound;
  }

  lemma PassStepSound(w: World, th: Thread, reply: Reply)
    requires CoreSound(w) && ThreadSound(w, th)
    requires th.PassStart? || th.PassRead? || th.PassListed? || th.PassStatus? || th.PassClass?
    ensures CallSound(w, PassStep(w, th, reply))
  {
    match th {
      case PassStart(s) =>
        assert reply.SawShim? && (s, reply.shim) in w.log.shims ==> ShimEntrySound(w, s, reply.shim);
      case PassRead(s, seen) =>
      case PassListed(s, seen, listed) =>
        StatusSound(w, s, seen, Status(|listed|, ReadyCount(s, listed)), reply);
      case PassStatus(s, seen, listed) =>
        assert reply.SawShim? && (s, reply.shim) in w.log.shims ==> ShimEntrySound(w, s, reply.shim);
      case PassClass(p) =>
    }
  }

  lemma EndNodeSound(w: World, p: Pass, o: Outcome)
    requires PassSound(w, p) && AtNode(p)
    requires o.Skipped? ==> Skips(p.op, p.shim, p.listed[|p.outcomes|].node.labels)
    requires o.Applied? ==> NextWork(p) in w.log.applied
    requires o.Gone? ==> NextWork(p) in w.log.missing
    ensures ThreadSound(w, EndNode(p, o))
  {
    var q := p.(outcomes := p.outcomes + [o]);
    if !(p.op == UNINSTALL && o.Errored?) {
      forall i | 0 <= i < |q.outcomes| ensures NodeDone(w, q, i) {
        if i < |p.outcomes| {
          assert NodeDone(w, p, i);
        }
      }
    }
  }

  lemma HeardSound(w: World, p: Pass, reply: Reply)
    requires CoreSound(w) && AtNode(p)
    ensures Grows(w, Heard(w, p, reply)) && CoreSound(Heard(w, p, reply)) && Heard(w, p, reply).threads == w.threads
    ensures reply == Refused(true) ==> NextWork(p) in Heard(w, p, reply).log.missing
  {
    hide WorkOf, Describes;
    var w' := Heard(w, p, reply);
    BeliefsStable(w, w');
    assert forall n, node :: NodeEntrySound(w, n, node) ==> NodeEntrySound(w', n, node);
    assert forall s, shim :: ShimEntrySound(w, s, shim) ==> ShimEntrySound(w', s, shim);
  }

  lemma LoopStepSound(w: World, p: Pass, reply: Reply)
    requires CoreSound(w) && PassSound(w, p)
    ensures CallSound(w, LoopStep(w, p, reply))
  {
    if AtNode(p) {
      var (w', th) := LoopStep(w, p, reply);
      HeardSound(w, p, reply);
      PassStable(w, Heard(w, p, reply), p);
      if Skips(p.op, p.shim, p.listed[|p.outcomes|].node.labels) {
        EndNodeSound(w, p, Skipped);
      } else if reply.SawNode? && (NextNode(p), reply.node) in w.log.nodes {
        EndNodeSound(w, p, Errored);
        assert NodeEntrySound(w, NextNode(p), reply.node);
      } else {
        EndNodeSound(Heard(w, p, reply), p, if reply == Refused(true) then Gone else Errored);
      }
    }
  }

  lemma DeployingStable(w: World, w': World, p: Pass, local: Node)
    requires Grows(w, w') && Deploying(w, p, local)
    ensures Deploying(w', p, local) && Deploying(w', p, Relabel(local, p.shim, FAILED))
  {
    PassStable(w, w', p);
    BeliefsStable(w, w');
    hide Grows, PassSound;
    var failed := Relabel(local, p.shim, FAILED);
    assert failed.labels - {p.shim} == local.labels - {p.shim};
  }

  /** World after an accepted apply. */
  function AfterApply(w: World, p: Pass, local: Node): World
    requires AtNode(p)
  {
    var name := JobName(NextNode(p), p.shim, p.op);
    var w' := RecordJob(w, name, AppliedJob(w.st, name, DeployManifest(p, local)));
    w'.(log := w'.log.(applied := w'.log.applied + {NextWork(p)}))
  }

  lemma ApplySound(w: World, p: Pass, local: Node)
    requires CoreSound(w) && Deploying(w, p, local)
    requires JobAccepts(w.st, JobName(NextNode(p), p.shim, p.op), DeployManifest(p, local))
    ensures Grows(w, AfterApply(w, p, local)) && CoreSound(AfterApply(w, p, local))
    ensures AfterApply(w, p, local).threads == w.threads && NextWork(p) in AfterApply(w, p, local).log.applied
  {
    assert AtNode(p);
    hide JobName, DeployManifest, AppliedJob, WorkOf, Describes, LogSound, StoreSound, LabelsBacked, Deploying;
    var name := JobName(NextNode(p), p.shim, p.op);
    ManifestSound(w, p, local);
    var v := RecordJob(w, name, AppliedJob(w.st, name, DeployManifest(p, local)));
    RecordJobSound(w, name, AppliedJob(w.st, name, DeployManifest(p, local)), {}, {NextWork(p)});
    assert v.log.completed + {} == v.log.completed;
  }

  lemma PatchStepSound(w: World, p: Pass, local: Node, reply: Reply)
    requires CoreSound(w) && Deploying(w, p, local)
    ensures CallSound(w, PatchStep(w, p, local, reply))
  {
    hide Grows, CoreSound, JobName, DeployManifest, AppliedJob, JobAccepts, RecordJob;
    var name, manifest := JobName(NextNode(p), p.shim, p.op), DeployManifest(p, local);
    GrowsReflexive(w);
    if reply.NoManifest? && p.op == INSTALL {
      EndNodeSound(w, p, Errored);
    } else if Lands(reply) && JobAccepts(w.st, name, manifest) {
      ApplySound(w, p, local);
      DeployingStable(w, AfterApply(w, p, local), p, local);
      EndNodeSound(AfterApply(w, p, local), p, Applied);
    } else {
      HeardSound(w, p, reply);
      DeployingStable(w, Heard(w, p, reply), p, local);
    }
  }

  lemma GrowsReflexive(w: World)
    ensures Grows(w, w)
  {
  }

  /** Whatever is stored under the Job's name, an accepted apply leaves a sound Job there. */
  lemma ManifestSound(w: World, p: Pass, local: Node)
    requires CoreSound(w) && Deploying(w, p, local)
    ensures var name, manifest := JobName(NextNode(p), p.shim, p.op), DeployManifest(p, local);
            JobAccepts(w.st, name, manifest) ==> JobSound(w, AppliedJob(w.st, name, manifest))
  {
    var name, manifest := JobName(NextNode(p), p.shim, p.op), DeployManifest(p, local);
    var found := Resolve(p.local.spec.fetch, local.os, local.arch);
    ManifestDescribes(p.shim, p.local.spec, NextNode(p), p.op, if p.op == INSTALL && found.Some? then found.value else NO_ARTIFACT);
    assert WorkOf(manifest) == NextWork(p);
    if name in w.st.jobs && JobAccepts(w.st, name, manifest) {
      var stored := w.st.jobs[name];
      assert (name, stored) in w.log.jobs && JobSound(w, stored);
      MergeDescribes(stored, manifest, WorkOf(stored), NextWork(p));
    }
  }

  lemma DeployStepSound(w: World, th: Thread, reply: Reply)
    requires CoreSound(w) && ThreadSound(w, th) && (th.Fetched? || th.Labelled? || th.PatchFailed?)
    ensures CallSound(w, DeployStep(w, th, reply))
  {
    var p, local := th.pass, th.local;
    match th {
      case Fetched(_, _) =>
        WriteNodeSound(w, NextNode(p), local, p.shim, reply);
        PassStable(w, WriteNode(w, NextNode(p), local, reply).0, p);
      case Labelled(_, _) =>
        PatchStepSound(w, p, local, reply);
      case PatchFailed(_, _, notFound) =>
        WriteNodeSound(w, NextNode(p), local, p.shim, reply);
        var w' := WriteNode(w, NextNode(p), local, reply).0;
        PassStable(w, w', p);
        EndNodeSound(w', p, if notFound then Gone else Errored);
    }
  }

  lemma FinalStepSound(w: World, th: Thread, reply: Reply)
    requires CoreSound(w) && ThreadSound(w, th) && (th.Removing? || th.Ensuring?)
    ensures CallSound(w, FinalStep(w, th, reply))
  {
    hide CoreSound, Grows, NodeDone;
    GrowsReflexive(w);
    match th {
      case Removing(p) =>
        WriteShimSound(w, p.shim, p.local.(finalizers := p.local.finalizers - {FINALIZER}), reply);
      case Ensuring(s, seen) =>
        WriteShimSound(w, s, seen.(finalizers := seen.finalizers + {FINALIZER}), reply);
    }
  }

  lemma EndedSound(w: World)
    requires CoreSound(w)
    ensures CallSound(w, (w, Ended))
  {
    GrowsReflexive(w);
  }

  lemma ThreadStepSound(w: World, th: Thread, reply: Reply)
    requires CoreSound(w) && ThreadSound(w, th)
    ensures WellPlaced(th) && CallSound(w, ThreadStep(w, th, reply))
  {
    hide CoreSound, Grows, CallSound, JobStep, LoopStep, DeployStep, FinalStep, PassStep;
    assert CallSound(w, (w, Ended)) by {
      EndedSound(w);
    }
    match th {
      case JobStart(_) => JobStepSound(w, th, reply);
      case JobRead(_) => JobStepSound(w, th, reply);
      case JobWrite(_, _, _) => JobStepSound(w, th, reply);
      case PassLoop(p) => LoopStepSound(w, p, reply);
      case Fetched(_, _) => DeployStepSound(w, th, reply);
      case Labelled(_, _) => DeployStepSound(w, th, reply);
      case PatchFailed(_, _, _) => DeployStepSound(w, th, reply);
      case Removing(_) => FinalStepSound(w, th, reply);
      case Ensuring(_, _) => FinalStepSound(w, th, reply);
      case Ended =>
      case _ => PassStepSound(w, th, reply);
    }
  }

  // ---------------------------------------------------------------- the environment

  /** Something went away: fewer objects are stored, everything else is as before. */
  lemma RemovalSound(w: World, w': World)
    requires CoreSound(w) && w'.log == w.log && w'.threads == w.threads && w'.st.clock == w.st.clock
    requires forall n :: n in w'.st.nodes ==> n in w.st.nodes && w'.st.nodes[n] == w.st.nodes[n]
    requires forall j :: j in w'.st.jobs ==> j in w.st.jobs && w'.st.jobs[j] == w.st.jobs[j]
    requires forall s :: s in w'.st.shims ==> s in w.st.shims && w'.st.shims[s] == w.st.shims[s]
    ensures Grows(w, w') && CoreSound(w')
  {
    hide WorkOf, Describes;
    BeliefsStable(w, w');
    assert forall n, node :: NodeEntrySound(w, n, node) ==> NodeEntrySound(w', n, node);
    assert forall s, shim :: ShimEntrySound(w, s, shim) ==> ShimEntrySound(w', s, shim);
  }

  lemma ConditionSound(w: World, name: string, c: Condition)
    requires CoreSound(w) && name in w.st.jobs
    ensures var w' := EnvironmentStep(w, JobCondition(name, c));
            Grows(w, w') && CoreSound(w') && w'.threads == w.threads
  {
    var stored := w.st.jobs[name];
    assert (name, stored) in w.log.jobs && JobSound(w, stored);
    var job := stored.(conditions := stored.conditions + [c]);
    assert WorkOf(job) == WorkOf(stored);
    var done := if c == Condition(Complete, true) then {WorkOf(job)} else {};
    RecordJobSound(w, name, job, done, {});
    var v := RecordJob(w, name, job);
    assert v.log.applied + {} == v.log.applied && v.log.completed + {} == v.log.completed;
  }

  lemma NodeStepSound(w: World, s: Step)
    requires CoreSound(w) && (s.NodeAdded? || s.NodeRelabelled?)
    ensures var w' := EnvironmentStep(w, s);
            Grows(w, w') && CoreSound(w') && w'.threads == w.threads
  {
    var w' := EnvironmentStep(w, s);
    if w' != w {
      assert NodeChange(w, w', s.name);
      NodeChangeSound(w, w', s.name);
    } else {
      GrowsReflexive(w);
    }
  }

  lemma ShimStepSound(w: World, s: Step)
    requires CoreSound(w) && (s.ShimCreated? || s.ShimEdited? || s.ShimDeleted?)
    ensures var w' := EnvironmentStep(w, s);
            Grows(w, w') && CoreSound(w') && w'.threads == w.threads
  {
    var w' := EnvironmentStep(w, s);
    if s.ShimDeleted? && s.name in w.st.shims && w.st.shims[s.name].finalizers == {} {
      RemovalSound(w, w');
    } else if w' == w {
      GrowsReflexive(w);
    } else {
      assert ShimChange(w, w', s.name);
      ShimChangeSound(w, w', s.name);
    }
  }

  lemma EnvironmentSound(w: World, s: Step)
    requires Inv(w) && !s.Call?
    ensures Inv(EnvironmentStep(w, s)) && Grows(w, EnvironmentStep(w, s))
  {
    var w' := EnvironmentStep(w, s);
    match s {
      case StartJobPass(_, _) => SameStoreSound(w, w');
      case StartShimPass(_, _) => SameStoreSound(w, w');
      case JobCondition(name, c) =>
        if name in w.st.jobs { ConditionSound(w, name, c); } else { GrowsReflexive(w); }
      case JobRemoved(_) => RemovalSound(w, w');
      case NodeRemoved(_) => RemovalSound(w, w');
      case NodeAdded(_, _, _, _) => NodeStepSound(w, s);
      case NodeRelabelled(_, _) => NodeStepSound(w, s);
      case ShimCreated(_, _) => ShimStepSound(w, s);
      case ShimEdited(_, _) => ShimStepSound(w, s);
      case ShimDeleted(_) => ShimStepSound(w, s);
    }
    hide Grows, CoreSound, EnvironmentStep, ThreadSound;
    forall t | t in w'.threads ensures ThreadSound(w', w'.threads[t]) {
      StartedSound(w, s, t);
    }
  }

  lemma SameStoreSound(w: World, w': World)
    requires CoreSound(w) && w'.st == w.st && w'.log == w.log
    ensures Grows(w, w') && CoreSound(w')
  {
    hide WorkOf, Describes;
    BeliefsStable(w, w');
    assert forall n, node :: NodeEntrySound(w, n, node) ==> NodeEntrySound(w', n, node);
    assert forall s, shim :: ShimEntrySound(w, s, shim) ==> ShimEntrySound(w', s, shim);
  }

  lemma StartedSound(w: World, s: Step, t: nat)
    requires Inv(w) && !s.Call? && Grows(w, EnvironmentStep(w, s)) && t in EnvironmentStep(w, s).threads
    ensures ThreadSound(EnvironmentStep(w, s), EnvironmentStep(w, s).threads[t])
  {
    hide Grows, CoreSound;
    var w' := EnvironmentStep(w, s);
    if (s.StartJobPass? || s.StartShimPass?) && t == s.t {
    } else {
      assert w'.threads[t] == w.threads[t];
      ThreadStable(w, w', w.threads[t]);
    }
  }

  // ---------------------------------------------------------------- every step, every run

  lemma CallKeepsInv(w: World, t: nat, reply: Reply)
    requires Inv(w) && t in w.threads
    ensures Inv(Next(w, Call(t, reply))) && Grows(w, Next(w, Call(t, reply)))
  {
    var th := w.threads[t];
    ThreadStepSound(w, th, reply);
    var (w1, th') := ThreadStep(w, th, reply);
    var w' := w1.(threads := w1.threads[t := th']);
    SameStoreSound(w1, w');
    GrowsTransitive(w, w1, w');
    hide Grows, CoreSound, ThreadStep, ThreadSound;
    forall u | u in w'.threads ensures ThreadSound(w', w'.threads[u]) {
      if u == t {
        ThreadStable(w1, w', th');
      } else {
        ThreadStable(w, w', w.threads[u]);
      }
    }
  }

  lemma GrowsTransitive(a: World, b: World, d: World)
    requires Grows(a, b) && Grows(b, d)
    ensures Grows(a, d)
  {
  }

  /** Every step of every actor keeps the invariant. */
  lemma NextKeepsInv(w: World, s: Step)
    requires Inv(w)
    ensures Inv(Next(w, s)) && Grows(w, Next(w, s))
  {
    if !s.Call? {
      EnvironmentSound(w, s);
    } else if s.t in w.threads {
      CallKeepsInv(w, s.t, s.reply);
    } else {
      GrowsReflexive(w);
    }
  }

  lemma {:induction false} RunKeepsInv(w: World, steps: seq<Step>)
    requires Inv(w)
    ensures Inv(Run(w, steps)) && Grows(w, Run(w, steps))
    decreases |steps|
  {
    if steps == [] {
      GrowsReflexive(w);
    } else {
      NextKeepsInv(w, steps[0]);
      RunKeepsInv(Next(w, steps[0]), steps[1..]);
      GrowsTransitive(w, Next(w, steps[0]), Run(w, steps));
    }
  }

  /** In every interleaving, a node is labelled provisioned for a shim only if a Job that ran the
      install of exactly that shim on exactly that node has completed. */
  lemma ProvisionedOnlyAfterInstall(w: World, steps: seq<Step>, node: string, shim: string)
    requires Initial(w)
    ensures var r := Run(w, steps);
            node in r.st.nodes && Lookup(r.st.nodes[node].labels, shim) == PROVISIONED ==>
              Work(node, shim, INSTALL) in r.log.completed
  {
    InitialInv(w);
    RunKeepsInv(w, steps);
    assert "" != PROVISIONED;
  }
}
