/** The bodies of the two reconcilers executed without interleaving: deploying a Job on a node,
    the recreate rollout, the deletion loop, the status count and the Job controller's verdict. */
module Controllers {
  import opened Wrappers
  import opened Manifest
  import opened Api
  import opened Protocol

  /** `Failure(true)` is an error for which `IsNotFound` holds. */
  datatype Result = Success | Failure(notFound: bool)

  /** The API's answer to a write: carried out, refused, or carried out while the caller sees an
      error. */
  datatype Answer = Done | Denied(notFound: bool) | Unheard

  /** Answers to one deployment; a read that is refused says whether the node is not there. */
  datatype DeployIO = DeployIO(get: Option<bool>, update: Answer, manifest: bool, patch: Answer, mark: Answer)

  /** Every call is served. */
  const SERVED := DeployIO(None, Done, true, Done, Done)

  /** The label `failed` is stored: not when the update of the label went unheard, because the
      caller's copy is then out of date. */
  predicate Marks(io: DeployIO) {
    !io.mark.Denied? && !io.update.Unheard?
  }

  function MarkFailed(st: Store, name: string, labels: Labels, io: DeployIO): Store
    requires name in st.nodes
  {
    if Marks(io) then PutNode(st, name, labels) else st
  }

  function ManifestFor(shim: string, spec: Spec, name: string, node: Node, op: string): Job {
    var found := Resolve(spec.fetch, node.os, node.arch);
    JobManifest(shim, spec, name, op, if op == INSTALL && found.Some? then found.value else NO_ARTIFACT)
  }

  /** The end of a deployment: the apply, and the label `failed` if it fails. */
  function ApplyJob(st: Store, name: string, job: string, manifest: Job, failed: Labels, io: DeployIO): (Store, Result)
    requires name in st.nodes
  {
    if !io.patch.Denied? && JobAccepts(st, job, manifest) then
      var applied := PutJob(st, job, AppliedJob(st, job, manifest));
      if io.patch.Done? then (applied, Success) else (MarkFailed(applied, name, failed, io), Failure(false))
    else (MarkFailed(st, name, failed, io), Failure(io.patch == Denied(true)))
  }

  /** `deployJobOnNode`. */
  function Deploy(st: Store, shim: string, spec: Spec, name: string, op: string, io: DeployIO): (Store, Result) {
    if io.get.Some? then (st, Failure(io.get.value))
    else if name !in st.nodes then (st, Failure(true))
    else
      var node := st.nodes[name];
      if op == INSTALL && Resolve(spec.fetch, node.os, node.arch).None? then (st, Failure(false))
      else
        var labelled := if io.update.Denied? then st else PutNode(st, name, node.labels[shim := StartLabel(op)]);
        if op == INSTALL && !io.manifest then (labelled, Failure(false))
        else ApplyJob(labelled, name, JobName(name, shim, op), ManifestFor(shim, spec, name, node, op), node.labels[shim := FAILED], io)
  }

  /** An apply looks at the stored Jobs only. */
  lemma SameJobs(a: Store, b: Store, job: string, manifest: Job)
    requires a.jobs == b.jobs
    ensures JobAccepts(a, job, manifest) == JobAccepts(b, job, manifest)
    ensures AppliedJob(a, job, manifest) == AppliedJob(b, job, manifest)
  {
  }

  /** A deployment leaves the Jobs alone or carries out its apply. */
  lemma DeployJobs(st: Store, shim: string, spec: Spec, name: string, op: string, io: DeployIO)
    requires name in st.nodes
    ensures var jobs := Deploy(st, shim, spec, name, op, io).0.jobs;
            var job, manifest := JobName(name, shim, op), ManifestFor(shim, spec, name, st.nodes[name], op);
            jobs == st.jobs || (JobAccepts(st, job, manifest) && jobs == st.jobs[job := AppliedJob(st, job, manifest)])
  {
    hide JobName, ManifestFor, Resolve, Marks, JobAccepts, AppliedJob;
    SameJobs(st, PutNode(st, name, st.nodes[name].labels[shim := StartLabel(op)]), JobName(name, shim, op),
             ManifestFor(shim, spec, name, st.nodes[name], op));
  }

  // ---------------------------------------------------------------- locality of a deployment

  /** The two stores agree on what a deployment on `name` looks at. */
  ghost predicate AgreeAt(a: Store, b: Store, name: string, job: string) {
    && (name in a.nodes <==> name in b.nodes)
    && (name in a.nodes ==> a.nodes[name].(version := 0) == b.nodes[name].(version := 0))
    && (job in a.jobs <==> job in b.jobs) && (job in a.jobs ==> a.jobs[job] == b.jobs[job])
  }

  lemma PutNodeAgrees(a: Store, b: Store, name: string, job: string, labels: Labels)
    requires AgreeAt(a, b, name, job) && name in a.nodes
    ensures AgreeAt(PutNode(a, name, labels), PutNode(b, name, labels), name, job)
  {
  }

  lemma PutJobAgrees(a: Store, b: Store, name: string, job: string, value: Job)
    requires AgreeAt(a, b, name, job)
    ensures AgreeAt(PutJob(a, job, value), PutJob(b, job, value), name, job)
  {
  }

  lemma MarkAgrees(a: Store, b: Store, name: string, job: string, labels: Labels, io: DeployIO)
    requires AgreeAt(a, b, name, job) && name in a.nodes
    ensures AgreeAt(MarkFailed(a, name, labels, io), MarkFailed(b, name, labels, io), name, job)
  {
    PutNodeAgrees(a, b, name, job, labels);
  }

  lemma ApplyAgrees(a: Store, b: Store, name: string, job: string, manifest: Job, failed: Labels, io: DeployIO)
    requires AgreeAt(a, b, name, job) && name in a.nodes
    ensures name in b.nodes
    ensures ApplyJob(a, name, job, manifest, failed, io).1 == ApplyJob(b, name, job, manifest, failed, io).1
    ensures AgreeAt(ApplyJob(a, name, job, manifest, failed, io).0, ApplyJob(b, name, job, manifest, failed, io).0, name, job)
  {
    assert JobAccepts(a, job, manifest) == JobAccepts(b, job, manifest);
    var value := AppliedJob(a, job, manifest);
    assert value == AppliedJob(b, job, manifest);
    assert name in PutJob(a, job, value).nodes && name in PutJob(b, job, value).nodes && name in b.nodes;
    hide AgreeAt, JobAccepts, AppliedJob, PutNode, PutJob, MarkFailed;
    PutJobAgrees(a, b, name, job, value);
    MarkAgrees(a, b, name, job, failed, io);
    MarkAgrees(PutJob(a, job, value), PutJob(b, job, value), name, job, failed, io);
  }

  lemma SameReading(a: Store, b: Store, spec: Spec, shim: string, name: string, op: string, job: string)
    requires AgreeAt(a, b, name, job) && name in a.nodes
    ensures name in b.nodes && a.nodes[name].labels == b.nodes[name].labels
    ensures a.nodes[name].os == b.nodes[name].os && a.nodes[name].arch == b.nodes[name].arch
    ensures ManifestFor(shim, spec, name, a.nodes[name], op) == ManifestFor(shim, spec, name, b.nodes[name], op)
  {
    assert a.nodes[name].(version := 0) == b.nodes[name].(version := 0);
    hide JobManifest, Resolve;
  }

  /** A deployment reads and writes its own node and Job only. */
  lemma DeployIsLocal(a: Store, b: Store, shim: string, spec: Spec, name: string, op: string, io: DeployIO)
    requires AgreeAt(a, b, name, JobName(name, shim, op))
    ensures Deploy(a, shim, spec, name, op, io).1 == Deploy(b, shim, spec, name, op, io).1
    ensures AgreeAt(Deploy(a, shim, spec, name, op, io).0, Deploy(b, shim, spec, name, op, io).0, name, JobName(name, shim, op))
  {
    hide JobName, ManifestFor, Resolve, ApplyJob;
    if name in a.nodes {
      var job, labels := JobName(name, shim, op), a.nodes[name].labels;
      SameReading(a, b, spec, shim, name, op, job);
      PutNodeAgrees(a, b, name, job, labels[shim := StartLabel(op)]);
      var a2 := if io.update.Denied? then a else PutNode(a, name, labels[shim := StartLabel(op)]);
      var b2 := if io.update.Denied? then b else PutNode(b, name, labels[shim := StartLabel(op)]);
      ApplyAgrees(a2, b2, name, job, ManifestFor(shim, spec, name, a.nodes[name], op), labels[shim := FAILED], io);
    }
  }

  lemma DeployLeavesOthers(st: Store, shim: string, spec: Spec, name: string, op: string, io: DeployIO, other: string, job: string)
    requires other != name && job != JobName(name, shim, op)
    ensures AgreeAt(st, Deploy(st, shim, spec, name, op, io).0, other, job)
  {
    hide JobName, ManifestFor, Resolve, JobAccepts, AppliedJob, Marks;
  }

  /** Two shims that differ only in where they fetch from uninstall alike: same Job, same labels,
      same result, even where no artifact resolves. */
  lemma UninstallIgnoresFetch(st: Store, shim: string, spec: Spec, fetch: Fetch, name: string, io: DeployIO)
    ensures Deploy(st, shim, spec, name, UNINSTALL, io) == Deploy(st, shim, spec.(fetch := fetch), name, UNINSTALL, io)
  {
    assert INSTALL != UNINSTALL;
  }

  /** What a deployment leaves behind. Success: the operation's label and a Job that carries out
      exactly this operation here. No artifact: nothing at all. A manifest error: the pending label
      without a new Job. A failed apply: the label `failed`, and no new Job unless the apply was
      carried out unheard. */
  lemma DeployOutcome(st: Store, shim: string, spec: Spec, name: string, op: string, io: DeployIO)
    requires (op == INSTALL || op == UNINSTALL) && name in st.nodes && io.get.None?
    requires JobName(name, shim, op) in st.jobs ==>
               exists w :: Describes(st.jobs[JobName(name, shim, op)], w)
    ensures var (st', r) := Deploy(st, shim, spec, name, op, io);
            var job, value := JobName(name, shim, op), if op == INSTALL then "pending" else "uninstall";
            var resolved := op == INSTALL ==> Resolve(spec.fetch, st.nodes[name].os, st.nodes[name].arch).Some?;
            && name in st'.nodes
            && (!resolved ==> st' == st && r == Failure(false))
            && (r.Success? ==> job in st'.jobs && Describes(st'.jobs[job], Work(name, shim, op)))
            && (r.Failure? ==> st'.jobs == st.jobs
                               || (io.patch.Unheard? && job in st'.jobs && Describes(st'.jobs[job], Work(name, shim, op))))
            && (resolved && !io.update.Denied? && (r.Success? || (op == INSTALL && !io.manifest) || !Marks(io)) ==>
                  Lookup(st'.nodes[name].labels, shim) == value)
            && (resolved && r.Failure? && (op == INSTALL ==> io.manifest) && Marks(io) ==>
                  Lookup(st'.nodes[name].labels, shim) == "failed")
  {
    hide Describes, JobName, ManifestFor, Resolve, Merge, JobAccepts, AppliedJob, Marks;
    AppliedDescribes(st, shim, spec, name, op);
    SameJobs(st, PutNode(st, name, st.nodes[name].labels[shim := StartLabel(op)]), JobName(name, shim, op),
             ManifestFor(shim, spec, name, st.nodes[name], op));
  }

  /** Exactly how a deployment ends: it succeeds if the node can be read, an install has an artifact and a
      manifest, and the apply is accepted and heard; it is a NotFound error if the node or the apply is
      answered so. A refused label update makes no difference. */
  lemma DeployResult(st: Store, shim: string, spec: Spec, name: string, op: string, io: DeployIO)
    ensures var r := Deploy(st, shim, spec, name, op, io).1;
            var read := io.get.None? && name in st.nodes;
            var ready := read && (op == INSTALL ==> Resolve(spec.fetch, st.nodes[name].os, st.nodes[name].arch).Some? && io.manifest);
            && (r.Success? <==> ready && io.patch.Done?
                                && JobAccepts(st, JobName(name, shim, op), ManifestFor(shim, spec, name, st.nodes[name], op)))
            && (r == Failure(true) <==> io.get == Some(true) || (io.get.None? && name !in st.nodes) || (ready && io.patch == Denied(true)))
  {
    hide JobName, ManifestFor, Resolve, JobAccepts, AppliedJob, Marks;
    if name in st.nodes {
      SameJobs(st, PutNode(st, name, st.nodes[name].labels[shim := StartLabel(op)]), JobName(name, shim, op),
               ManifestFor(shim, spec, name, st.nodes[name], op));
    }
  }

  /** Whatever is stored under the Job's name, an accepted apply leaves the Job of this operation. */
  lemma AppliedDescribes(st: Store, shim: string, spec: Spec, name: string, op: string)
    requires (op == INSTALL || op == UNINSTALL) && name in st.nodes
    requires JobName(name, shim, op) in st.jobs ==>
               exists w :: Describes(st.jobs[JobName(name, shim, op)], w)
    ensures var job, manifest := JobName(name, shim, op), ManifestFor(shim, spec, name, st.nodes[name], op);
            JobAccepts(st, job, manifest) ==> Describes(AppliedJob(st, job, manifest), Work(name, shim, op))
  {
    var job, manifest := JobName(name, shim, op), ManifestFor(shim, spec, name, st.nodes[name], op);
    DescribedManifest(shim, spec, name, st.nodes[name], op);
    if job in st.jobs && JobAccepts(st, job, manifest) {
      var w :| Describes(st.jobs[job], w);
      MergeDescribes(st.jobs[job], manifest, w, Work(name, shim, op));
    }
    hide Describes, JobName, ManifestFor, Resolve, Merge;
  }

  lemma DescribedManifest(shim: string, spec: Spec, name: string, node: Node, op: string)
    requires op == INSTALL || op == UNINSTALL
    ensures var m := ManifestFor(shim, spec, name, node, op);
            && Describes(m, Work(name, shim, op)) && SHIM_NAME in m.labels && OPERATION in m.annotations
  {
    var found := Resolve(spec.fetch, node.os, node.arch);
    ManifestDescribes(shim, spec, name, op, if op == INSTALL && found.Some? then found.value else NO_ARTIFACT);
  }

  /** The Job that a first install creates downloads what the spec says for the node: the URL alone,
      without a digest, where no platforms are listed, and else the artifact of the chosen platform. */
  lemma DeployCreates(st: Store, shim: string, spec: Spec, name: string, io: DeployIO)
    requires name in st.nodes && JobName(name, shim, INSTALL) !in st.jobs && Deploy(st, shim, spec, name, INSTALL, io).1.Success?
    ensures var jobs, node := Deploy(st, shim, spec, name, INSTALL, io).0.jobs, st.nodes[name];
            && JobName(name, shim, INSTALL) in jobs
            && var job := jobs[JobName(name, shim, INSTALL)];
               && job.conditions == [] && job.template.options == spec.options && job.template.initEnv.Some?
               && Resolve(spec.fetch, node.os, node.arch).Some?
               && Env("SHIM_LOCATION", Resolve(spec.fetch, node.os, node.arch).value.location) in job.template.initEnv.value
               && (spec.fetch.platforms == [] ==>
                     && spec.fetch.anonHttp.Some?
                     && job.template.initEnv.value == [Env("SHIM_NAME", shim), Env("SHIM_LOCATION", spec.fetch.anonHttp.value)])
  {
    var node := st.nodes[name];
    var labelled := if io.update.Denied? then st else PutNode(st, name, node.labels[shim := StartLabel(INSTALL)]);
    SameJobs(st, labelled, JobName(name, shim, INSTALL), ManifestFor(shim, spec, name, node, INSTALL));
    assert Resolve(spec.fetch, node.os, node.arch).Some?;
    ArtifactReachesJob(shim, spec, name, node.os, node.arch);
    hide Resolve, JobName, Args, InitEnv, Serves;
  }

  // ---------------------------------------------------------------- rollout

  /** Visiting one listed node in a rollout; `None` when the node is skipped. */
  function Visit(st: Store, shim: string, spec: Spec, node: Listed, io: DeployIO): (Store, Option<Result>) {
    if Skips(INSTALL, shim, node.node.labels) then (st, None)
    else
      var (st', r) := Deploy(st, shim, spec, node.name, INSTALL, io);
      (st', Some(r))
  }

  /** Which nodes a rollout leaves alone. */
  lemma RolloutSkips(shim: string, labels: Labels)
    ensures Skips(INSTALL, shim, labels) <==> Lookup(labels, shim) == "provisioned" || Lookup(labels, shim) == "pending"
    ensures Skips(UNINSTALL, shim, labels) <==> shim !in labels
  {
    assert INSTALL != UNINSTALL;
  }

  /** Store and results after visiting every listed node. */
  function Rollout(st: Store, shim: string, spec: Spec, listed: seq<Listed>, ios: seq<DeployIO>): (Store, seq<Option<Result>>)
    requires |ios| == |listed|
    decreases |listed|
  {
    if listed == [] then (st, [])
    else
      var n := |listed| - 1;
      var (st', rs) := Rollout(st, shim, spec, listed[..n], ios[..n]);
      var (st'', r) := Visit(st', shim, spec, listed[n], ios[n]);
      (st'', rs + [r])
  }

  predicate AttemptFailed(r: Option<Result>) {
    r.Some? && r.value.Failure?
  }

  /** Listed nodes are different, and so are their Jobs. */
  ghost predicate DistinctTargets(shim: string, op: string, listed: seq<Listed>) {
    forall i, j :: 0 <= i < j < |listed| ==>
      listed[i].name != listed[j].name && JobName(listed[i].name, shim, op) != JobName(listed[j].name, shim, op)
  }

  lemma {:induction false} RolloutShape(st: Store, shim: string, spec: Spec, listed: seq<Listed>, ios: seq<DeployIO>)
    requires |ios| == |listed|
    ensures |Rollout(st, shim, spec, listed, ios).1| == |listed|
    decreases |listed|
  {
    if listed != [] {
      RolloutShape(st, shim, spec, listed[..|listed| - 1], ios[..|listed| - 1]);
    }
  }

  /** Nodes that are not listed are as before the rollout. */
  lemma {:induction false} RolloutLeavesOthers(st: Store, shim: string, spec: Spec, listed: seq<Listed>, ios: seq<DeployIO>, other: string, job: string)
    requires |ios| == |listed|
    requires forall i :: 0 <= i < |listed| ==> listed[i].name != other && JobName(listed[i].name, shim, INSTALL) != job
    ensures AgreeAt(st, Rollout(st, shim, spec, listed, ios).0, other, job)
    decreases |listed|
  {
    if listed != [] {
      var n := |listed| - 1;
      RolloutLeavesOthers(st, shim, spec, listed[..n], ios[..n], other, job);
      DeployLeavesOthers(Rollout(st, shim, spec, listed[..n], ios[..n]).0, shim, spec, listed[n].name, INSTALL, ios[n], other, job);
    }
  }

  /** Each listed node ends up, and is reported, exactly as if it had been visited alone: no
      failure on one node stops or changes what happens on another. */
  lemma {:induction false} RolloutIsPerNode(st: Store, shim: string, spec: Spec, listed: seq<Listed>, ios: seq<DeployIO>, i: nat)
    requires |ios| == |listed| && i < |listed| && DistinctTargets(shim, INSTALL, listed)
    ensures var (st', rs) := Rollout(st, shim, spec, listed, ios);
            var (alone, r) := Visit(st, shim, spec, listed[i], ios[i]);
            |rs| == |listed| && rs[i] == r && AgreeAt(alone, st', listed[i].name, JobName(listed[i].name, shim, INSTALL))
    decreases |listed|
  {
    hide JobName, Deploy;
    var n := |listed| - 1;
    var front, mid := listed[..n], Rollout(st, shim, spec, listed[..n], ios[..n]).0;
    RolloutShape(st, shim, spec, front, ios[..n]);
    var name, job := listed[i].name, JobName(listed[i].name, shim, INSTALL);
    if i == n {
      RolloutLeavesOthers(st, shim, spec, front, ios[..n], name, job);
      DeployIsLocal(st, mid, shim, spec, name, INSTALL, ios[n]);
    } else {
      RolloutIsPerNode(st, shim, spec, front, ios[..n], i);
      DeployLeavesOthers(mid, shim, spec, listed[n].name, INSTALL, ios[n], name, job);
    }
  }

  // ---------------------------------------------------------------- deletion

  /** Handling one listed node in a deletion. */
  function Clear(st: Store, shim: string, spec: Spec, node: Listed, io: DeployIO): (Store, Option<Result>) {
    if Skips(UNINSTALL, shim, node.node.labels) then (st, None)
    else
      var (st', r) := Deploy(st, shim, spec, node.name, UNINSTALL, io);
      (st', Some(r))
  }

  /** An error that ends the deletion loop. */
  predicate Stops(r: Option<Result>) {
    r == Some(Failure(false))
  }

  /** Store and results of the deletion loop, up to and including the first error that is not NotFound. */
  function ClearAll(st: Store, shim: string, spec: Spec, listed: seq<Listed>, ios: seq<DeployIO>): (Store, seq<Option<Result>>)
    requires |ios| == |listed|
    decreases |listed|
  {
    if listed == [] then (st, [])
    else
      var n := |listed| - 1;
      var (st', rs) := ClearAll(st, shim, spec, listed[..n], ios[..n]);
      if |rs| < n || (rs != [] && Stops(rs[|rs| - 1])) then (st', rs)
      else
        var (st'', r) := Clear(st', shim, spec, listed[n], ios[n]);
        (st'', rs + [r])
  }

  /** Deletion handles nodes in list order; it covers the whole list unless its last result is the
      first error other than NotFound. */
  lemma {:induction false} ClearAllShape(st: Store, shim: string, spec: Spec, listed: seq<Listed>, ios: seq<DeployIO>)
    requires |ios| == |listed|
    ensures var rs := ClearAll(st, shim, spec, listed, ios).1;
            && |rs| <= |listed|
            && (forall i :: 0 <= i < |rs| - 1 ==> !Stops(rs[i]))
            && (|rs| < |listed| ==> rs != [] && Stops(rs[|rs| - 1]))
            && (forall i :: 0 <= i < |rs| ==> (rs[i].None? <==> shim !in listed[i].node.labels))
    decreases |listed|
  {
    if listed != [] {
      ClearAllShape(st, shim, spec, listed[..|listed| - 1], ios[..|listed| - 1]);
    }
  }

  lemma {:induction false} ClearAllIgnoresFetch(st: Store, shim: string, spec: Spec, fetch: Fetch, listed: seq<Listed>, ios: seq<DeployIO>)
    requires |ios| == |listed|
    ensures ClearAll(st, shim, spec, listed, ios) == ClearAll(st, shim, spec.(fetch := fetch), listed, ios)
    decreases |listed|
  {
    if listed != [] {
      var n := |listed| - 1;
      ClearAllIgnoresFetch(st, shim, spec, fetch, listed[..n], ios[..n]);
      UninstallIgnoresFetch(ClearAll(st, shim, spec, listed[..n], ios[..n]).0, shim, spec, fetch, listed[n].name, ios[n]);
    }
  }

  // ---------------------------------------------------------------- the Job controller

  /** `JobReconciler.Reconcile` with every call served. */
  function Observe(st: Store, name: string): Store {
    if name !in st.jobs || SHIM_NAME !in st.jobs[name].labels then st
    else
      var job := st.jobs[name];
      var node := job.template.nodeName;
      if node !in st.nodes || JobVerdict(job).Ignore? then st
      else PutNode(st, node, ApplyVerdict(st.nodes[node].labels, job.labels[SHIM_NAME], JobVerdict(job)))
  }

  // ---------------------------------------------------------------- the status

  /** The ready count reaches the node count exactly when every listed node is provisioned. */
  lemma {:induction false} ReadyIffAll(shim: string, listed: seq<Listed>)
    ensures ReadyCount(shim, listed) <= |listed|
    ensures ReadyCount(shim, listed) == |listed| <==>
              forall i :: 0 <= i < |listed| ==> Lookup(listed[i].node.labels, shim) == PROVISIONED
  {
    if listed != [] {
      ReadyIffAll(shim, listed[1..]);
      assert forall i :: 0 < i < |listed| ==> listed[i] == listed[1..][i - 1];
    }
  }

  lemma {:induction false} ReadyCountSnoc(shim: string, listed: seq<Listed>, n: Listed)
    ensures ReadyCount(shim, listed + [n])
            == ReadyCount(shim, listed) + if Lookup(n.node.labels, shim) == PROVISIONED then 1 else 0
  {
    if listed == [] {
      assert listed + [n] == [n];
    } else {
      assert (listed + [n])[1..] == listed[1..] + [n];
      ReadyCountSnoc(shim, listed[1..], n);
    }
  }

  predicate IsReady(shim: string, listed: Listed) {
    Lookup(listed.node.labels, shim) == "provisioned"
  }

  /** The positions of the provisioned nodes among the first `n`. */
  function ReadyAt(shim: string, listed: seq<Listed>, n: nat): set<int>
    requires n <= |listed|
  {
    set i | 0 <= i < n && IsReady(shim, listed[i])
  }

  lemma ReadyAtStep(shim: string, listed: seq<Listed>, n: nat)
    requires n < |listed|
    ensures |ReadyAt(shim, listed, n + 1)|
            == |ReadyAt(shim, listed, n)| + if IsReady(shim, listed[n]) then 1 else 0
  {
    hide IsReady;
    var before, after := ReadyAt(shim, listed, n), ReadyAt(shim, listed, n + 1);
    assert n !in before;
    if IsReady(shim, listed[n]) {
      assert after == before + {n};
    } else {
      assert after == before;
    }
  }

  lemma {:induction false} ReadyPrefix(shim: string, listed: seq<Listed>, n: nat)
    requires n <= |listed|
    ensures ReadyCount(shim, listed[..n]) == |ReadyAt(shim, listed, n)|
  {
    if n == 0 {
      assert ReadyAt(shim, listed, 0) == {};
    } else {
      var m := n - 1;
      ReadyPrefix(shim, listed, m);
      ReadyAtStep(shim, listed, m);
      hide ReadyAt, ReadyCount;
      ReadyCountSnoc(shim, listed[..m], listed[m]);
      assert listed[..n] == listed[..m] + [listed[m]];
    }
  }

  /** The ready count is the number of listed nodes that are labelled provisioned. */
  lemma ReadyIsCount(shim: string, listed: seq<Listed>)
    ensures ReadyCount(shim, listed) == |set i | 0 <= i < |listed| && IsReady(shim, listed[i])|
  {
    ReadyPrefix(shim, listed, |listed|);
    assert listed[..|listed|] == listed;
    hide IsReady, ReadyCount;
    assert ReadyAt(shim, listed, |listed|) == set i | 0 <= i < |listed| && IsReady(shim, listed[i]);
  }

  // ---------------------------------------------------------------- the loops themselves

  /** The controllers' client, with the store it talks to. */
  class Client {
    var st: Store

    constructor (st: Store)
      ensures this.st == st
    {
      this.st := st;
    }

    /** `updateStatus`: the counts it writes. */
    method CountReady(shim: string, listed: seq<Listed>) returns (status: Status)
      ensures status == Status(|listed|, ReadyCount(shim, listed))
      ensures status.nodes == |listed| && status.ready == |set i | 0 <= i < |listed| && IsReady(shim, listed[i])|
      ensures status.ready == status.nodes <==>
                forall i :: 0 <= i < |listed| ==> Lookup(listed[i].node.labels, shim) == "provisioned"
    {
      var ready := 0;
      var i := 0;
      while i < |listed|
        invariant 0 <= i <= |listed|
        invariant ready == ReadyCount(shim, listed[..i])
      {
        ReadyCountSnoc(shim, listed[..i], listed[i]);
        assert listed[..i] + [listed[i]] == listed[..i + 1];
        if Lookup(listed[i].node.labels, shim) == PROVISIONED {
          ready := ready + 1;
        }
        i := i + 1;
      }
      assert listed[..i] == listed;
      ReadyIffAll(shim, listed);
      ReadyIsCount(shim, listed);
      return Status(|listed|, ready);
    }

    /** An update from the version that was read when `current`, else from an older one. */
    method UpdateNodeLabel(name: string, labels: Labels, current: bool, answer: Answer)
      requires name in st.nodes
      modifies this
      ensures st == if current && !answer.Denied? then PutNode(old(st), name, labels) else old(st)
    {
      if current && !answer.Denied? {
        st := PutNode(st, name, labels);
      }
    }

    method DeployJobOnNode(shim: string, spec: Spec, name: string, op: string, io: DeployIO) returns (r: Result)
      modifies this
      ensures (st, r) == Deploy(old(st), shim, spec, name, op, io)
    {
      hide JobName, JobManifest, Resolve;
      if io.get.Some? {
        return Failure(io.get.value);
      }
      if name !in st.nodes {
        return Failure(true);
      }
      var node := st.nodes[name];
      var artifact := Resolve(spec.fetch, node.os, node.arch);
      if artifact.None? && op == INSTALL {
        return Failure(false);
      }
      UpdateNodeLabel(name, node.labels[shim := StartLabel(op)], true, io.update);
      if op == INSTALL && !io.manifest {
        return Failure(false);
      }
      var job, manifest := JobName(name, shim, op), ManifestFor(shim, spec, name, node, op);
      var accepted := !io.patch.Denied? && JobAccepts(st, job, manifest);
      if accepted {
        st := PutJob(st, job, AppliedJob(st, job, manifest));
        if io.patch.Done? {
          return Success;
        }
      }
      UpdateNodeLabel(name, node.labels[shim := FAILED], !io.update.Unheard?, io.mark);
      return Failure(!accepted && io.patch == Denied(true));
    }

    /** `recreateStrategyRollout`: the joined error is nil exactly when no attempt failed. */
    method RecreateRollout(shim: string, spec: Spec, listed: seq<Listed>, ios: seq<DeployIO>)
      returns (failed: bool, results: seq<Option<Result>>)
      requires |ios| == |listed|
      modifies this
      ensures (st, results) == Rollout(old(st), shim, spec, listed, ios)
      ensures |results| == |listed| && (failed <==> exists i :: 0 <= i < |results| && AttemptFailed(results[i]))
      ensures forall i :: 0 <= i < |listed| ==>
                (results[i].None? <==> Lookup(listed[i].node.labels, shim) == "provisioned" || Lookup(listed[i].node.labels, shim) == "pending")
    {
      hide Deploy, Skips;
      failed, results := false, [];
      var i := 0;
      while i < |listed|
        invariant 0 <= i <= |listed| && |results| == i
        invariant (st, results) == Rollout(old(st), shim, spec, listed[..i], ios[..i])
        invariant failed <==> exists k :: 0 <= k < i && AttemptFailed(results[k])
        invariant forall k :: 0 <= k < i ==> (results[k].None? <==> Skips(INSTALL, shim, listed[k].node.labels))
      {
        assert listed[..i + 1][..i] == listed[..i] && ios[..i + 1][..i] == ios[..i];
        var r: Option<Result> := None;
        if !Skips(INSTALL, shim, listed[i].node.labels) {
          var attempt := DeployJobOnNode(shim, spec, listed[i].name, INSTALL, ios[i]);
          r := Some(attempt);
          failed := failed || attempt.Failure?;
        }
        ghost var before := results;
        results := results + [r];
        assert results[i] == r && forall k :: 0 <= k < i ==> results[k] == before[k];
        i := i + 1;
      }
      assert listed[..i] == listed && ios[..i] == ios;
      forall k | 0 <= k < |listed|
        ensures Skips(INSTALL, shim, listed[k].node.labels)
                <==> Lookup(listed[k].node.labels, shim) == "provisioned" || Lookup(listed[k].node.labels, shim) == "pending"
      {
        RolloutSkips(shim, listed[k].node.labels);
      }
    }

    /** `handleDeleteShim`: stops at the first error that is not NotFound, and fails exactly then. */
    method HandleDeleteShim(shim: string, spec: Spec, listed: seq<Listed>, ios: seq<DeployIO>)
      returns (failed: bool, results: seq<Option<Result>>)
      requires |ios| == |listed|
      modifies this
      ensures (st, results) == ClearAll(old(st), shim, spec, listed, ios)
      ensures failed <==> results != [] && Stops(results[|results| - 1])
      ensures !failed ==> |results| == |listed|
    {
      hide Deploy, Skips;
      failed, results := false, [];
      var i := 0;
      while i < |listed| && !failed
        invariant 0 <= i <= |listed| && |results| == i
        invariant (st, results) == ClearAll(old(st), shim, spec, listed[..i], ios[..i])
        invariant failed <==> results != [] && Stops(results[i - 1])
        decreases |listed| - i
      {
        assert listed[..i + 1][..i] == listed[..i] && ios[..i + 1][..i] == ios[..i];
        var r: Option<Result> := None;
        if !Skips(UNINSTALL, shim, listed[i].node.labels) {
          var attempt := DeployJobOnNode(shim, spec, listed[i].name, UNINSTALL, ios[i]);
          r := Some(attempt);
        }
        failed := Stops(r);
        results := results + [r];
        i := i + 1;
      }
      StoppedEarly(old(st), shim, spec, listed, ios, i);
    }
  }

  /** After a stop the remaining nodes are not handled. */
  lemma {:induction false} StoppedEarly(st: Store, shim: string, spec: Spec, listed: seq<Listed>, ios: seq<DeployIO>, i: nat)
    requires |ios| == |listed| && i <= |listed|
    requires var rs := ClearAll(st, shim, spec, listed[..i], ios[..i]).1;
             |rs| == i && (i < |listed| ==> rs != [] && Stops(rs[i - 1]))
    ensures ClearAll(st, shim, spec, listed, ios) == ClearAll(st, shim, spec, listed[..i], ios[..i])
    decreases |listed|
  {
    if i == |listed| {
      assert listed[..i] == listed && ios[..i] == ios;
    } else {
      var n := |listed| - 1;
      assert listed[..n][..i] == listed[..i] && ios[..n][..i] == ios[..i];
      StoppedEarly(st, shim, spec, listed[..n], ios[..n], i);
    }
  }
}
