/** The uninterrupted controller bodies are what their single API calls amount to when nothing
    comes in between and reads are fresh. */
module Refinement {
  import opened Wrappers
  import opened Manifest
  import opened Api
  import opened Protocol
  import opened ProtocolSafety
  import opened Controllers

  /** An answer as the protocol's reply. */
  function ReplyOf(answer: Answer): Reply {
    match answer case Done => Ok case Denied(notFound) => Refused(notFound) case Unheard => Lost
  }

  /** The reply to the apply of a deployment. */
  function PatchReply(op: string, io: DeployIO): Reply {
    if op == INSTALL && !io.manifest then NoManifest else ReplyOf(io.patch)
  }

  function OutcomeOf(r: Result): Outcome {
    match r case Success => Applied case Failure(notFound) => if notFound then Gone else Errored
  }

  /** Thread `t` is about to deploy on the next node of its pass. */
  ghost predicate AboutToDeploy(w: World, t: nat, p: Pass) {
    && CoreSound(w) && t in w.threads && w.threads[t] == PassLoop(p) && AtNode(p)
    && !Skips(p.op, p.shim, p.listed[|p.outcomes|].node.labels)
  }

  function DeployOf(w: World, p: Pass, io: DeployIO): (Store, Result)
    requires AtNode(p)
  {
    Deploy(w.st, p.shim, p.local.spec, NextNode(p), p.op, io)
  }

  /** The node cannot be read: one call ends the deployment. */
  lemma UnreadableNode(w: World, t: nat, p: Pass, io: DeployIO)
    requires AboutToDeploy(w, t, p)
    requires io.get.Some? || NextNode(p) !in w.st.nodes
    ensures var w' := Next(w, Call(t, Refused(if io.get.Some? then io.get.value else true)));
            var (st, r) := DeployOf(w, p, io);
            w'.st == st && w'.threads[t] == EndNode(p, OutcomeOf(r))
  {
  }

  /** No artifact: the read is the only call. */
  lemma UnresolvedArtifact(w: World, t: nat, p: Pass, io: DeployIO)
    requires AboutToDeploy(w, t, p) && io.get.None? && NextNode(p) in w.st.nodes && p.op == INSTALL
    requires Resolve(p.local.spec.fetch, w.st.nodes[NextNode(p)].os, w.st.nodes[NextNode(p)].arch).None?
    ensures var w' := Next(w, Call(t, SawNode(w.st.nodes[NextNode(p)])));
            var (st, r) := DeployOf(w, p, io);
            w'.st == st && w'.threads[t] == EndNode(p, OutcomeOf(r))
  {
  }

  /** World after the read and the label update. */
  function AfterLabel(w: World, t: nat, p: Pass, io: DeployIO): World
    requires AtNode(p) && NextNode(p) in w.st.nodes
  {
    Next(Next(w, Call(t, SawNode(w.st.nodes[NextNode(p)]))), Call(t, ReplyOf(io.update)))
  }

  /** The node copy the thread holds then. */
  function HeldNode(w: World, p: Pass, io: DeployIO): Node
    requires AtNode(p) && NextNode(p) in w.st.nodes
  {
    var node := Relabel(w.st.nodes[NextNode(p)], p.shim, StartLabel(p.op));
    if io.update.Done? then node.(version := w.st.clock + 1) else node
  }

  ghost predicate Readable(w: World, p: Pass, io: DeployIO)
    requires AtNode(p)
  {
    && io.get.None? && NextNode(p) in w.st.nodes
    && (p.op == INSTALL ==> Resolve(p.local.spec.fetch, w.st.nodes[NextNode(p)].os, w.st.nodes[NextNode(p)].arch).Some?)
  }

  /** The store after the read and the label update. */
  function LabelledStore(st: Store, p: Pass, io: DeployIO): Store
    requires AtNode(p) && NextNode(p) in st.nodes
  {
    if io.update.Denied? then st else PutNode(st, NextNode(p), st.nodes[NextNode(p)].labels[p.shim := StartLabel(p.op)])
  }

  lemma LabelCalls(w: World, t: nat, p: Pass, io: DeployIO)
    requires AboutToDeploy(w, t, p) && Readable(w, p, io)
    ensures var w2 := AfterLabel(w, t, p, io);
            && t in w2.threads && w2.threads[t] == Labelled(p, HeldNode(w, p, io))
            && w2.st == LabelledStore(w.st, p, io)
  {
    assert StoreSound(w);
    hide Skips, Resolve, LogSound, LabelsBacked;
    var w1 := Next(w, Call(t, SawNode(w.st.nodes[NextNode(p)])));
    assert w1.threads[t] == Fetched(p, Relabel(w.st.nodes[NextNode(p)], p.shim, StartLabel(p.op)));
    assert w1.st == w.st;
  }

  /** The apply is carried out. */
  predicate Applies(st: Store, p: Pass, manifest: Job, io: DeployIO)
    requires AtNode(p)
  {
    && (p.op == INSTALL ==> io.manifest) && !io.patch.Denied?
    && JobAccepts(st, JobName(NextNode(p), p.shim, p.op), manifest)
  }

  /** The store after the apply. */
  function AppliedStore(st: Store, p: Pass, manifest: Job, io: DeployIO): Store
    requires AtNode(p)
  {
    var job := JobName(NextNode(p), p.shim, p.op);
    if Applies(st, p, manifest, io) then PutJob(st, job, AppliedJob(st, job, manifest)) else st
  }

  /** The apply, seen from the thread. */
  lemma PatchCall(w2: World, t: nat, p: Pass, held: Node, io: DeployIO)
    requires AtNode(p) && t in w2.threads && w2.threads[t] == Labelled(p, held)
    ensures var w3 := Next(w2, Call(t, PatchReply(p.op, io)));
            var manifest := DeployManifest(p, held);
            && t in w3.threads && w3.st == AppliedStore(w2.st, p, manifest, io)
            && w3.threads[t] == if p.op == INSTALL && !io.manifest then EndNode(p, Errored)
                                else if Applies(w2.st, p, manifest, io) && io.patch.Done? then EndNode(p, Applied)
                                else PatchFailed(p, Relabel(held, p.shim, FAILED), io.patch == Denied(true))
  {
    hide JobName, DeployManifest, JobAccepts, AppliedJob;
  }

  /** Three calls carry out a deployment whose apply succeeds or whose manifest fails; a fourth
      records an apply that failed. Either way store and outcome are those of `Deploy`, also where a
      write is carried out while the caller sees an error. */
  lemma DeployCalls(w: World, t: nat, p: Pass, io: DeployIO)
    requires AboutToDeploy(w, t, p) && Readable(w, p, io)
    ensures var w3 := Next(AfterLabel(w, t, p, io), Call(t, PatchReply(p.op, io)));
            var (st, r) := DeployOf(w, p, io);
            && t in w3.threads
            && (if w3.threads[t].PatchFailed? then
                  var w4 := Next(w3, Call(t, ReplyOf(io.mark)));
                  w4.st == st && t in w4.threads && w4.threads[t] == EndNode(p, OutcomeOf(r))
                else w3.st == st && w3.threads[t] == EndNode(p, OutcomeOf(r)))
  {
    LabelCalls(w, t, p, io);
    SameManifest(w, p, io);
    var w2, held := AfterLabel(w, t, p, io), HeldNode(w, p, io);
    VersionBound(w, NextNode(p));
    hide CoreSound, Resolve, Skips, Readable, AfterLabel, Next, DeployManifest, ManifestFor, DeployOf, EndNode, Relabel, HeldNode, AboutToDeploy, Applies, AppliedStore, LabelledStore, ReplyOf, PatchReply, MarkedStore;
    PatchCall(w2, t, p, held, io);
    DeployForm(w, p, io, DeployManifest(p, held));
    if (p.op == INSTALL ==> io.manifest) && !(Applies(w2.st, p, DeployManifest(p, held), io) && io.patch.Done?) {
      MarkCall(w, Next(w2, Call(t, PatchReply(p.op, io))), t, p, io, DeployManifest(p, held));
    } else {
      EndIsNoFailure(p, Errored);
      EndIsNoFailure(p, Applied);
    }
  }

  lemma VersionBound(w: World, n: string)
    requires CoreSound(w) && n in w.st.nodes
    ensures w.st.nodes[n].version <= w.st.clock
  {
    assert NodeEntrySound(w, n, w.st.nodes[n]);
  }

  lemma EndIsNoFailure(p: Pass, o: Outcome)
    ensures !EndNode(p, o).PatchFailed?
  {
  }

  /** The store after a failure was recorded. */
  function MarkedStore(st: Store, w: World, p: Pass, io: DeployIO): Store
    requires AtNode(p) && NextNode(p) in w.st.nodes && NextNode(p) in st.nodes
  {
    MarkFailed(st, NextNode(p), w.st.nodes[NextNode(p)].labels[p.shim := FAILED], io)
  }

  /** `Deploy` in terms of the stores between the calls. */
  lemma DeployForm(w: World, p: Pass, io: DeployIO, manifest: Job)
    requires AtNode(p) && Readable(w, p, io)
    requires manifest == ManifestFor(p.shim, p.local.spec, NextNode(p), w.st.nodes[NextNode(p)], p.op)
    ensures var st2 := LabelledStore(w.st, p, io);
            var st3 := AppliedStore(st2, p, manifest, io);
            && NextNode(p) in st3.nodes
            && DeployOf(w, p, io)
               == if p.op == INSTALL && !io.manifest then (st3, Failure(false))
                  else if Applies(st2, p, manifest, io) && io.patch.Done? then (st3, Success)
                  else (MarkedStore(st3, w, p, io), Failure(io.patch == Denied(true)))
  {
    hide JobName, ManifestFor, JobAccepts, AppliedJob, Resolve, Marks;
    SameJobs(w.st, LabelledStore(w.st, p, io), JobName(NextNode(p), p.shim, p.op), manifest);
  }

  /** The manifest does not depend on the label or version of the node copy. */
  lemma SameManifest(w: World, p: Pass, io: DeployIO)
    requires AtNode(p) && NextNode(p) in w.st.nodes
    ensures DeployManifest(p, HeldNode(w, p, io))
            == ManifestFor(p.shim, p.local.spec, NextNode(p), w.st.nodes[NextNode(p)], p.op)
  {
    hide JobManifest, Resolve;
  }

  lemma MarkCall(w: World, w3: World, t: nat, p: Pass, io: DeployIO, manifest: Job)
    requires AtNode(p) && NextNode(p) in w.st.nodes && t in w3.threads && w.st.nodes[NextNode(p)].version <= w.st.clock
    requires w3.threads[t].PatchFailed? && w3.threads[t].pass == p
    requires w3.threads[t].local == Relabel(HeldNode(w, p, io), p.shim, FAILED)
    requires w3.st == AppliedStore(LabelledStore(w.st, p, io), p, manifest, io)
    ensures var w4 := Next(w3, Call(t, ReplyOf(io.mark)));
            && t in w4.threads && w4.threads[t] == EndNode(p, if w3.threads[t].notFound then Gone else Errored)
            && NextNode(p) in w3.st.nodes && w4.st == MarkedStore(w3.st, w, p, io)
  {
    hide JobName, Applies, AppliedJob;
    var labels := w.st.nodes[NextNode(p)].labels;
    assert labels[p.shim := StartLabel(p.op)][p.shim := FAILED] == labels[p.shim := FAILED];
  }

  /** The Job controller's three calls, uninterrupted, are `Observe`. */
  lemma ObserveCalls(w: World, t: nat, name: string)
    requires StoreSound(w) && t in w.threads && w.threads[t] == JobStart(name)
    requires name in w.st.jobs && w.st.jobs[name].template.nodeName in w.st.nodes
    ensures var job := w.st.jobs[name];
            var w1 := Next(w, Call(t, SawJob(job)));
            var w2 := Next(w1, Call(t, SawNode(w.st.nodes[job.template.nodeName])));
            Next(w2, Call(t, Ok)).st == Observe(w.st, name)
  {
    hide JobVerdict;
  }

  /** A Job that does not name a shim is none of the reconciler's business. */
  lemma OtherJobsIgnored(w: World, t: nat, name: string)
    requires t in w.threads && w.threads[t] == JobStart(name) && name in w.st.jobs
    requires "spinkube.dev/shimName" !in w.st.jobs[name].labels
    ensures Next(w, Call(t, SawJob(w.st.jobs[name]))) == w.(threads := w.threads[t := Ended]) && Observe(w.st, name) == w.st
  {
  }

  /** What a Job reconcile makes of the node's label for the Job's shim, and that it touches no other
      label: `failed` for a failed Job, `provisioned` for a completed install, no label for a completed
      uninstall, and as before for an unfinished Job. Whether an uninstall of the pair has completed
      since an install plays no part. */
  lemma ReportOutcome(w: World, t: nat, name: string, work: Work)
    requires StoreSound(w) && t in w.threads && w.threads[t] == JobStart(name) && work.node in w.st.nodes
    requires name in w.st.jobs && Describes(w.st.jobs[name], work)
    ensures var job, before := w.st.jobs[name], w.st.nodes[work.node];
            var w' := Next(Next(Next(w, Call(t, SawJob(job))), Call(t, SawNode(before))), Call(t, Ok));
            && work.node in w'.st.nodes && w'.st.nodes[work.node].labels - {work.shim} == before.labels - {work.shim}
            && var after := w'.st.nodes[work.node].labels;
               match FinishedKind(job.conditions)
               case None => after == before.labels
               case Some(kind) =>
                 if kind.Failed? then Lookup(after, work.shim) == "failed"
                 else if work.op == "install" then Lookup(after, work.shim) == "provisioned"
                 else work.shim !in after
  {
    ObserveCalls(w, t, name);
    FinishedKindSound(w.st.jobs[name].conditions);
    hide Next, FinishedKind, StoreSound;
    assert INSTALL != UNINSTALL;
  }

  /** Exactly when a Job reconcile leaves its node labelled provisioned for its shim. */
  lemma ReportProvisionsIff(w: World, t: nat, name: string, work: Work)
    requires StoreSound(w) && t in w.threads && w.threads[t] == JobStart(name) && work.node in w.st.nodes
    requires name in w.st.jobs && Describes(w.st.jobs[name], work)
    ensures var job, before := w.st.jobs[name], w.st.nodes[work.node];
            var w' := Next(Next(Next(w, Call(t, SawJob(job))), Call(t, SawNode(before))), Call(t, Ok));
            && work.node in w'.st.nodes
            && (Lookup(w'.st.nodes[work.node].labels, work.shim) == "provisioned"
                <==> if FinishedKind(job.conditions).None? then Lookup(before.labels, work.shim) == "provisioned"
                     else FinishedKind(job.conditions) == Some(Complete) && work.op == "install")
  {
    ReportOutcome(w, t, name, work);
    FinishedKindSound(w.st.jobs[name].conditions);
    hide Next, FinishedKind, StoreSound;
    assert "failed" != "provisioned" && "" != "provisioned";
  }

  /** So an install that completed before an uninstall labels the node provisioned again, as long as
      its Job is stored: the label says that an install completed, not that it is the last word. */
  lemma OldInstallRelabels(w: World, t: nat, name: string, node: string, shim: string)
    requires StoreSound(w) && t in w.threads && w.threads[t] == JobStart(name) && node in w.st.nodes
    requires name in w.st.jobs && Describes(w.st.jobs[name], Work(node, shim, INSTALL))
    requires FinishedKind(w.st.jobs[name].conditions) == Some(Complete)
    requires Work(node, shim, UNINSTALL) in w.log.completed && shim !in w.st.nodes[node].labels
    ensures var job := w.st.jobs[name];
            var w' := Next(Next(Next(w, Call(t, SawJob(job))), Call(t, SawNode(w.st.nodes[node]))), Call(t, Ok));
            node in w'.st.nodes && Lookup(w'.st.nodes[node].labels, shim) == PROVISIONED
  {
    ReportProvisionsIff(w, t, name, Work(node, shim, INSTALL));
  }

  // ---------------------------------------------------------------- whole passes

  lemma {:induction false} RunAppend(w: World, a: seq<Step>, b: seq<Step>)
    ensures Run(w, a + b) == Run(Run(w, a), b)
    decreases |a|
  {
    hide Next;
    if a == [] {
      assert a + b == b;
    } else {
      assert (a + b)[0] == a[0] && (a + b)[1..] == a[1..] + b;
      RunAppend(Next(w, a[0]), a[1..], b);
    }
  }

  lemma RunSnoc(w: World, a: seq<Step>, s: Step)
    ensures Run(w, a + [s]) == Next(Run(w, a), s)
  {
    hide Next;
    RunAppend(w, a, [s]);
    assert Run(Run(w, a), [s]) == Run(Next(Run(w, a), s), []);
  }

  /** All steps are calls of thread `t`. */
  ghost predicate OwnCalls(steps: seq<Step>, t: nat) {
    forall s :: s in steps ==> s.Call? && s.t == t
  }

  lemma OwnCallsAppend(t: nat)
    ensures OwnCalls([], t)
    ensures forall a, b :: OwnCalls(a, t) && OwnCalls(b, t) ==> OwnCalls(a + b, t)
  {
  }

  /** Handling the next listed node as the loop of the pass's operation does. */
  function NodeAlone(st: Store, p: Pass, io: DeployIO): (Store, Option<Result>)
    requires AtNode(p)
  {
    var node := p.listed[|p.outcomes|];
    if p.op == INSTALL then Visit(st, p.shim, p.local.spec, node, io) else Clear(st, p.shim, p.local.spec, node, io)
  }

  function AttemptOutcome(r: Option<Result>): Outcome {
    match r case None => Skipped case Some(result) => OutcomeOf(result)
  }

  /** The world is sound and thread `t` stands at `th`. */
  ghost predicate Stands(w: World, t: nat, th: Thread) {
    Inv(w) && t in w.threads && w.threads[t] == th
  }

  lemma NodeSkipped(w: World, t: nat, p: Pass, io: DeployIO)
    requires Stands(w, t, PassLoop(p)) && AtNode(p) && (p.op == INSTALL || p.op == UNINSTALL)
    requires Skips(p.op, p.shim, p.listed[|p.outcomes|].node.labels)
    ensures var w' := Next(w, Call(t, Ok));
            NodeAlone(w.st, p, io) == (w.st, None) && w'.st == w.st && t in w'.threads && w'.threads[t] == EndNode(p, Skipped)
  {
    hide Inv, Skips;
  }

  lemma NodeAttempted(w: World, p: Pass, io: DeployIO)
    requires AtNode(p) && (p.op == INSTALL || p.op == UNINSTALL)
    requires !Skips(p.op, p.shim, p.listed[|p.outcomes|].node.labels)
    ensures var (st, r) := DeployOf(w, p, io);
            NodeAlone(w.st, p, io) == (st, Some(r)) && AttemptOutcome(Some(r)) == OutcomeOf(r)
  {
    hide Skips, Deploy;
  }

  /** The replies that carry out a deployment. */
  lemma DeployRun(w: World, t: nat, p: Pass, io: DeployIO) returns (steps: seq<Step>)
    requires AboutToDeploy(w, t, p)
    ensures OwnCalls(steps, t)
    ensures var (st, r) := DeployOf(w, p, io);
            var w' := Run(w, steps);
            w'.st == st && t in w'.threads && w'.threads[t] == EndNode(p, OutcomeOf(r))
  {
    if io.get.Some? || NextNode(p) !in w.st.nodes {
      steps := [] + [Call(t, Refused(if io.get.Some? then io.get.value else true))];
      UnreadableNode(w, t, p, io);
      RunSnoc(w, [], steps[0]);
    } else {
      var node := w.st.nodes[NextNode(p)];
      steps := [] + [Call(t, SawNode(node))];
      RunSnoc(w, [], steps[0]);
      if p.op == INSTALL && Resolve(p.local.spec.fetch, node.os, node.arch).None? {
        UnresolvedArtifact(w, t, p, io);
      } else {
        steps := ReadableRun(w, t, p, io);
      }
    }
  }

  lemma ReadableRun(w: World, t: nat, p: Pass, io: DeployIO) returns (steps: seq<Step>)
    requires AboutToDeploy(w, t, p) && Readable(w, p, io)
    ensures OwnCalls(steps, t)
    ensures var (st, r) := DeployOf(w, p, io);
            var w' := Run(w, steps);
            w'.st == st && t in w'.threads && w'.threads[t] == EndNode(p, OutcomeOf(r))
  {
    DeployCalls(w, t, p, io);
    var read, relabel := Call(t, SawNode(w.st.nodes[NextNode(p)])), Call(t, ReplyOf(io.update));
    var patch, mark := Call(t, PatchReply(p.op, io)), Call(t, ReplyOf(io.mark));
    assert AfterLabel(w, t, p, io) == Next(Next(w, read), relabel);
    hide AboutToDeploy, Readable, Next, Run, DeployOf, EndNode, OutcomeOf, AfterLabel;
    RunThree(w, read, relabel, patch);
    steps := [read, relabel, patch];
    if Run(w, steps).threads[t].PatchFailed? {
      RunSnoc(w, steps, mark);
      steps := steps + [mark];
    }
  }

  lemma RunThree(w: World, a: Step, b: Step, c: Step)
    ensures Run(w, [a, b, c]) == Next(Next(Next(w, a), b), c)
  {
    hide Next, Run;
    RunNone(w);
    RunSnoc(w, [], a);
    RunSnoc(w, [a], b);
    RunSnoc(w, [a, b], c);
    assert [] + [a] == [a] && [a] + [b] == [a, b] && [a, b] + [c] == [a, b, c];
  }

  lemma RunNone(w: World)
    ensures Run(w, []) == w
  {
  }

  /** One node of a pass: some calls of the thread, uninterrupted, do what the loop body does. */
  lemma NodeRun(w: World, t: nat, p: Pass, io: DeployIO) returns (steps: seq<Step>)
    requires Stands(w, t, PassLoop(p)) && AtNode(p)
    ensures OwnCalls(steps, t)
    ensures var (st, r) := NodeAlone(w.st, p, io);
            Run(w, steps).st == st && Stands(Run(w, steps), t, EndNode(p, AttemptOutcome(r)))
  {
    assert ThreadSound(w, w.threads[t]) && CoreSound(w) && StoreSound(w);
    assert p.op == INSTALL || p.op == UNINSTALL;
    hide Inv, ThreadSound, StoreSound, CoreSound, Next, NodeAlone, DeployOf, EndNode, Skips;
    if Skips(p.op, p.shim, p.listed[|p.outcomes|].node.labels) {
      NodeSkipped(w, t, p, io);
      steps := [] + [Call(t, Ok)];
      RunSnoc(w, [], Call(t, Ok));
    } else {
      NodeAttempted(w, p, io);
      steps := DeployRun(w, t, p, io);
    }
    RunKeepsInv(w, steps);
  }

  function Outcomes(rs: seq<Option<Result>>): seq<Outcome> {
    seq(|rs|, i requires 0 <= i < |rs| => AttemptOutcome(rs[i]))
  }

  lemma OutcomesSnoc(rs: seq<Option<Result>>, r: Option<Result>)
    ensures Outcomes(rs + [r]) == Outcomes(rs) + [AttemptOutcome(r)]
  {
  }

  /** A pass that has not handled any node yet. */
  ghost predicate PassBegins(w: World, t: nat, p: Pass) {
    Stands(w, t, PassLoop(p)) && p.outcomes == []
  }

  /** The first `k` nodes of a rollout loop. */
  lemma {:induction false} RolloutRun(w: World, t: nat, p: Pass, ios: seq<DeployIO>, k: nat) returns (steps: seq<Step>)
    requires PassBegins(w, t, p) && p.op == INSTALL && |ios| == |p.listed| && k <= |p.listed|
    ensures OwnCalls(steps, t)
    ensures var (st, rs) := Rollout(w.st, p.shim, p.local.spec, p.listed[..k], ios[..k]);
            && |rs| == k && Run(w, steps).st == st
            && Stands(Run(w, steps), t, PassLoop(p.(outcomes := Outcomes(rs))))
    decreases k
  {
    if k == 0 {
      hide Stands;
      steps := [];
      assert Outcomes([]) == p.outcomes by {
        assert PassBegins(w, t, p);
      }
    } else {
      hide PassBegins, Stands, Run, Rollout, Visit, OwnCalls, Outcomes;
      OwnCallsAppend(t);
      var n := k - 1;
      steps := RolloutRun(w, t, p, ios, n);
      RolloutSplit(w.st, p, ios, n);
      var rs := Rollout(w.st, p.shim, p.local.spec, p.listed[..n], ios[..n]).1;
      var back := RolloutStep(Run(w, steps), t, p, rs, ios[n]);
      RunAppend(w, steps, back);
      steps := steps + back;
    }
  }

  lemma RolloutSplit(st: Store, p: Pass, ios: seq<DeployIO>, n: nat)
    requires |ios| == |p.listed| && n < |p.listed|
    ensures var (mid, rs) := Rollout(st, p.shim, p.local.spec, p.listed[..n], ios[..n]);
            var (last, r) := Visit(mid, p.shim, p.local.spec, p.listed[n], ios[n]);
            Rollout(st, p.shim, p.local.spec, p.listed[..n + 1], ios[..n + 1]) == (last, rs + [r])
  {
    hide Visit;
    assert p.listed[..n + 1][..n] == p.listed[..n] && ios[..n + 1][..n] == ios[..n];
  }

  /** One more node of a rollout loop. */
  lemma RolloutStep(w: World, t: nat, p: Pass, rs: seq<Option<Result>>, io: DeployIO) returns (steps: seq<Step>)
    requires Stands(w, t, PassLoop(p.(outcomes := Outcomes(rs)))) && p.op == INSTALL && |rs| < |p.listed|
    ensures OwnCalls(steps, t)
    ensures var (st, r) := Visit(w.st, p.shim, p.local.spec, p.listed[|rs|], io);
            Run(w, steps).st == st && Stands(Run(w, steps), t, PassLoop(p.(outcomes := Outcomes(rs + [r]))))
  {
    hide Stands, Run, Visit, OwnCalls, AttemptOutcome, Outcomes;
    var q := p.(outcomes := Outcomes(rs));
    OutcomesLength(rs);
    steps := NodeRun(w, t, q, io);
    OutcomesSnoc(rs, NodeAlone(w.st, q, io).1);
    assert INSTALL != UNINSTALL;
  }

  /** With no node left, one step leaves the loop. */
  lemma LoopEnds(w: World, t: nat, p: Pass)
    requires Stands(w, t, PassLoop(p)) && !AtNode(p)
    ensures Next(w, Call(t, Ok)).st == w.st
    ensures Stands(Next(w, Call(t, Ok)), t, if p.op == UNINSTALL then Removing(p) else Ensuring(p.shim, p.local))
  {
    NextKeepsInv(w, Call(t, Ok));
    hide Inv;
  }

  /** A whole rollout loop of a pass, uninterrupted, has exactly the effect and the outcomes of
      `Rollout`, and then goes on to ensure the finalizer. */
  lemma RolloutCalls(w: World, t: nat, p: Pass, ios: seq<DeployIO>) returns (steps: seq<Step>)
    requires PassBegins(w, t, p) && p.op == INSTALL && |ios| == |p.listed|
    ensures OwnCalls(steps, t)
    ensures var (st, rs) := Rollout(w.st, p.shim, p.local.spec, p.listed, ios);
            && Run(w, steps).st == st && Stands(Run(w, steps), t, PassLoop(p.(outcomes := Outcomes(rs))))
            && Next(Run(w, steps), Call(t, Ok)).st == st
            && Stands(Next(Run(w, steps), Call(t, Ok)), t, Ensuring(p.shim, p.local))
  {
    hide Stands, Next, Rollout, Run;
    steps := RolloutRun(w, t, p, ios, |p.listed|);
    assert p.listed[..|p.listed|] == p.listed && ios[..|ios|] == ios;
    LoopEnds(Run(w, steps), t, p.(outcomes := Outcomes(Rollout(w.st, p.shim, p.local.spec, p.listed, ios).1)));
  }

  /** Where a deletion loop stands after the given results. */
  function ClearThread(p: Pass, rs: seq<Option<Result>>): Thread {
    if rs != [] && Stops(rs[|rs| - 1]) then Ensuring(p.shim, p.local) else PassLoop(p.(outcomes := Outcomes(rs)))
  }

  lemma ClearEnds(p: Pass, q: Pass, rs: seq<Option<Result>>, r: Option<Result>)
    requires p.op == UNINSTALL && q == p.(outcomes := Outcomes(rs))
    ensures ClearThread(p, rs + [r]) == EndNode(q, AttemptOutcome(r))
  {
    OutcomesSnoc(rs, r);
  }

  lemma ClearAllSplit(st: Store, p: Pass, ios: seq<DeployIO>, n: nat)
    requires |ios| == |p.listed| && n < |p.listed|
    ensures var (mid, rs) := ClearAll(st, p.shim, p.local.spec, p.listed[..n], ios[..n]);
            ClearAll(st, p.shim, p.local.spec, p.listed[..n + 1], ios[..n + 1])
            == if |rs| < n || (rs != [] && Stops(rs[|rs| - 1])) then (mid, rs)
               else
                 var (last, r) := Clear(mid, p.shim, p.local.spec, p.listed[n], ios[n]);
                 (last, rs + [r])
  {
    hide Clear, Stops;
    assert p.listed[..n + 1][..n] == p.listed[..n] && ios[..n + 1][..n] == ios[..n];
  }

  /** One more node of a deletion loop that has not stopped. */
  lemma ClearStep(w: World, t: nat, p: Pass, rs: seq<Option<Result>>, io: DeployIO) returns (steps: seq<Step>)
    requires Stands(w, t, PassLoop(p.(outcomes := Outcomes(rs)))) && p.op == UNINSTALL && |rs| < |p.listed|
    ensures OwnCalls(steps, t)
    ensures var (st, r) := Clear(w.st, p.shim, p.local.spec, p.listed[|rs|], io);
            Run(w, steps).st == st && Stands(Run(w, steps), t, ClearThread(p, rs + [r]))
  {
    hide Stands, Run, Clear, OwnCalls, EndNode, AttemptOutcome, Outcomes, ClearThread;
    var q := p.(outcomes := Outcomes(rs));
    OutcomesLength(rs);
    steps := NodeRun(w, t, q, io);
    ClearEnds(p, q, rs, NodeAlone(w.st, q, io).1);
  }

  lemma {:induction false} ClearRun(w: World, t: nat, p: Pass, ios: seq<DeployIO>, k: nat) returns (steps: seq<Step>)
    requires PassBegins(w, t, p) && p.op == UNINSTALL && |ios| == |p.listed| && k <= |p.listed|
    ensures OwnCalls(steps, t)
    ensures var (st, rs) := ClearAll(w.st, p.shim, p.local.spec, p.listed[..k], ios[..k]);
            && (|rs| == k || (rs != [] && Stops(rs[|rs| - 1])))
            && Run(w, steps).st == st && Stands(Run(w, steps), t, ClearThread(p, rs))
    decreases k
  {
    if k == 0 {
      hide Stands;
      steps := [];
      assert Outcomes([]) == p.outcomes by {
        assert PassBegins(w, t, p);
      }
    } else {
      hide PassBegins, Stands, Run, ClearAll, Clear, Stops, OwnCalls, Outcomes;
      OwnCallsAppend(t);
      var n := k - 1;
      steps := ClearRun(w, t, p, ios, n);
      ClearAllSplit(w.st, p, ios, n);
      var rs := ClearAll(w.st, p.shim, p.local.spec, p.listed[..n], ios[..n]).1;
      if !(rs != [] && Stops(rs[|rs| - 1])) {
        var back := ClearStep(Run(w, steps), t, p, rs, ios[n]);
        RunAppend(w, steps, back);
        steps := steps + back;
      }
    }
  }

  lemma OutcomesLength(rs: seq<Option<Result>>)
    ensures |Outcomes(rs)| == |rs|
  {
  }

  /** A whole deletion loop, uninterrupted, has exactly the effect of `ClearAll`; it goes on to remove
      the finalizer exactly if no error other than NotFound occurred. */
  lemma ClearCalls(w: World, t: nat, p: Pass, ios: seq<DeployIO>) returns (steps: seq<Step>)
    requires PassBegins(w, t, p) && p.op == UNINSTALL && |ios| == |p.listed|
    ensures OwnCalls(steps, t)
    ensures var (st, rs) := ClearAll(w.st, p.shim, p.local.spec, p.listed, ios);
            && Run(w, steps).st == st
            && Stands(Run(w, steps), t, if rs != [] && Stops(rs[|rs| - 1]) then Ensuring(p.shim, p.local)
                                        else Removing(p.(outcomes := Outcomes(rs))))
  {
    hide Stands, Next, ClearAll, Run, Stops;
    var loop := ClearRun(w, t, p, ios, |p.listed|);
    assert p.listed[..|p.listed|] == p.listed && ios[..|ios|] == ios;
    var (st, rs) := ClearAll(w.st, p.shim, p.local.spec, p.listed, ios);
    steps := loop;
    if !(rs != [] && Stops(rs[|rs| - 1])) {
      RunSnoc(w, loop, Call(t, Ok));
      LoopEnds(Run(w, loop), t, p.(outcomes := Outcomes(rs)));
      steps := loop + [Call(t, Ok)];
    }
  }
}
