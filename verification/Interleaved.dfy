/** Convergence at the granularity of single API calls. One pass of the shim at a time and any number
    of Job reconciles interleave freely; every call is served and answered from the current store, and
    no Job fails. */
module Interleaved {
  import opened Wrappers
  import opened Manifest
  import opened Api
  import opened Protocol
  import opened ProtocolSafety
  import opened Controllers
  import opened Convergence

  // ---------------------------------------------------------------- where a node stands

  /** The node is labelled pending and its Job is not there yet. */
  ghost predicate Marked(g: Goal, st: Store, n: string) {
    && n in st.nodes && Resolve(g.spec.fetch, st.nodes[n].os, st.nodes[n].arch).Some?
    && JobOf(g, n) !in st.jobs && Lookup(st.nodes[n].labels, g.shim) == PENDING
  }

  ghost predicate IsWaiting(g: Goal, st: Store, n: string) {
    Linked(g, st, n) && PhaseOf(g, st, n).Waiting?
  }

  ghost predicate Placed(g: Goal, st: Store, n: string) {
    Linked(g, st, n) || Marked(g, st, n)
  }

  ghost predicate JobDone(g: Goal, st: Store, n: string) {
    JobOf(g, n) in st.jobs && FinishedKind(st.jobs[JobOf(g, n)].conditions) == Some(Complete)
  }

  /** Calls and completions that still have to land for this node. */
  ghost function Left(g: Goal, st: Store, n: string): nat {
    if Marked(g, st, n) then 3
    else if n !in st.nodes then 0
    else match PhaseOf(g, st, n) case Waiting => 4 case Running => 2 case Finished => 1 case _ => 0
  }

  ghost predicate AllPlaced(g: Goal, st: Store) {
    forall i :: 0 <= i < |g.nodes| ==> Placed(g, st, g.nodes[i])
  }

  /** The shim is there, undeleted and as the goal says. */
  ghost predicate ShimOk(g: Goal, st: Store) {
    g.shim in st.shims && st.shims[g.shim].spec == g.spec && !st.shims[g.shim].deleting
  }

  // ---------------------------------------------------------------- what the threads hold

  /** A thread of the Shim reconciler that is under way. */
  predicate ActivePass(th: Thread) {
    !(th.JobStart? || th.JobRead? || th.JobWrite? || th.Ended?)
  }

  /** The node on which the thread's next call will write a label or create a Job. */
  function HeldSite(th: Thread): Option<string> {
    match th
    case JobWrite(node, _, _) => Some(node)
    case Fetched(p, _) => if AtNode(p) then Some(NextNode(p)) else None
    case Labelled(p, _) => if AtNode(p) then Some(NextNode(p)) else None
    case _ => None
  }

  /** Different nodes of the goal are listed; from the `k`-th on, those listed without the label are
      still waiting, and all others will be skipped. */
  ghost predicate ListFits(g: Goal, st: Store, listed: seq<Listed>, k: nat) {
    && (forall i, j :: 0 <= i < j < |listed| ==> listed[i].name != listed[j].name)
    && (forall i :: 0 <= i < |listed| ==> listed[i].name in g.nodes)
    && (forall i :: k <= i < |listed| ==>
          IsWaiting(g, st, listed[i].name) || Skips(INSTALL, g.shim, listed[i].node.labels))
  }

  /** A pass whose listing fits from the `k`-th node on. */
  ghost predicate PassFits(g: Goal, st: Store, p: Pass, k: nat) {
    && p.shim == g.shim && p.op == INSTALL && p.local.spec == g.spec
    && |p.outcomes| <= |p.listed| && ListFits(g, st, p.listed, k)
  }

  /** A Job copy of one of the goal's nodes. */
  ghost predicate JobFits(g: Goal, st: Store, job: Job) {
    var n := job.template.nodeName;
    && n in g.nodes && Describes(job, Work(n, g.shim, INSTALL))
    && FinishedKind(job.conditions) != Some(Failed)
    && (FinishedKind(job.conditions) == Some(Complete) ==> JobDone(g, st, n))
  }

  /** A report that will land, unless the node already says provisioned. */
  ghost predicate ReportFits(g: Goal, st: Store, node: string, local: Node, shim: string) {
    && node in g.nodes && node in st.nodes && shim == g.shim && JobDone(g, st, node)
    && g.shim in local.labels && local.labels[g.shim] == PROVISIONED
    && (NodeAccepts(st, node, local) || Lookup(st.nodes[node].labels, g.shim) == PROVISIONED)
  }

  ghost predicate ThreadFits(g: Goal, st: Store, th: Thread) {
    match th
    case JobStart(name) => exists n :: n in g.nodes && name == JobOf(g, n)
    case JobRead(job) => JobFits(g, st, job)
    case JobWrite(node, local, shim) => ReportFits(g, st, node, local, shim)
    case PassStart(s) => s == g.shim
    case PassRead(s, _) => s == g.shim
    case PassListed(s, _, listed) => s == g.shim && ListFits(g, st, listed, 0)
    case PassStatus(s, _, listed) => s == g.shim && ListFits(g, st, listed, 0)
    case PassClass(p) => PassFits(g, st, p, |p.outcomes|)
    case PassLoop(p) => PassFits(g, st, p, |p.outcomes|)
    case Fetched(p, local) =>
      && PassFits(g, st, p, |p.outcomes|) && AtNode(p) && IsWaiting(g, st, NextNode(p))
      && local == Relabel(st.nodes[NextNode(p)], g.shim, PENDING)
    case Labelled(p, local) =>
      && PassFits(g, st, p, |p.outcomes| + 1) && AtNode(p) && Marked(g, st, NextNode(p)) && local == st.nodes[NextNode(p)]
    case PatchFailed(_, _, _) => false
    case Removing(_) => false
    case Ensuring(s, _) => s == g.shim
    case Ended => true
  }

  ghost predicate AllFit(g: Goal, w: World) {
    forall t :: t in w.threads ==> ThreadFits(g, w.st, w.threads[t])
  }

  ghost predicate OnePass(w: World) {
    forall t, u :: t in w.threads && u in w.threads && ActivePass(w.threads[t]) && ActivePass(w.threads[u]) ==> t == u
  }

  /** A marked node is being dealt with. */
  ghost predicate MarkedHeld(g: Goal, w: World) {
    forall n :: n in g.nodes && Marked(g, w.st, n) ==>
      exists t :: t in w.threads && w.threads[t].Labelled? && HeldSite(w.threads[t]) == Some(n)
  }

  /** What is stored can be read, and fits the goal. */
  ghost predicate StoreFits(g: Goal, w: World) {
    StoreSound(w) && ShimOk(g, w.st) && AllPlaced(g, w.st)
  }

  ghost predicate Converging(g: Goal, w: World) {
    && Inv(w) && StoreFits(g, w)
    && OnePass(w) && AllFit(g, w) && MarkedHeld(g, w)
  }

  // ---------------------------------------------------------------- the steps considered

  ghost predicate FreshList(g: Goal, st: Store, nodes: seq<Listed>) {
    && (forall i, j :: 0 <= i < j < |nodes| ==> nodes[i].name != nodes[j].name)
    && (forall i :: 0 <= i < |nodes| ==>
          nodes[i].name in g.nodes && nodes[i].name in st.nodes && nodes[i].node == st.nodes[nodes[i].name])
  }

  /** The call is served, from the current store. */
  ghost predicate FreshReply(g: Goal, st: Store, th: Thread, reply: Reply) {
    match th
    case JobStart(name) => if name in st.jobs then reply == SawJob(st.jobs[name]) else reply == Refused(true)
    case JobRead(job) => job.template.nodeName in st.nodes && reply == SawNode(st.nodes[job.template.nodeName])
    case PassStart(s) => s in st.shims && reply == SawShim(st.shims[s])
    case PassRead(_, _) => reply.SawNodes? && FreshList(g, st, reply.nodes)
    case PassStatus(s, _, _) => s in st.shims && reply == SawShim(st.shims[s])
    case PassLoop(p) => AtNode(p) ==> NextNode(p) in st.nodes && reply == SawNode(st.nodes[NextNode(p)])
    case _ => reply == Ok
  }

  predicate Free(w: World, t: nat) {
    t in w.threads ==> w.threads[t].Ended?
  }

  /** A step without fault: a served call; the start of a Job reconcile, or of a pass when none is
      under way; any condition on a goal Job but a failure; a label for another purpose on a node that
      nobody is about to write. */
  ghost predicate Faultless(g: Goal, w: World, s: Step) {
    match s
    case Call(t, reply) => t in w.threads && FreshReply(g, w.st, w.threads[t], reply)
    case StartJobPass(t, job) => Free(w, t) && exists n :: n in g.nodes && job == JobOf(g, n)
    case StartShimPass(t, shim) =>
      Free(w, t) && shim == g.shim && forall u :: u in w.threads ==> !ActivePass(w.threads[u])
    case JobCondition(job, c) => c != Condition(Failed, true) && exists n :: n in g.nodes && job == JobOf(g, n)
    case NodeRelabelled(n, labels) =>
      && n in g.nodes && n in w.st.nodes
      && (g.shim in labels <==> g.shim in w.st.nodes[n].labels) && Lookup(labels, g.shim) == Lookup(w.st.nodes[n].labels, g.shim)
      && forall t :: t in w.threads ==> HeldSite(w.threads[t]) != Some(n)
    case _ => false
  }

  // ---------------------------------------------------------------- how the store moves

  /** Node `m` and its Job are exactly as before. */
  ghost predicate SameSite(g: Goal, st: Store, st': Store, m: string) {
    && (m in st.nodes <==> m in st'.nodes) && (m in st.nodes ==> st'.nodes[m] == st.nodes[m])
    && (JobOf(g, m) in st.jobs <==> JobOf(g, m) in st'.jobs)
    && (JobOf(g, m) in st.jobs ==> st'.jobs[JobOf(g, m)] == st.jobs[JobOf(g, m)])
  }

  lemma SameSitePlace(g: Goal, st: Store, st': Store, m: string)
    requires SameSite(g, st, st', m)
    ensures Linked(g, st', m) <==> Linked(g, st, m)
    ensures Marked(g, st', m) <==> Marked(g, st, m)
    ensures IsWaiting(g, st', m) <==> IsWaiting(g, st, m)
    ensures JobDone(g, st', m) <==> JobDone(g, st, m)
    ensures Left(g, st', m) == Left(g, st, m)
  {
    hide JobName, Resolve, JobManifest, FinishedKind;
  }

  /** What happens at the one node a step is about: it stays placed, comes `gain` closer, and a
      completed Job and a provisioned label stay. */
  ghost predicate SiteMoves(g: Goal, st: Store, st': Store, n: string, gain: nat) {
    && Placed(g, st', n) && Left(g, st', n) + gain == Left(g, st, n)
    && (JobDone(g, st, n) ==> JobDone(g, st', n))
  }

  /** The step is about `site`, if anything; all other nodes are as before. */
  ghost predicate Effect(g: Goal, st: Store, st': Store, site: Option<string>, gain: nat) {
    && ShimOk(g, st')
    && (forall m :: m in g.nodes && site != Some(m) ==> SameSite(g, st, st', m))
    && (site.Some? ==> site.value in g.nodes && SiteMoves(g, st, st', site.value, gain))
    && (site.None? ==> gain == 0)
  }

  /** The label is written. */
  lemma MarkMoves(g: Goal, st: Store, n: string)
    requires IsWaiting(g, st, n)
    ensures var st' := PutNode(st, n, st.nodes[n].labels[g.shim := PENDING]);
            Marked(g, st', n) && SiteMoves(g, st, st', n, 1)
  {
    hide JobName, Resolve, JobManifest, FinishedKind;
    assert "" != PENDING;
  }

  /** The Job is created. */
  lemma ApplyMoves(g: Goal, st: Store, n: string)
    requires Marked(g, st, n)
    ensures var st' := PutJob(st, JobOf(g, n), ManifestFor(g.shim, g.spec, n, st.nodes[n], INSTALL));
            Linked(g, st', n) && SiteMoves(g, st, st', n, 1)
  {
    var job := ManifestFor(g.shim, g.spec, n, st.nodes[n], INSTALL);
    DescribedManifest(g.shim, g.spec, n, st.nodes[n], INSTALL);
    assert job.conditions == [] && FinishedKind(job.conditions).None? && "" != PENDING;
    hide JobName, Resolve, ManifestFor, Describes, FinishedKind;
  }

  /** One if the condition completes the Job. */
  ghost function Completion(st: Store, j: string, c: Condition): nat {
    if j in st.jobs && FinishedKind(st.jobs[j].conditions).None? && c == Condition(Complete, true) then 1 else 0
  }

  lemma ConditionMoves(g: Goal, st: Store, n: string, c: Condition)
    requires Linked(g, st, n) && JobOf(g, n) in st.jobs && c != Condition(Failed, true)
    ensures var job := st.jobs[JobOf(g, n)];
            var st' := PutJob(st, JobOf(g, n), job.(conditions := job.conditions + [c]));
            Linked(g, st', n) && SiteMoves(g, st, st', n, Completion(st, JobOf(g, n), c))
  {
    FinishedKindStable(st.jobs[JobOf(g, n)].conditions, c);
    assert FinishedKind([c]) == if c == Condition(Complete, true) then Some(Complete) else None;
    hide JobName, Resolve, JobManifest, FinishedKind;
  }

  /** One if the node is still to be reported. */
  ghost function Reporting(g: Goal, st: Store, n: string): nat {
    if n in st.nodes && PhaseOf(g, st, n).Finished? then 1 else 0
  }

  lemma ReportMoves(g: Goal, st: Store, n: string, labels: Labels)
    requires Placed(g, st, n) && JobDone(g, st, n) && g.shim in labels && labels[g.shim] == PROVISIONED
    ensures Linked(g, PutNode(st, n, labels), n)
    ensures SiteMoves(g, st, PutNode(st, n, labels), n, Reporting(g, st, n))
  {
    hide JobName, Resolve, JobManifest, FinishedKind;
  }

  lemma RelabelMoves(g: Goal, st: Store, n: string, labels: Labels)
    requires Placed(g, st, n) && (g.shim in labels <==> g.shim in st.nodes[n].labels)
    requires Lookup(labels, g.shim) == Lookup(st.nodes[n].labels, g.shim)
    ensures SiteMoves(g, st, PutNode(st, n, labels), n, 0)
    ensures Marked(g, PutNode(st, n, labels), n) <==> Marked(g, st, n)
    ensures IsWaiting(g, PutNode(st, n, labels), n) <==> IsWaiting(g, st, n)
  {
    hide JobName, Resolve, JobManifest, FinishedKind;
  }

  /** Nothing happens to the goal's nodes and Jobs. */
  lemma NoMove(g: Goal, st: Store, st': Store)
    requires ShimOk(g, st') && st'.nodes == st.nodes && st'.jobs == st.jobs
    ensures Effect(g, st, st', None, 0)
  {
  }

  /** Only node `n` and its Job are written. */
  lemma SingleMove(g: Goal, st: Store, st': Store, n: string, gain: nat)
    requires ValidGoal(g) && ShimOk(g, st') && n in g.nodes && SiteMoves(g, st, st', n, gain)
    requires forall m :: m != n ==> (m in st.nodes <==> m in st'.nodes) && (m in st.nodes ==> st'.nodes[m] == st.nodes[m])
    requires forall j :: j != JobOf(g, n) ==> (j in st.jobs <==> j in st'.jobs) && (j in st.jobs ==> st'.jobs[j] == st.jobs[j])
    ensures Effect(g, st, st', Some(n), gain)
  {
    hide SiteMoves, JobName;
    forall m | m in g.nodes && m != n ensures SameSite(g, st, st', m) {
      var i, k :| 0 <= i < |g.nodes| && 0 <= k < |g.nodes| && g.nodes[i] == m && g.nodes[k] == n;
      assert JobOf(g, m) != JobOf(g, n);
    }
  }

  lemma EffectPlaces(g: Goal, st: Store, st': Store, site: Option<string>, gain: nat)
    requires AllPlaced(g, st) && Effect(g, st, st', site, gain)
    ensures AllPlaced(g, st')
    ensures forall m :: m in g.nodes && JobDone(g, st, m) ==> JobDone(g, st', m)
  {
    hide JobDone, Marked, Linked, IsWaiting, Left, SameSite;
    forall m | m in g.nodes ensures Placed(g, st', m) && (JobDone(g, st, m) ==> JobDone(g, st', m)) {
      if site != Some(m) {
        SameSitePlace(g, st, st', m);
      }
    }
  }

  // ---------------------------------------------------------------- the other threads do not notice

  lemma ListKept(g: Goal, st: Store, st': Store, site: Option<string>, gain: nat, listed: seq<Listed>, k: nat)
    requires Effect(g, st, st', site, gain) && ListFits(g, st, listed, k)
    requires site.Some? && IsWaiting(g, st, site.value) ==> IsWaiting(g, st', site.value)
    ensures ListFits(g, st', listed, k)
  {
    hide IsWaiting, Skips, SameSite, SiteMoves;
    forall i | k <= i < |listed|
      ensures IsWaiting(g, st', listed[i].name) || Skips(INSTALL, g.shim, listed[i].node.labels)
    {
      if site != Some(listed[i].name) {
        SameSitePlace(g, st, st', listed[i].name);
      }
    }
  }

  lemma PassKept(g: Goal, st: Store, st': Store, site: Option<string>, gain: nat, th: Thread)
    requires Effect(g, st, st', site, gain) && ThreadFits(g, st, th) && ActivePass(th)
    requires site.Some? && IsWaiting(g, st, site.value) ==> IsWaiting(g, st', site.value)
    requires HeldSite(th) == None || HeldSite(th) != site
    ensures ThreadFits(g, st', th)
  {
    if th.PassListed? || th.PassStatus? {
      ListKept(g, st, st', site, gain, th.listed, 0);
    } else if th.PassClass? || th.PassLoop? || th.Fetched? || th.Labelled? {
      ListKept(g, st, st', site, gain, th.pass.listed, |th.pass.outcomes| + if th.Labelled? then 1 else 0);
      if th.Fetched? || th.Labelled? {
        assert NextNode(th.pass) in g.nodes;
        SameSitePlace(g, st, st', NextNode(th.pass));
      }
    }
    hide IsWaiting, Marked, ListFits, SiteMoves;
  }

  lemma JobKept(g: Goal, st: Store, st': Store, site: Option<string>, gain: nat, th: Thread)
    requires AllPlaced(g, st) && Effect(g, st, st', site, gain) && ThreadFits(g, st, th) && !ActivePass(th)
    requires th.JobWrite? && site == Some(th.node) ==>
               || (th.node in st.nodes && th.node in st'.nodes && st'.nodes[th.node] == st.nodes[th.node])
               || (th.node in st'.nodes && Lookup(st'.nodes[th.node].labels, g.shim) == PROVISIONED)
    ensures ThreadFits(g, st', th)
  {
    EffectPlaces(g, st, st', site, gain);
    hide JobDone, SiteMoves, Describes, FinishedKind, JobName;
  }

  // ---------------------------------------------------------------- one call of one thread

  /** What the call brings about. */
  ghost function CallGain(g: Goal, st: Store, th: Thread): nat {
    match th
    case Fetched(_, _) => 1
    case Labelled(_, _) => 1
    case JobWrite(node, local, _) => Reporting(g, st, node)
    case _ => 0
  }

  /** The call has its effect and leaves its thread where it should be: a marked node is held, a
      reported one is provisioned. */
  ghost predicate CallFits(g: Goal, st: Store, th: Thread, r: (World, Thread)) {
    && Effect(g, st, r.0.st, HeldSite(th), CallGain(g, st, th))
    && ThreadFits(g, r.0.st, r.1) && (ActivePass(r.1) ==> ActivePass(th))
    && (th.Fetched? ==> r.1.Labelled? && HeldSite(r.1) == HeldSite(th))
    && (th.Labelled? && AtNode(th.pass) ==> !Marked(g, r.0.st, NextNode(th.pass)))
    && (th.JobWrite? ==> th.node in r.0.st.nodes && Lookup(r.0.st.nodes[th.node].labels, g.shim) == PROVISIONED)
  }

  lemma PlacedAt(g: Goal, st: Store, n: string)
    requires AllPlaced(g, st) && n in g.nodes
    ensures Placed(g, st, n) && n in st.nodes
  {
    var i :| 0 <= i < |g.nodes| && g.nodes[i] == n;
  }

  /** A goal Job as it is stored. */
  lemma StoredJobFits(g: Goal, st: Store, n: string)
    requires AllPlaced(g, st) && n in g.nodes && JobOf(g, n) in st.jobs
    ensures JobFits(g, st, st.jobs[JobOf(g, n)]) && st.jobs[JobOf(g, n)].template.nodeName == n
  {
    PlacedAt(g, st, n);
    hide JobName, Resolve, JobManifest;
  }

  lemma JobStartFits(g: Goal, w: World, name: string, n: string, reply: Reply)
    requires StoreFits(g, w) && FreshReply(g, w.st, JobStart(name), reply)
    requires n in g.nodes && name == JobOf(g, n)
    ensures CallFits(g, w.st, JobStart(name), JobStep(w, JobStart(name), reply))
  {
    NoMove(g, w.st, w.st);
    if name in w.st.jobs {
      StoredJobFits(g, w.st, n);
    }
    hide JobFits, JobName, Effect, AllPlaced, ShimOk;
  }

  lemma JobReadFits(g: Goal, w: World, job: Job, reply: Reply)
    requires StoreFits(g, w) && JobFits(g, w.st, job) && FreshReply(g, w.st, JobRead(job), reply)
    ensures CallFits(g, w.st, JobRead(job), JobStep(w, JobRead(job), reply))
  {
    NoMove(g, w.st, w.st);
    FinishedKindSound(job.conditions);
    hide JobName, Effect, AllPlaced, ShimOk, JobDone, FinishedKind;
  }

  lemma JobWriteFits(g: Goal, w: World, n: string, local: Node)
    requires ValidGoal(g) && StoreFits(g, w) && ReportFits(g, w.st, n, local, g.shim)
    ensures var th := JobWrite(n, local, g.shim);
            CallFits(g, w.st, th, JobStep(w, th, Ok))
  {
    hide AllPlaced, Placed, SiteMoves, JobDone, Reporting, StoreSound, ValidGoal, Describes, FinishedKind, Resolve;
    var st := w.st;
    PlacedAt(g, st, n);
    var st' := if NodeAccepts(st, n, local) then PutNode(st, n, local.labels) else st;
    if NodeAccepts(st, n, local) {
      ReportMoves(g, st, n, local.labels);
    } else {
      ReportedAlready(g, st, n);
    }
    SingleMove(g, st, st', n, Reporting(g, st, n));
    hide Effect;
  }

  lemma ReportedAlready(g: Goal, st: Store, n: string)
    requires Placed(g, st, n) && JobDone(g, st, n) && Lookup(st.nodes[n].labels, g.shim) == PROVISIONED
    ensures Reporting(g, st, n) == 0 && SiteMoves(g, st, st, n, 0)
  {
    hide JobName, Resolve, JobManifest, FinishedKind;
    assert PENDING != PROVISIONED;
  }

  // ---------------------------------------------------------------- the calls of a pass

  lemma WriteShimFits(g: Goal, w: World, local: Shim, reply: Reply)
    requires ShimOk(g, w.st)
    ensures Effect(g, w.st, WriteShim(w, g.shim, local, reply).0.st, None, 0)
  {
    NoMove(g, w.st, WriteShim(w, g.shim, local, reply).0.st);
  }

  lemma FreshListFits(g: Goal, st: Store, nodes: seq<Listed>)
    requires AllPlaced(g, st) && FreshList(g, st, nodes)
    ensures ListFits(g, st, nodes, 0)
  {
    forall i | 0 <= i < |nodes|
      ensures IsWaiting(g, st, nodes[i].name) || Skips(INSTALL, g.shim, nodes[i].node.labels)
    {
      PlacedAt(g, st, nodes[i].name);
      hide JobName, Resolve, JobManifest, FinishedKind;
      assert INSTALL != UNINSTALL;
    }
  }

  /** The list survives a call that leaves nodes and Jobs alone. */
  lemma ListStays(g: Goal, st: Store, st': Store, listed: seq<Listed>, k: nat)
    requires Effect(g, st, st', None, 0) && ListFits(g, st, listed, k)
    ensures ListFits(g, st', listed, k)
  {
    ListKept(g, st, st', None, 0, listed, k);
  }

  lemma StatusFits(g: Goal, w: World, seen: Shim, listed: seq<Listed>)
    requires StoreFits(g, w) && ListFits(g, w.st, listed, 0)
    ensures CallFits(g, w.st, PassListed(g.shim, seen, listed), PassStep(w, PassListed(g.shim, seen, listed), Ok))
  {
    var local := seen.(status := Status(|listed|, ReadyCount(g.shim, listed)));
    WriteShimFits(g, w, local, Ok);
    ListStays(g, w.st, WriteShim(w, g.shim, local, Ok).0.st, listed, 0);
    hide StoreFits, Effect, ListFits, WriteShim;
  }

  lemma PassCallFits(g: Goal, w: World, th: Thread, reply: Reply)
    requires StoreFits(g, w) && ThreadFits(g, w.st, th) && FreshReply(g, w.st, th, reply)
    requires th.PassStart? || th.PassRead? || th.PassListed? || th.PassStatus? || th.PassClass?
    ensures CallFits(g, w.st, th, PassStep(w, th, reply))
  {
    NoMove(g, w.st, w.st);
    hide Effect, AllPlaced, StoreSound, ListFits, FreshList, CallFits;
    match th {
      case PassStart(s) => PassMoves(g, w, th, reply);
      case PassRead(s, seen) =>
        FreshListFits(g, w.st, reply.nodes);
        PassMoves(g, w, th, reply);
      case PassListed(s, seen, listed) => StatusFits(g, w, seen, listed);
      case PassStatus(s, seen, listed) => PassMoves(g, w, th, reply);
      case PassClass(p) => PassMoves(g, w, th, reply);
    }
  }

  /** Calls of a pass that only read. */
  lemma PassMoves(g: Goal, w: World, th: Thread, reply: Reply)
    requires ShimOk(g, w.st) && Effect(g, w.st, w.st, None, 0) && ThreadFits(g, w.st, th) && FreshReply(g, w.st, th, reply)
    requires th.PassStart? || th.PassRead? || th.PassStatus? || th.PassClass?
    requires th.PassRead? ==> ListFits(g, w.st, reply.nodes, 0)
    ensures CallFits(g, w.st, th, PassStep(w, th, reply))
  {
    hide Effect, ListFits, FreshList, Selected;
  }

  lemma EnsuringFits(g: Goal, w: World, seen: Shim)
    requires StoreFits(g, w)
    ensures CallFits(g, w.st, Ensuring(g.shim, seen), FinalStep(w, Ensuring(g.shim, seen), Ok))
  {
    NoMove(g, w.st, w.st);
    WriteShimFits(g, w, seen.(finalizers := seen.finalizers + {FINALIZER}), Ok);
    hide Effect, AllPlaced, StoreSound, ShimOk;
  }

  /** Moving on to the next node of the list. */
  lemma ListAdvances(g: Goal, st: Store, p: Pass, o: Outcome)
    requires AtNode(p) && p.op == INSTALL && PassFits(g, st, p, |p.outcomes| + 1)
    ensures ThreadFits(g, st, EndNode(p, o))
  {
    hide ListFits;
  }

  lemma LoopFits(g: Goal, w: World, p: Pass, reply: Reply)
    requires StoreFits(g, w) && PassFits(g, w.st, p, |p.outcomes|) && FreshReply(g, w.st, PassLoop(p), reply)
    ensures CallFits(g, w.st, PassLoop(p), LoopStep(w, p, reply))
  {
    NoMove(g, w.st, w.st);
    if AtNode(p) {
      assert PassFits(g, w.st, p, |p.outcomes| + 1);
      ListAdvances(g, w.st, p, Skipped);
      var n := NextNode(p);
      if !Skips(p.op, p.shim, p.listed[|p.outcomes|].node.labels) {
        assert IsWaiting(g, w.st, n);
        assert Resolve(g.spec.fetch, w.st.nodes[n].os, w.st.nodes[n].arch).Some?;
        assert (n, w.st.nodes[n]) in w.log.nodes;
      }
    }
    hide Effect, AllPlaced, StoreSound, ShimOk, IsWaiting, ListFits, Resolve, Skips, EndNode, Describes, FinishedKind, JobDone;
  }

  lemma FetchedFits(g: Goal, w: World, p: Pass, local: Node)
    requires ValidGoal(g) && StoreFits(g, w) && ThreadFits(g, w.st, Fetched(p, local))
    ensures CallFits(g, w.st, Fetched(p, local), DeployStep(w, Fetched(p, local), Ok))
  {
    var st, n := w.st, NextNode(p);
    var st' := PutNode(st, n, st.nodes[n].labels[g.shim := PENDING]);
    assert n in g.nodes;
    MarkMoves(g, st, n);
    hide AllPlaced, StoreSound, SiteMoves, IsWaiting, Marked, ValidGoal, Skips;
    SingleMove(g, st, st', n, 1);
    ListPast(g, st, st', p, 1);
    hide Effect, ListFits;
  }

  /** The rest of the list does not notice what happens to the node at hand. */
  lemma ListPast(g: Goal, st: Store, st': Store, p: Pass, gain: nat)
    requires AtNode(p) && Effect(g, st, st', Some(NextNode(p)), gain)
    requires ListFits(g, st, p.listed, |p.outcomes| + 1)
    ensures ListFits(g, st', p.listed, |p.outcomes| + 1)
  {
    hide IsWaiting, Skips, SameSite, SiteMoves;
    forall i | |p.outcomes| + 1 <= i < |p.listed|
      ensures IsWaiting(g, st', p.listed[i].name) || Skips(INSTALL, g.shim, p.listed[i].node.labels)
    {
      assert p.listed[i].name != NextNode(p);
      SameSitePlace(g, st, st', p.listed[i].name);
    }
  }

  lemma LabelledFits(g: Goal, w: World, p: Pass, local: Node)
    requires ValidGoal(g) && StoreFits(g, w) && ThreadFits(g, w.st, Labelled(p, local))
    ensures CallFits(g, w.st, Labelled(p, local), DeployStep(w, Labelled(p, local), Ok))
  {
    var st, n := w.st, NextNode(p);
    var manifest := ManifestFor(g.shim, g.spec, n, st.nodes[n], INSTALL);
    assert n in g.nodes && DeployManifest(p, local) == manifest && JobOf(g, n) !in st.jobs;
    ApplyMoves(g, st, n);
    hide AllPlaced, StoreSound, SiteMoves, IsWaiting, Marked, ValidGoal, Skips, DeployManifest, ManifestFor, JobName, Describes, FinishedKind;
    var st' := PutJob(st, JobOf(g, n), manifest);
    SingleMove(g, st, st', n, 1);
    ListPast(g, st, st', p, 1);
    ListAdvances(g, st', p, Applied);
    hide Effect, ListFits;
  }

  lemma CallAdvances(g: Goal, w: World, th: Thread, reply: Reply)
    requires ValidGoal(g) && StoreFits(g, w) && ThreadFits(g, w.st, th) && FreshReply(g, w.st, th, reply) && WellPlaced(th)
    ensures CallFits(g, w.st, th, ThreadStep(w, th, reply))
  {
    hide StoreFits, CallFits, JobStep, LoopStep, DeployStep, FinalStep, PassStep, JobFits, JobDone, IsWaiting, Marked;
    match th {
      case JobStart(name) =>
        var n :| n in g.nodes && name == JobOf(g, n);
        JobStartFits(g, w, name, n, reply);
      case JobRead(job) => JobReadFits(g, w, job, reply);
      case JobWrite(node, local, _) => JobWriteFits(g, w, node, local);
      case PassLoop(p) => LoopFits(g, w, p, reply);
      case Fetched(p, local) => FetchedFits(g, w, p, local);
      case Labelled(p, local) => LabelledFits(g, w, p, local);
      case Ensuring(_, seen) => EnsuringFits(g, w, seen);
      case Ended => EndedFits(g, w);
      case PassStart(_) => PassCallFits(g, w, th, reply);
      case PassRead(_, _) => PassCallFits(g, w, th, reply);
      case PassListed(_, _, _) => PassCallFits(g, w, th, reply);
      case PassStatus(_, _, _) => PassCallFits(g, w, th, reply);
      case PassClass(_) => PassCallFits(g, w, th, reply);
    }
  }

  lemma EndedFits(g: Goal, w: World)
    requires StoreFits(g, w)
    ensures CallFits(g, w.st, Ended, (w, Ended))
  {
    NoMove(g, w.st, w.st);
  }

  // ---------------------------------------------------------------- the other threads

  /** The step at `site` does not concern what thread `th` holds. */
  ghost predicate Undisturbed(g: Goal, st: Store, st': Store, site: Option<string>, th: Thread) {
    if ActivePass(th) then
      && (site.Some? && IsWaiting(g, st, site.value) ==> IsWaiting(g, st', site.value))
      && (HeldSite(th) == None || HeldSite(th) != site)
    else
      th.JobWrite? && site == Some(th.node) ==>
        || (th.node in st.nodes && th.node in st'.nodes && st'.nodes[th.node] == st.nodes[th.node])
        || (th.node in st'.nodes && Lookup(st'.nodes[th.node].labels, g.shim) == PROVISIONED)
  }

  lemma OtherFits(g: Goal, st: Store, st': Store, site: Option<string>, gain: nat, th: Thread)
    requires AllPlaced(g, st) && Effect(g, st, st', site, gain)
    requires ThreadFits(g, st, th) && Undisturbed(g, st, st', site, th)
    ensures ThreadFits(g, st', th)
  {
    hide AllPlaced, Effect, ThreadFits, IsWaiting;
    if ActivePass(th) {
      PassKept(g, st, st', site, gain, th);
    } else {
      JobKept(g, st, st', site, gain, th);
    }
  }

  /** A step about an existing Job or its report leaves the pass and other reports alone. */
  lemma JobSideUndisturbed(g: Goal, st: Store, st': Store, n: string, th: Thread)
    requires ThreadFits(g, st, th) && JobOf(g, n) in st.jobs && n in st.nodes && n in st'.nodes
    requires st'.nodes[n] == st.nodes[n] || Lookup(st'.nodes[n].labels, g.shim) == PROVISIONED
    ensures Undisturbed(g, st, st', Some(n), th)
  {
    hide JobName, Resolve, JobManifest, FinishedKind, ListFits, JobFits;
  }

  /** A step of the pass on a node without Job leaves the reports alone. */
  lemma PassSideUndisturbed(g: Goal, st: Store, st': Store, site: Option<string>, th: Thread)
    requires ThreadFits(g, st, th) && !ActivePass(th) && (site.Some? ==> JobOf(g, site.value) !in st.jobs)
    ensures Undisturbed(g, st, st', site, th)
  {
    hide JobName, FinishedKind, JobFits;
  }

  lemma NowhereUndisturbed(g: Goal, st: Store, st': Store, th: Thread)
    ensures Undisturbed(g, st, st', None, th)
  {
  }

  /** Where the acting thread's site stands. */
  lemma SiteOfCall(g: Goal, st: Store, th: Thread)
    requires ThreadFits(g, st, th) && HeldSite(th).Some?
    ensures if ActivePass(th) then JobOf(g, HeldSite(th).value) !in st.jobs
            else th.JobWrite? && JobOf(g, th.node) in st.jobs && th.node in st.nodes
    ensures th.Fetched? || th.Labelled? || th.JobWrite?
  {
    hide JobName, Resolve, JobManifest, FinishedKind, ListFits, JobFits;
  }

  lemma CallUndisturbed(g: Goal, st: Store, th: Thread, r: (World, Thread), other: Thread)
    requires ThreadFits(g, st, th) && CallFits(g, st, th, r) && ThreadFits(g, st, other)
    requires !(ActivePass(th) && ActivePass(other))
    ensures Undisturbed(g, st, r.0.st, HeldSite(th), other)
  {
    hide ThreadFits, JobName, Effect;
    if HeldSite(th).None? {
      NowhereUndisturbed(g, st, r.0.st, other);
    } else {
      SiteOfCall(g, st, th);
      if ActivePass(th) {
        PassSideUndisturbed(g, st, r.0.st, HeldSite(th), other);
      } else {
        JobSideUndisturbed(g, st, r.0.st, th.node, other);
      }
    }
  }

  // ---------------------------------------------------------------- every faultless step

  /** What a step brings about. */
  ghost function StepGain(g: Goal, w: World, s: Step): nat {
    match s
    case Call(t, _) => if t in w.threads then CallGain(g, w.st, w.threads[t]) else 0
    case JobCondition(job, c) => Completion(w.st, job, c)
    case _ => 0
  }

  lemma CallStepFits(g: Goal, w: World, t: nat, reply: Reply)
    requires ValidGoal(g) && Converging(g, w) && Faultless(g, w, Call(t, reply))
    ensures var th, w' := w.threads[t], Next(w, Call(t, reply));
            && Effect(g, w.st, w'.st, HeldSite(th), CallGain(g, w.st, th))
            && OnePass(w') && AllFit(g, w') && MarkedHeld(g, w')
  {
    var th := w.threads[t];
    assert ThreadSound(w, th);
    ThreadStepSound(w, th, reply);
    CallAdvances(g, w, th, reply);
    var r := ThreadStep(w, th, reply);
    var w' := Next(w, Call(t, reply));
    assert w'.threads == w.threads[t := r.1] && w'.st == r.0.st;
    hide Inv, Next, ThreadStep, ThreadSound, ThreadFits, Effect, StoreSound, FreshReply;
    CallKeepsFit(g, w, t, r, w');
    CallKeepsHeld(g, w, t, r, w');
  }

  lemma CallKeepsFit(g: Goal, w: World, t: nat, r: (World, Thread), w': World)
    requires StoreFits(g, w) && OnePass(w) && AllFit(g, w) && t in w.threads && CallFits(g, w.st, w.threads[t], r)
    requires w'.threads == w.threads[t := r.1] && w'.st == r.0.st
    ensures OnePass(w') && AllFit(g, w')
  {
    hide ThreadFits, Effect, StoreSound, AllPlaced, ActivePass, HeldSite, Undisturbed;
    var th := w.threads[t];
    forall u | u in w'.threads ensures ThreadFits(g, w'.st, w'.threads[u]) {
      if u != t {
        CallUndisturbed(g, w.st, th, r, w.threads[u]);
        OtherFits(g, w.st, w'.st, HeldSite(th), CallGain(g, w.st, th), w.threads[u]);
      }
    }
  }

  lemma CallKeepsHeld(g: Goal, w: World, t: nat, r: (World, Thread), w': World)
    requires AllFit(g, w) && MarkedHeld(g, w) && t in w.threads && CallFits(g, w.st, w.threads[t], r)
    requires w'.threads == w.threads[t := r.1] && w'.st == r.0.st
    ensures MarkedHeld(g, w')
  {
    var th := w.threads[t];
    forall n | n in g.nodes && Marked(g, w'.st, n)
      ensures exists u :: u in w'.threads && w'.threads[u].Labelled? && HeldSite(w'.threads[u]) == Some(n)
    {
      MarkedAfterCall(g, w.st, th, r, n);
      if HeldSite(th) == Some(n) {
        assert w'.threads[t] == r.1;
      } else {
        var u :| u in w.threads && w.threads[u].Labelled? && HeldSite(w.threads[u]) == Some(n);
        assert u != t && w'.threads[u] == w.threads[u];
      }
    }
  }

  lemma MarkedAfterCall(g: Goal, st: Store, th: Thread, r: (World, Thread), n: string)
    requires ThreadFits(g, st, th) && CallFits(g, st, th, r) && n in g.nodes && Marked(g, r.0.st, n)
    ensures if HeldSite(th) == Some(n) then r.1.Labelled? && HeldSite(r.1) == Some(n) else Marked(g, st, n)
  {
    if HeldSite(th) == Some(n) {
      SiteOfCall(g, st, th);
    } else {
      SameSitePlace(g, st, r.0.st, n);
    }
    hide ThreadFits, Effect;
  }

  lemma StartFits(g: Goal, w: World, s: Step)
    requires Converging(g, w) && Faultless(g, w, s) && (s.StartJobPass? || s.StartShimPass?)
    ensures var w' := Next(w, s);
            Effect(g, w.st, w'.st, None, 0) && OnePass(w') && AllFit(g, w') && MarkedHeld(g, w')
  {
    NoMove(g, w.st, w.st);
    hide Inv, StoreFits, Effect, Marked;
    var th := if s.StartJobPass? then JobStart(s.job) else PassStart(s.shim);
    var w' := Next(w, s);
    assert w'.st == w.st && w'.threads == w.threads[s.t := th] && ThreadFits(g, w.st, th);
    hide Next, ThreadFits;
    StartKeepsHeld(g, w, s.t, th, w');
  }

  lemma StartKeepsHeld(g: Goal, w: World, t: nat, th: Thread, w': World)
    requires MarkedHeld(g, w) && Free(w, t) && w'.st == w.st && w'.threads == w.threads[t := th]
    ensures MarkedHeld(g, w')
  {
    hide Marked, HeldSite;
    forall n | n in g.nodes && Marked(g, w'.st, n)
      ensures exists u :: u in w'.threads && w'.threads[u].Labelled? && HeldSite(w'.threads[u]) == Some(n)
    {
      var u :| u in w.threads && w.threads[u].Labelled? && HeldSite(w.threads[u]) == Some(n);
      assert w'.threads[u] == w.threads[u];
    }
  }

  /** A step of the environment about node `n` that leaves every thread undisturbed and marks nothing. */
  lemma EnvironmentFits(g: Goal, w: World, w': World, n: string, gain: nat)
    requires Converging(g, w) && w'.threads == w.threads && Effect(g, w.st, w'.st, Some(n), gain)
    requires forall t :: t in w.threads ==> Undisturbed(g, w.st, w'.st, Some(n), w.threads[t])
    requires Marked(g, w'.st, n) ==> Marked(g, w.st, n)
    ensures OnePass(w') && AllFit(g, w') && MarkedHeld(g, w')
  {
    hide Inv, StoreSound, AllPlaced, ThreadFits, Undisturbed, Marked, HeldSite;
    forall t | t in w'.threads ensures ThreadFits(g, w'.st, w'.threads[t]) {
      OtherFits(g, w.st, w'.st, Some(n), gain, w.threads[t]);
    }
    forall m | m in g.nodes && Marked(g, w'.st, m) ensures Marked(g, w.st, m) {
      if m != n {
        SameSitePlace(g, w.st, w'.st, m);
      }
    }
  }

  lemma ConditionFits(g: Goal, w: World, n: string, c: Condition)
    requires ValidGoal(g) && Converging(g, w) && n in g.nodes && JobOf(g, n) in w.st.jobs && c != Condition(Failed, true)
    ensures var w' := Next(w, JobCondition(JobOf(g, n), c));
            && Effect(g, w.st, w'.st, Some(n), Completion(w.st, JobOf(g, n), c))
            && OnePass(w') && AllFit(g, w') && MarkedHeld(g, w')
  {
    var st, j := w.st, JobOf(g, n);
    var w' := Next(w, JobCondition(j, c));
    var gain := Completion(st, j, c);
    PlacedAt(g, st, n);
    assert Linked(g, st, n);
    ConditionMoves(g, st, n, c);
    assert w'.st == PutJob(st, j, st.jobs[j].(conditions := st.jobs[j].conditions + [c])) && w'.threads == w.threads;
    hide Inv, StoreSound, AllPlaced, Next, SiteMoves, Completion, ThreadFits, Linked, JobName, Undisturbed, FinishedKind, Describes;
    SingleMove(g, st, w'.st, n, gain);
    hide Effect;
    forall t | t in w.threads ensures Undisturbed(g, st, w'.st, Some(n), w.threads[t]) {
      JobSideUndisturbed(g, st, w'.st, n, w.threads[t]);
    }
    EnvironmentFits(g, w, w', n, gain);
  }

  lemma RelabelFits(g: Goal, w: World, n: string, labels: Labels)
    requires ValidGoal(g) && Converging(g, w) && Faultless(g, w, NodeRelabelled(n, labels))
    requires NoNewClaims(w.st.nodes[n].labels, labels)
    ensures var w' := Next(w, NodeRelabelled(n, labels));
            && Effect(g, w.st, w'.st, Some(n), 0) && OnePass(w') && AllFit(g, w') && MarkedHeld(g, w')
  {
    var st := w.st;
    var w' := Next(w, NodeRelabelled(n, labels));
    PlacedAt(g, st, n);
    RelabelMoves(g, st, n, labels);
    assert w'.st == PutNode(st, n, labels) && w'.threads == w.threads;
    hide Inv, StoreSound, AllPlaced, Next, SiteMoves, ThreadFits, IsWaiting, Marked, Placed, JobName, NoNewClaims;
    SingleMove(g, st, w'.st, n, 0);
    forall t | t in w.threads ensures Undisturbed(g, st, w'.st, Some(n), w.threads[t]) {
      assert HeldSite(w.threads[t]) != Some(n);
    }
    hide Effect, Undisturbed;
    EnvironmentFits(g, w, w', n, 0);
  }

  /** Every faultless step keeps all nodes in linked states and is about at most one of them. */
  lemma StepFits(g: Goal, w: World, s: Step) returns (site: Option<string>)
    requires ValidGoal(g) && Converging(g, w) && Faultless(g, w, s)
    ensures Converging(g, Next(w, s)) && Effect(g, w.st, Next(w, s).st, site, StepGain(g, w, s))
  {
    NextKeepsInv(w, s);
    assert StoreSound(Next(w, s)) by {
      assert Inv(Next(w, s));
    }
    hide Inv, StoreSound, AllPlaced, Effect, AllFit, MarkedHeld, OnePass;
    site := None;
    NoMove(g, w.st, w.st);
    match s {
      case Call(t, reply) =>
        site := HeldSite(w.threads[t]);
        CallStepFits(g, w, t, reply);
      case StartJobPass(_, _) => StartFits(g, w, s);
      case StartShimPass(_, _) => StartFits(g, w, s);
      case JobCondition(job, c) =>
        var n :| n in g.nodes && job == JobOf(g, n);
        if job in w.st.jobs {
          site := Some(n);
          ConditionFits(g, w, n, c);
        }
      case NodeRelabelled(n, labels) =>
        if NoNewClaims(w.st.nodes[n].labels, labels) {
          site := Some(n);
          RelabelFits(g, w, n, labels);
        }
    }
    EffectPlaces(g, w.st, Next(w, s).st, site, StepGain(g, w, s));
    EffectShim(g, w.st, Next(w, s).st, site, StepGain(g, w, s));
  }

  lemma EffectShim(g: Goal, st: Store, st': Store, site: Option<string>, gain: nat)
    requires Effect(g, st, st', site, gain)
    ensures ShimOk(g, st')
  {
  }

  // ---------------------------------------------------------------- the distance

  ghost function LeftFrom(g: Goal, st: Store, i: nat): nat
    requires i <= |g.nodes|
    decreases |g.nodes| - i
  {
    if i == |g.nodes| then 0 else Left(g, st, g.nodes[i]) + LeftFrom(g, st, i + 1)
  }

  /** Calls and completions that still have to land. */
  ghost function Remaining(g: Goal, st: Store): nat {
    LeftFrom(g, st, 0)
  }

  /** The share of `gain` that falls to the nodes from `i` on. */
  ghost function GainFrom(g: Goal, site: Option<string>, gain: nat, i: nat): nat
    requires i <= |g.nodes|
  {
    if site.Some? && site.value in g.nodes[i..] then gain else 0
  }

  lemma GainFromSplits(g: Goal, site: Option<string>, gain: nat, i: nat)
    requires ValidGoal(g) && i < |g.nodes|
    ensures GainFrom(g, site, gain, i) == (if site == Some(g.nodes[i]) then gain else 0) + GainFrom(g, site, gain, i + 1)
  {
    hide JobName;
    var rest := g.nodes[i + 1..];
    assert g.nodes[i..] == [g.nodes[i]] + rest;
    assert forall k :: 0 <= k < |rest| ==> rest[k] != g.nodes[i];
  }

  lemma LeftAfter(g: Goal, st: Store, st': Store, site: Option<string>, gain: nat, n: string)
    requires Effect(g, st, st', site, gain) && n in g.nodes
    ensures Left(g, st', n) + (if site == Some(n) then gain else 0) == Left(g, st, n)
  {
    hide Left, SameSite;
    if site != Some(n) {
      SameSitePlace(g, st, st', n);
    }
  }

  lemma {:induction false} EffectSum(g: Goal, st: Store, st': Store, site: Option<string>, gain: nat, i: nat)
    requires ValidGoal(g) && Effect(g, st, st', site, gain) && i <= |g.nodes|
    ensures LeftFrom(g, st', i) + GainFrom(g, site, gain, i) == LeftFrom(g, st, i)
    decreases |g.nodes| - i
  {
    hide Left, Effect, ValidGoal;
    if i < |g.nodes| {
      hide GainFrom;
      EffectSum(g, st, st', site, gain, i + 1);
      GainFromSplits(g, site, gain, i);
      LeftAfter(g, st, st', site, gain, g.nodes[i]);
    }
  }

  lemma StepRemaining(g: Goal, w: World, s: Step)
    requires ValidGoal(g) && Converging(g, w) && Faultless(g, w, s)
    ensures Converging(g, Next(w, s))
    ensures Remaining(g, Next(w, s).st) + StepGain(g, w, s) == Remaining(g, w.st)
  {
    var site := StepFits(g, w, s);
    EffectSum(g, w.st, Next(w, s).st, site, StepGain(g, w, s), 0);
    assert g.nodes[0..] == g.nodes;
    hide Converging, Next, StepGain;
  }

  // ---------------------------------------------------------------- whole runs

  ghost predicate FaultlessRun(g: Goal, w: World, steps: seq<Step>)
    decreases |steps|
  {
    steps != [] ==> Faultless(g, w, steps[0]) && FaultlessRun(g, Next(w, steps[0]), steps[1..])
  }

  /** How many label writes, Job creations, completions and reports land in a run. */
  ghost function Landed(g: Goal, w: World, steps: seq<Step>): nat
    decreases |steps|
  {
    if steps == [] then 0 else StepGain(g, w, steps[0]) + Landed(g, Next(w, steps[0]), steps[1..])
  }

  lemma {:induction false} RemainingBound(g: Goal, st: Store, i: nat)
    requires i <= |g.nodes|
    ensures LeftFrom(g, st, i) <= 4 * (|g.nodes| - i)
    decreases |g.nodes| - i
  {
    hide PhaseOf, Marked;
    if i < |g.nodes| {
      RemainingBound(g, st, i + 1);
    }
  }

  /** Convergence of the interleaved calls: in every faultless interleaving every node stays in a
      linked state or is marked by the pass that is about to create its Job, and what has landed and
      what remains always add up to what remained at the start, at most four per node. */
  lemma {:induction false} InterleavedConverges(g: Goal, w: World, steps: seq<Step>)
    requires ValidGoal(g) && Converging(g, w) && FaultlessRun(g, w, steps)
    ensures Converging(g, Run(w, steps))
    ensures Landed(g, w, steps) + Remaining(g, Run(w, steps).st) == Remaining(g, w.st) <= 4 * |g.nodes|
    decreases |steps|
  {
    hide Converging, Faultless, Next, StepGain;
    RemainingBound(g, w.st, 0);
    if steps != [] {
      StepRemaining(g, w, steps[0]);
      InterleavedConverges(g, Next(w, steps[0]), steps[1..]);
    }
  }

  lemma LeftIffProvisioned(g: Goal, st: Store, n: string)
    requires Placed(g, st, n)
    ensures Left(g, st, n) == 0 <==> ProvisionedAt(g, st, n)
  {
    hide JobName, Resolve, JobManifest, FinishedKind;
    assert PENDING != PROVISIONED && "" != PROVISIONED;
  }

  lemma {:induction false} RemainingZero(g: Goal, st: Store, i: nat)
    requires AllPlaced(g, st) && i <= |g.nodes|
    ensures LeftFrom(g, st, i) == 0 <==> forall k :: i <= k < |g.nodes| ==> ProvisionedAt(g, st, g.nodes[k])
    decreases |g.nodes| - i
  {
    if i < |g.nodes| {
      LeftIffProvisioned(g, st, g.nodes[i]);
      RemainingZero(g, st, i + 1);
      hide Placed, Left, ProvisionedAt;
    }
  }

  /** Nothing is under way: unlabelled nodes, no Jobs of the goal, the shim just created. */
  ghost predicate FreshWorld(g: Goal, w: World) {
    && Inv(w) && w.threads == map[] && ShimOk(g, w.st)
    && forall k :: 0 <= k < |g.nodes| ==> Untouched(g, w.st, g.nodes[k])
  }

  lemma UntouchedWaits(g: Goal, st: Store, n: string)
    requires Untouched(g, st, n)
    ensures Placed(g, st, n) && !Marked(g, st, n) && Left(g, st, n) == 4
  {
    hide JobName, Resolve;
    assert "" != PENDING;
  }

  lemma {:induction false} FreshRemaining(g: Goal, st: Store, i: nat)
    requires i <= |g.nodes| && forall k :: 0 <= k < |g.nodes| ==> Untouched(g, st, g.nodes[k])
    ensures LeftFrom(g, st, i) == 4 * (|g.nodes| - i)
    decreases |g.nodes| - i
  {
    hide Left, Untouched;
    if i < |g.nodes| {
      UntouchedWaits(g, st, g.nodes[i]);
      FreshRemaining(g, st, i + 1);
    }
  }

  lemma FreshConverging(g: Goal, w: World)
    requires FreshWorld(g, w)
    ensures Converging(g, w) && Remaining(g, w.st) == 4 * |g.nodes|
  {
    FreshRemaining(g, w.st, 0);
    hide Untouched, Placed, Marked, Left;
    forall k | 0 <= k < |g.nodes| ensures Placed(g, w.st, g.nodes[k]) && !Marked(g, w.st, g.nodes[k]) {
      UntouchedWaits(g, w.st, g.nodes[k]);
    }
  }

  /** From a fresh world a faultless interleaving has provisioned every node exactly when four steps
      per node have landed, and never more than that land. */
  lemma FreshRunConverges(g: Goal, w: World, steps: seq<Step>)
    requires ValidGoal(g) && FreshWorld(g, w) && FaultlessRun(g, w, steps)
    ensures Landed(g, w, steps) <= 4 * |g.nodes|
    ensures Landed(g, w, steps) == 4 * |g.nodes|
            <==> forall k :: 0 <= k < |g.nodes| ==> ProvisionedAt(g, Run(w, steps).st, g.nodes[k])
  {
    FreshConverging(g, w);
    InterleavedConverges(g, w, steps);
    RemainingZero(g, Run(w, steps).st, 0);
    hide Landed, Run, LeftFrom, ProvisionedAt, AllPlaced;
  }

  /** Whenever no deployment is between its label and its Job, every node is in one of the four
      linked states. */
  lemma LinkedBetweenDeployments(g: Goal, w: World)
    requires Converging(g, w) && forall t :: t in w.threads ==> !w.threads[t].Labelled?
    ensures AllLinked(g, w.st)
  {
    hide Inv, StoreSound, Linked, Marked, AllFit;
    forall i | 0 <= i < |g.nodes| ensures Linked(g, w.st, g.nodes[i]) {
      assert Placed(g, w.st, g.nodes[i]) && g.nodes[i] in g.nodes;
    }
  }
}
