/** As long as a node is not provisioned, some faultless continuation of the interleaved calls brings
    it closer, whatever the reconcilers are in the middle of. */
module InterleavedProgress {
  import opened Wrappers
  import opened Manifest
  import opened Api
  import opened Protocol
  import opened ProtocolSafety
  import opened Convergence
  import opened Interleaved

  /** One faultless step in front of a faultless run. */
  lemma Prepend(g: Goal, w: World, s: Step, rest: seq<Step>)
    requires Faultless(g, w, s) && FaultlessRun(g, Next(w, s), rest)
    ensures FaultlessRun(g, w, [s] + rest) && Run(w, [s] + rest) == Run(Next(w, s), rest)
    ensures Landed(g, w, [s] + rest) == StepGain(g, w, s) + Landed(g, Next(w, s), rest)
  {
    hide Faultless, Next, StepGain;
    assert ([s] + rest)[0] == s && ([s] + rest)[1..] == rest;
  }

  /** One step that lands is a run that lands. */
  lemma Single(g: Goal, w: World, s: Step)
    requires Faultless(g, w, s)
    ensures FaultlessRun(g, w, [s]) && Landed(g, w, [s]) == StepGain(g, w, s)
  {
    Prepend(g, w, s, []);
    assert [s] + [] == [s];
  }

  // ---------------------------------------------------------------- driving a pass

  /** The fresh answer that serves the pass; a listing shows `n` alone. */
  function Serve(g: Goal, st: Store, th: Thread, n: string): Reply
    requires n in st.nodes && g.shim in st.shims
  {
    match th
    case PassStart(_) => SawShim(st.shims[g.shim])
    case PassRead(_, _) => SawNodes([Listed(n, st.nodes[n])])
    case PassStatus(_, _, _) => SawShim(st.shims[g.shim])
    case PassLoop(p) => if AtNode(p) && NextNode(p) in st.nodes then SawNode(st.nodes[NextNode(p)]) else Ok
    case _ => Ok
  }

  /** Calls the pass has left, at most. */
  function PassWork(th: Thread): int {
    match th
    case PassStart(_) => 8
    case PassRead(_, _) => 7
    case PassListed(_, _, listed) => 5 + |listed|
    case PassStatus(_, _, listed) => 4 + |listed|
    case PassClass(p) => 3 + |p.listed| - |p.outcomes|
    case PassLoop(p) => 2 + |p.listed| - |p.outcomes|
    case Ended => 0
    case _ => 1
  }

  /** Some node from the `k`-th on will not be skipped. */
  ghost predicate Due(g: Goal, listed: seq<Listed>, k: nat) {
    exists i :: k <= i < |listed| && !Skips(INSTALL, g.shim, listed[i].node.labels)
  }

  /** The pass will deploy on some node. */
  ghost predicate WillLand(g: Goal, th: Thread) {
    match th
    case PassStart(_) => true
    case PassRead(_, seen) => seen.spec == g.spec
    case PassListed(_, _, listed) => Due(g, listed, 0)
    case PassStatus(_, _, listed) => Due(g, listed, 0)
    case PassClass(p) => Due(g, p.listed, |p.outcomes|)
    case PassLoop(p) => Due(g, p.listed, |p.outcomes|)
    case Fetched(_, _) => true
    case Labelled(_, _) => true
    case _ => false
  }

  /** A node that a pass would deploy on. */
  ghost predicate Eligible(g: Goal, st: Store, n: string) {
    n in g.nodes && IsWaiting(g, st, n) && Selected(g.spec, st.nodes[n].labels)
  }

  lemma ServeIsFresh(g: Goal, st: Store, th: Thread, n: string)
    requires AllPlaced(g, st) && ShimOk(g, st) && n in g.nodes && n in st.nodes && ThreadFits(g, st, th) && ActivePass(th)
    ensures FreshReply(g, st, th, Serve(g, st, th, n))
  {
    if th.PassLoop? && AtNode(th.pass) {
      assert NextNode(th.pass) in g.nodes;
      PlacedAt(g, st, NextNode(th.pass));
    }
    hide AllPlaced, IsWaiting, Marked;
  }

  lemma ListingIsDue(g: Goal, st: Store, n: string)
    requires IsWaiting(g, st, n)
    ensures Due(g, [Listed(n, st.nodes[n])], 0)
  {
    hide JobName, Resolve, OwnJob, FinishedKind;
    assert INSTALL != UNINSTALL && "" != PENDING && "" != PROVISIONED;
    assert !Skips(INSTALL, g.shim, [Listed(n, st.nodes[n])][0].node.labels);
  }

  /** A call of the pass before its loop gets it further, and a listing shows the eligible node. */
  lemma PassFurther(g: Goal, w: World, th: Thread, n: string)
    requires StoreFits(g, w) && ThreadFits(g, w.st, th) && Eligible(g, w.st, n) && !g.spec.rolling
    requires th.PassStart? || th.PassRead? || th.PassListed? || th.PassStatus? || th.PassClass?
    ensures var th' := PassStep(w, th, Serve(g, w.st, th, n)).1;
            ActivePass(th') && PassWork(th') < PassWork(th) && (WillLand(g, th) ==> WillLand(g, th'))
  {
    ListingIsDue(g, w.st, n);
    var listing := [Listed(n, w.st.nodes[n])];
    assert listing[0].name == n;
    assert LegalList(w, g.spec, listing);
    hide AllPlaced, IsWaiting, ListFits, Due, Selected, LegalList;
  }

  lemma LoopFurther(g: Goal, w: World, p: Pass, n: string)
    requires StoreFits(g, w) && ThreadFits(g, w.st, PassLoop(p)) && n in g.nodes && n in w.st.nodes
    ensures var th' := LoopStep(w, p, Serve(g, w.st, PassLoop(p), n)).1;
            ActivePass(th') && PassWork(th') < PassWork(PassLoop(p)) && (WillLand(g, PassLoop(p)) ==> WillLand(g, th'))
  {
    if AtNode(p) {
      var m := NextNode(p);
      assert m in g.nodes;
      PlacedAt(g, w.st, m);
      if !Skips(p.op, p.shim, p.listed[|p.outcomes|].node.labels) {
        assert IsWaiting(g, w.st, m);
        assert Resolve(g.spec.fetch, w.st.nodes[m].os, w.st.nodes[m].arch).Some?;
        assert (m, w.st.nodes[m]) in w.log.nodes;
      }
    }
    hide AllPlaced, IsWaiting, ListFits, Skips, Resolve, StoreSound;
  }

  /** Where a served call takes an active pass that is not about to write. */
  lemma ThreadFurther(g: Goal, w: World, th: Thread, n: string)
    requires StoreFits(g, w) && ThreadFits(g, w.st, th) && ActivePass(th) && WellPlaced(th) && !th.Fetched? && !th.Labelled?
    requires Eligible(g, w.st, n) && !g.spec.rolling
    ensures var th' := ThreadStep(w, th, Serve(g, w.st, th, n)).1;
            && HeldSite(th) == None && (ActivePass(th') || th'.Ended?) && PassWork(th') < PassWork(th)
            && (WillLand(g, th) ==> ActivePass(th') && WillLand(g, th'))
  {
    assert n in g.nodes && n in w.st.nodes;
    hide StoreFits, Eligible, PassStep, LoopStep, DeployStep, JobStep, WriteShim, Serve, Due;
    match th {
      case PassLoop(p) => LoopFurther(g, w, p, n);
      case Ensuring(_, _) =>
      case PassStart(_) => PassFurther(g, w, th, n);
      case PassRead(_, _) => PassFurther(g, w, th, n);
      case PassListed(_, _, _) => PassFurther(g, w, th, n);
      case PassStatus(_, _, _) => PassFurther(g, w, th, n);
      case PassClass(_) => PassFurther(g, w, th, n);
    }
  }

  /** A served call of an active pass: it lands something, or gets the pass further without touching
      any node. */
  lemma CallFurther(g: Goal, w: World, t: nat, n: string)
    requires ValidGoal(g) && Converging(g, w) && t in w.threads && ActivePass(w.threads[t])
    requires Eligible(g, w.st, n) && !g.spec.rolling
    ensures g.shim in w.st.shims
    ensures var th := w.threads[t];
            var s := Call(t, Serve(g, w.st, th, n));
            && Faultless(g, w, s) && t in Next(w, s).threads
            && (StepGain(g, w, s) > 0
                || (var th' := Next(w, s).threads[t];
                    && (forall m :: m in g.nodes ==> SameSite(g, w.st, Next(w, s).st, m))
                    && (ActivePass(th') || th'.Ended?) && PassWork(th') < PassWork(th)
                    && (WillLand(g, th) ==> ActivePass(th') && WillLand(g, th'))))
  {
    var th := w.threads[t];
    var reply := Serve(g, w.st, th, n);
    assert ThreadSound(w, th);
    ThreadStepSound(w, th, reply);
    ServeIsFresh(g, w.st, th, n);
    hide Inv, ThreadStep, ThreadSound, StoreFits, OnePass, MarkedHeld, Eligible, Serve, FreshReply;
    if !th.Fetched? && !th.Labelled? {
      ThreadFurther(g, w, th, n);
      hide ThreadFits, WillLand, PassWork, ActivePass;
      CallTouchesNothing(g, w, t, reply);
    }
  }

  lemma CallTouchesNothing(g: Goal, w: World, t: nat, reply: Reply)
    requires ValidGoal(g) && Converging(g, w) && Faultless(g, w, Call(t, reply)) && HeldSite(w.threads[t]) == None
    ensures forall m :: m in g.nodes ==> SameSite(g, w.st, Next(w, Call(t, reply)).st, m)
  {
    CallStepFits(g, w, t, reply);
    hide Converging, Faultless, Next, SameSite, SiteMoves, ShimOk, HeldSite, CallGain;
  }

  /** No pass of the shim is under way. */
  ghost predicate Idle(w: World) {
    forall t :: t in w.threads ==> !ActivePass(w.threads[t])
  }

  lemma EligibleKept(g: Goal, st: Store, st': Store, n: string)
    requires Eligible(g, st, n) && SameSite(g, st, st', n)
    ensures Eligible(g, st', n)
  {
    SameSitePlace(g, st, st', n);
  }

  lemma SameSiteTransitive(g: Goal, a: Store, b: Store, c: Store)
    requires forall m :: m in g.nodes ==> SameSite(g, a, b, m) && SameSite(g, b, c, m)
    ensures forall m :: m in g.nodes ==> SameSite(g, a, c, m)
  {
    hide JobName;
  }

  /** Serving an active pass until it lands something or ends. One that is due lands. */
  lemma {:induction false} Drive(g: Goal, w: World, t: nat, n: string) returns (steps: seq<Step>)
    requires ValidGoal(g) && Converging(g, w) && t in w.threads && ActivePass(w.threads[t])
    requires Eligible(g, w.st, n) && !g.spec.rolling
    ensures FaultlessRun(g, w, steps)
    ensures Landed(g, w, steps) > 0
            || (!WillLand(g, w.threads[t]) && Idle(Run(w, steps))
                && forall m :: m in g.nodes ==> SameSite(g, w.st, Run(w, steps).st, m))
    decreases PassWork(w.threads[t])
  {
    CallFurther(g, w, t, n);
    var s := Call(t, Serve(g, w.st, w.threads[t], n));
    var w' := Next(w, s);
    StepRemaining(g, w, s);
    if StepGain(g, w, s) > 0 {
      Single(g, w, s);
      steps := [s];
    } else {
      var rest := [];
      if ActivePass(w'.threads[t]) {
        assert n in g.nodes;
        EligibleKept(g, w.st, w'.st, n);
        rest := Drive(g, w', t, n);
      } else {
        OthersIdle(g, w, s);
      }
      Prepend(g, w, s, rest);
      steps := [s] + rest;
      hide Converging, Faultless, Eligible, StepGain, Next, WillLand, PassWork, SameSite, Serve;
      if Landed(g, w, steps) == 0 {
        SameSiteTransitive(g, w.st, w'.st, Run(w', rest).st);
      }
    }
  }

  /** When the one active pass has ended, none is left. */
  lemma OthersIdle(g: Goal, w: World, s: Step)
    requires Converging(g, w) && s.Call? && s.t in w.threads && ActivePass(w.threads[s.t])
    requires s.t in Next(w, s).threads && !ActivePass(Next(w, s).threads[s.t])
    ensures Idle(Next(w, s))
  {
    assert ThreadSound(w, w.threads[s.t]);
    ThreadStepSound(w, w.threads[s.t], s.reply);
    hide Inv, ThreadStep, ThreadSound, StoreFits, AllFit, MarkedHeld, ActivePass;
  }

  // ---------------------------------------------------------------- the four ways to get closer

  lemma FreeThread(w: World) returns (t: nat)
    ensures t !in w.threads
  {
    t := MaxThread(w.threads.Keys) + 1;
  }

  ghost function MaxThread(ts: set<nat>): (m: nat)
    ensures forall t :: t in ts ==> t <= m
  {
    if ts == {} then 0
    else
      var t :| t in ts;
      var m := MaxThread(ts - {t});
      assert ts == ts - {t} + {t};
      if t <= m then m else t
  }

  /** An eligible node gets its pass: the active one is served to its end, and a new one lands. */
  lemma WaitingLands(g: Goal, w: World, n: string) returns (steps: seq<Step>)
    requires ValidGoal(g) && Converging(g, w) && Eligible(g, w.st, n) && !g.spec.rolling && Idle(w)
    ensures FaultlessRun(g, w, steps) && Landed(g, w, steps) > 0
  {
    var t := FreeThread(w);
    var s := StartShimPass(t, g.shim);
    StepRemaining(g, w, s);
    var w' := Next(w, s);
    assert w'.threads[t] == PassStart(g.shim) && w'.st == w.st;
    var rest := Drive(g, w', t, n);
    Prepend(g, w, s, rest);
    steps := [s] + rest;
  }

  /** A running Job completes. */
  lemma RunningLands(g: Goal, w: World, n: string) returns (steps: seq<Step>)
    requires n in g.nodes && Linked(g, w.st, n) && PhaseOf(g, w.st, n).Running?
    ensures FaultlessRun(g, w, steps) && Landed(g, w, steps) > 0
  {
    hide JobName, Resolve, JobManifest, Describes;
    var s := JobCondition(JobOf(g, n), Condition(Complete, true));
    assert Condition(Complete, true) != Condition(Failed, true);
    Single(g, w, s);
    steps := [s];
  }

  /** What the Job reconcile does with the completed install Job of `n`, call by call. */
  lemma ReportCalls(g: Goal, w: World, t: nat, n: string)
    requires StoreSound(w) && n in g.nodes && Linked(g, w.st, n) && PhaseOf(g, w.st, n).Finished?
    ensures var job, node := w.st.jobs[JobOf(g, n)], w.st.nodes[n];
            && job.template.nodeName == n
            && JobStep(w, JobStart(JobOf(g, n)), SawJob(job)) == (w, JobRead(job))
            && JobStep(w, JobRead(job), SawNode(node)) == (w, JobWrite(n, node.(labels := node.labels[g.shim := PROVISIONED]), g.shim))
  {
    hide JobName, Resolve, JobManifest;
    assert INSTALL != UNINSTALL;
  }

  /** A read of the Job reconcile moves its thread on and nothing else, whatever the other threads do. */
  lemma JobReadNext(w: World, v: World, t: nat, th: Thread, reply: Reply, th': Thread)
    requires v == w.(threads := v.threads) && t in v.threads && v.threads[t] == th && (th.JobStart? || th.JobRead?)
    requires JobStep(w, th, reply) == (w, th')
    ensures Next(v, Call(t, reply)) == v.(threads := v.threads[t := th'])
  {
    hide JobVerdict;
  }

  /** The last call of a report lands. */
  lemma LastCallLands(g: Goal, w: World, t: nat, n: string, local: Node)
    requires n in w.st.nodes && PhaseOf(g, w.st, n).Finished? && t in w.threads && w.threads[t] == JobWrite(n, local, g.shim)
    ensures FaultlessRun(g, w, [Call(t, Ok)]) && Landed(g, w, [Call(t, Ok)]) == 1
  {
    hide PhaseOf;
    Single(g, w, Call(t, Ok));
  }

  lemma ReportIsFaultless(g: Goal, w: World, w1: World, w2: World, t: nat, n: string, job: Job)
    requires n in g.nodes && n in w.st.nodes && JobOf(g, n) in w.st.jobs && w.st.jobs[JobOf(g, n)] == job
    requires t !in w.threads && job.template.nodeName == n
    requires w1 == w.(threads := w.threads[t := JobStart(JobOf(g, n))]) && w2 == w1.(threads := w1.threads[t := JobRead(job)])
    ensures Faultless(g, w, StartJobPass(t, JobOf(g, n))) && Faultless(g, w1, Call(t, SawJob(job)))
    ensures Faultless(g, w2, Call(t, SawNode(w.st.nodes[n])))
  {
    hide JobName;
  }

  /** A completed Job is reported by a reconcile of its own. */
  lemma FinishedLands(g: Goal, w: World, n: string) returns (steps: seq<Step>)
    requires Converging(g, w) && n in g.nodes && Linked(g, w.st, n) && PhaseOf(g, w.st, n).Finished?
    ensures FaultlessRun(g, w, steps) && Landed(g, w, steps) > 0
  {
    var t := FreeThread(w);
    ReportCalls(g, w, t, n);
    var j := JobOf(g, n);
    var job, node := w.st.jobs[j], w.st.nodes[n];
    var local := node.(labels := node.labels[g.shim := PROVISIONED]);
    var a, b, c, d := StartJobPass(t, j), Call(t, SawJob(job)), Call(t, SawNode(node)), Call(t, Ok);
    var w1 := w.(threads := w.threads[t := JobStart(j)]);
    var w2 := w1.(threads := w1.threads[t := JobRead(job)]);
    var w3 := w2.(threads := w2.threads[t := JobWrite(n, local, g.shim)]);
    assert Next(w, a) == w1 && JobOf(g, n) in w.st.jobs;
    ReportIsFaultless(g, w, w1, w2, t, n, job);
    hide Converging, JobName, Linked, PhaseOf, JobStep, Faultless, FaultlessRun, Landed, StepGain;
    JobReadNext(w, w1, t, JobStart(j), SawJob(job), JobRead(job));
    JobReadNext(w, w2, t, JobRead(job), SawNode(node), JobWrite(n, local, g.shim));
    hide Next;
    LastCallLands(g, w3, t, n, local);
    Prepend(g, w2, c, [d]);
    Prepend(g, w1, b, [c] + [d]);
    Prepend(g, w, a, [b] + ([c] + [d]));
    steps := [a] + ([b] + ([c] + [d]));
  }

  lemma {:induction false} FindLeft(g: Goal, st: Store, i: nat) returns (k: nat)
    requires i <= |g.nodes| && LeftFrom(g, st, i) > 0
    ensures i <= k < |g.nodes| && Left(g, st, g.nodes[k]) > 0
    decreases |g.nodes| - i
  {
    if Left(g, st, g.nodes[i]) > 0 {
      k := i;
    } else {
      k := FindLeft(g, st, i + 1);
    }
  }

  /** The shim's nodes are selected by it and its strategy is supported. */
  ghost predicate Deployable(g: Goal, st: Store) {
    !g.spec.rolling && forall i :: 0 <= i < |g.nodes| ==> g.nodes[i] in st.nodes && Selected(g.spec, st.nodes[g.nodes[i]].labels)
  }

  /** A waiting node, with a pass possibly in the middle of something else. */
  lemma WaitingProgress(g: Goal, w: World, n: string) returns (steps: seq<Step>)
    requires ValidGoal(g) && Converging(g, w) && Eligible(g, w.st, n) && !g.spec.rolling
    ensures FaultlessRun(g, w, steps) && Landed(g, w, steps) > 0
  {
    if t :| t in w.threads && ActivePass(w.threads[t]) {
      steps := Drive(g, w, t, n);
      if Landed(g, w, steps) == 0 {
        var w' := Run(w, steps);
        InterleavedConverges(g, w, steps);
        EligibleKept(g, w.st, w'.st, n);
        var more := WaitingLands(g, w', n);
        RunThen(g, w, steps, more);
        steps := steps + more;
      }
    } else {
      steps := WaitingLands(g, w, n);
    }
  }

  lemma {:induction false} RunThen(g: Goal, w: World, a: seq<Step>, b: seq<Step>)
    requires FaultlessRun(g, w, a) && FaultlessRun(g, Run(w, a), b)
    ensures FaultlessRun(g, w, a + b) && Landed(g, w, a + b) == Landed(g, w, a) + Landed(g, Run(w, a), b)
    decreases |a|
  {
    hide Faultless, Next, StepGain;
    if a == [] {
      assert a + b == b;
    } else {
      assert (a + b)[0] == a[0] && (a + b)[1..] == a[1..] + b;
      RunThen(g, Next(w, a[0]), a[1..], b);
    }
  }

  /** Short of the goal, whatever is under way, some faultless continuation lands something. */
  lemma AlwaysProgress(g: Goal, w: World) returns (steps: seq<Step>)
    requires ValidGoal(g) && Converging(g, w) && Deployable(g, w.st) && Remaining(g, w.st) > 0
    ensures FaultlessRun(g, w, steps) && Landed(g, w, steps) > 0
  {
    var k := FindLeft(g, w.st, 0);
    var n := g.nodes[k];
    assert Placed(g, w.st, n) && n in g.nodes;
    if Marked(g, w.st, n) {
      var t :| t in w.threads && w.threads[t].Labelled? && HeldSite(w.threads[t]) == Some(n);
      Single(g, w, Call(t, Ok));
      steps := [Call(t, Ok)];
    } else {
      hide Converging, Linked, FaultlessRun, Landed;
      match PhaseOf(g, w.st, n) {
        case Waiting => steps := WaitingProgress(g, w, n);
        case Running => steps := RunningLands(g, w, n);
        case Finished => steps := FinishedLands(g, w, n);
      }
    }
  }

  /** A faultless interleaving that no continuation can get any further has provisioned every node. */
  lemma StuckOnlyWhenDone(g: Goal, w: World, steps: seq<Step>)
    requires ValidGoal(g) && Converging(g, w) && FaultlessRun(g, w, steps) && Deployable(g, Run(w, steps).st)
    requires forall more :: FaultlessRun(g, Run(w, steps), more) ==> Landed(g, Run(w, steps), more) == 0
    ensures forall k :: 0 <= k < |g.nodes| ==> ProvisionedAt(g, Run(w, steps).st, g.nodes[k])
  {
    hide Run, FaultlessRun, Landed, Deployable, ProvisionedAt;
    InterleavedConverges(g, w, steps);
    var w' := Run(w, steps);
    if Remaining(g, w'.st) > 0 {
      var more := AlwaysProgress(g, w');
    }
    RemainingZero(g, w'.st, 0);
  }
}
