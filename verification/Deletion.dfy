/** The deletion side: which labelled nodes the passes of a deleting shim, the completion of its
    uninstall Jobs and the Job controller's reports get unlabelled. */
module Deletion {
  import opened Wrappers
  import opened Manifest
  import opened Api
  import opened Protocol
  import opened Controllers
  import opened Convergence

  function UninstallJobOf(g: Goal, n: string): string {
    JobName(n, g.shim, UNINSTALL)
  }

  datatype Deed =
    | ClearNode(node: string)         // a deletion pass reaches this node
    | FinishUninstall(node: string)   // the node's uninstall Job completes
    | ReportUninstall(node: string)   // the Job controller reconciles that Job

  function Do(g: Goal, st: Store, a: Deed): Store {
    if a.node !in st.nodes then st
    else
      match a
      case ClearNode(n) => Clear(st, g.shim, g.spec, ListedAt(st, n), SERVED).0
      case FinishUninstall(n) => Complete1(st, UninstallJobOf(g, n))
      case ReportUninstall(n) => Observe(st, UninstallJobOf(g, n))
  }

  function DoAll(g: Goal, st: Store, deeds: seq<Deed>): Store
    decreases |deeds|
  {
    if deeds == [] then st else DoAll(g, Do(g, st, deeds[0]), deeds[1..])
  }

  ghost predicate LabelledAt(g: Goal, st: Store, n: string) {
    n in st.nodes && g.shim in st.nodes[n].labels
  }

  /** The label cannot go: the uninstall Job has failed, or its cut name is taken by another Job. */
  ghost predicate Stuck(g: Goal, st: Store, n: string) {
    && LabelledAt(g, st, n) && UninstallJobOf(g, n) in st.jobs
    && var job := st.jobs[UninstallJobOf(g, n)];
       FinishedKind(job.conditions) == Some(Failed) || WorkOf(job) != Work(n, g.shim, UNINSTALL)
  }

  ghost predicate SoundUninstallJob(g: Goal, st: Store, n: string) {
    UninstallJobOf(g, n) in st.jobs ==> Describes(st.jobs[UninstallJobOf(g, n)], WorkOf(st.jobs[UninstallJobOf(g, n)]))
  }

  /** The uninstall Job of another node `m` is a different one and runs elsewhere. */
  ghost predicate Elsewhere(g: Goal, st: Store, n: string, m: string) {
    m != n ==>
      && UninstallJobOf(g, m) != UninstallJobOf(g, n)
      && (UninstallJobOf(g, m) in st.jobs ==> st.jobs[UninstallJobOf(g, m)].template.nodeName != n)
  }

  // ---------------------------------------------------------------- a stuck node stays labelled

  /** Applying the uninstall manifest over a stored Job. */
  lemma UninstallOver(g: Goal, st: Store, n: string)
    requires n in st.nodes && SoundUninstallJob(g, st, n) && UninstallJobOf(g, n) in st.jobs
    ensures var job, manifest := st.jobs[UninstallJobOf(g, n)], ManifestFor(g.shim, g.spec, n, st.nodes[n], UNINSTALL);
            job.template == manifest.template ==>
              WorkOf(job) == Work(n, g.shim, UNINSTALL) && Describes(Merge(job, manifest), WorkOf(job)) && WorkOf(Merge(job, manifest)) == WorkOf(job)
  {
    var job, manifest := st.jobs[UninstallJobOf(g, n)], ManifestFor(g.shim, g.spec, n, st.nodes[n], UNINSTALL);
    DescribedManifest(g.shim, g.spec, n, st.nodes[n], UNINSTALL);
    hide JobName;
    if job.template == manifest.template {
      MergeDescribes(job, manifest, WorkOf(job), Work(n, g.shim, UNINSTALL));
    }
  }

  lemma StuckClear(g: Goal, st: Store, n: string)
    requires Stuck(g, st, n) && SoundUninstallJob(g, st, n)
    ensures Stuck(g, Do(g, st, ClearNode(n)), n) && SoundUninstallJob(g, Do(g, st, ClearNode(n)), n)
  {
    UninstallOver(g, st, n);
    hide JobName, Resolve, ManifestFor, Describes, WorkOf, FinishedKind;
  }

  lemma StuckFinish(g: Goal, st: Store, n: string)
    requires Stuck(g, st, n) && SoundUninstallJob(g, st, n)
    ensures Stuck(g, Do(g, st, FinishUninstall(n)), n) && SoundUninstallJob(g, Do(g, st, FinishUninstall(n)), n)
  {
    hide JobName, Resolve, FinishedKind;
  }

  lemma StuckVerdict(g: Goal, job: Job, n: string)
    requires Describes(job, WorkOf(job))
    requires FinishedKind(job.conditions) == Some(Failed) || WorkOf(job) != Work(n, g.shim, UNINSTALL)
    ensures job.template.nodeName == n && job.labels[SHIM_NAME] == g.shim ==> JobVerdict(job) != Unmark
  {
    assert INSTALL != UNINSTALL;
  }

  lemma StuckReport(g: Goal, st: Store, n: string)
    requires Stuck(g, st, n) && SoundUninstallJob(g, st, n)
    ensures Stuck(g, Do(g, st, ReportUninstall(n)), n) && SoundUninstallJob(g, Do(g, st, ReportUninstall(n)), n)
  {
    StuckVerdict(g, st.jobs[UninstallJobOf(g, n)], n);
    hide JobName, Resolve, FinishedKind, JobVerdict, WorkOf, Describes;
  }

  lemma StuckElsewhere(g: Goal, st: Store, a: Deed, n: string)
    requires Stuck(g, st, n) && SoundUninstallJob(g, st, n) && a.node != n && Elsewhere(g, st, n, a.node)
    ensures Stuck(g, Do(g, st, a), n) && SoundUninstallJob(g, Do(g, st, a), n)
  {
    hide JobName, Resolve, JobManifest, FinishedKind, JobVerdict, Describes, WorkOf, Deploy;
    DeployLeavesOthers(st, g.shim, g.spec, a.node, UNINSTALL, SERVED, n, UninstallJobOf(g, n));
  }

  lemma ElsewhereKept(g: Goal, st: Store, a: Deed, n: string, m: string)
    requires Elsewhere(g, st, n, a.node) && Elsewhere(g, st, n, m)
    ensures Elsewhere(g, Do(g, st, a), n, m)
  {
    hide JobName, Resolve, FinishedKind, JobVerdict;
  }

  /** No schedule of deletion passes, completions and reports, on this and other nodes, unlabels a
      stuck node. */
  lemma {:induction false} StuckForever(g: Goal, st: Store, deeds: seq<Deed>, n: string)
    requires Stuck(g, st, n) && SoundUninstallJob(g, st, n) && forall a :: a in deeds ==> Elsewhere(g, st, n, a.node)
    ensures LabelledAt(g, DoAll(g, st, deeds), n)
    decreases |deeds|
  {
    hide Do, Elsewhere, SoundUninstallJob;
    if deeds != [] {
      var a := deeds[0];
      assert a in deeds;
      if a.node != n {
        StuckElsewhere(g, st, a, n);
      } else {
        match a {
          case ClearNode(_) => StuckClear(g, st, n);
          case FinishUninstall(_) => StuckFinish(g, st, n);
          case ReportUninstall(_) => StuckReport(g, st, n);
        }
      }
      forall b | b in deeds[1..] ensures Elsewhere(g, Do(g, st, a), n, b.node) {
        ElsewhereKept(g, st, a, n, b.node);
      }
      StuckForever(g, Do(g, st, a), deeds[1..], n);
    }
  }

  // ---------------------------------------------------------------- every other node is cleared

  ghost predicate HasGoodUninstallJob(g: Goal, st: Store, n: string) {
    && n in st.nodes && UninstallJobOf(g, n) in st.jobs
    && Describes(st.jobs[UninstallJobOf(g, n)], Work(n, g.shim, UNINSTALL))
    && FinishedKind(st.jobs[UninstallJobOf(g, n)].conditions) != Some(Failed)
  }

  lemma ClearGivesJob(g: Goal, st: Store, n: string)
    requires LabelledAt(g, st, n) && SoundUninstallJob(g, st, n) && !Stuck(g, st, n)
    ensures HasGoodUninstallJob(g, Do(g, st, ClearNode(n)), n)
  {
    var manifest := ManifestFor(g.shim, g.spec, n, st.nodes[n], UNINSTALL);
    DescribedManifest(g.shim, g.spec, n, st.nodes[n], UNINSTALL);
    if UninstallJobOf(g, n) in st.jobs {
      UninstallOver(g, st, n);
    }
    assert manifest.conditions == [] && INSTALL != UNINSTALL;
    hide JobName, Resolve, ManifestFor, Describes, WorkOf;
  }

  lemma FinishAndUnlabel(g: Goal, st: Store, n: string)
    requires HasGoodUninstallJob(g, st, n)
    ensures !LabelledAt(g, Do(g, Do(g, st, FinishUninstall(n)), ReportUninstall(n)), n)
  {
    hide JobName;
    var j := UninstallJobOf(g, n);
    var mid := Do(g, st, FinishUninstall(n));
    FinishedKindStable(st.jobs[j].conditions, Condition(Complete, true));
    FinishedKindSound(st.jobs[j].conditions);
    assert FinishedKind(mid.jobs[j].conditions) == Some(Complete);
    assert Describes(mid.jobs[j], Work(n, g.shim, UNINSTALL)) && n in mid.nodes && INSTALL != UNINSTALL;
  }

  lemma ThreeDeeds(g: Goal, st: Store, a: Deed, b: Deed, c: Deed)
    ensures DoAll(g, st, [a, b, c]) == Do(g, Do(g, Do(g, st, a), b), c)
  {
    hide Do;
    assert [a, b, c][1..] == [b, c] && [b, c][1..] == [c] && [c][1..] == [];
    var s1 := Do(g, st, a);
    var s2 := Do(g, s1, b);
    assert DoAll(g, st, [a, b, c]) == DoAll(g, s1, [b, c]);
    assert DoAll(g, s1, [b, c]) == DoAll(g, s2, [c]);
    assert DoAll(g, s2, [c]) == Do(g, s2, c);
  }

  ghost predicate Clearable(g: Goal, st: Store, n: string) {
    exists deeds: seq<Deed> ::
      !LabelledAt(g, DoAll(g, st, deeds), n) && forall a :: a in deeds ==> Elsewhere(g, st, n, a.node)
  }

  /** Exactly when the label of a deleting shim goes: if the node is not stuck, a pass, a completion
      and a report take it off; if it is, no schedule does. */
  lemma ClearsIff(g: Goal, st: Store, n: string)
    requires LabelledAt(g, st, n) && SoundUninstallJob(g, st, n)
    ensures Clearable(g, st, n) <==> !Stuck(g, st, n)
    ensures !LabelledAt(g, DoAll(g, st, [ClearNode(n), FinishUninstall(n), ReportUninstall(n)]), n) <==> !Stuck(g, st, n)
  {
    hide Do, Stuck, LabelledAt;
    var cure := [ClearNode(n), FinishUninstall(n), ReportUninstall(n)];
    if Stuck(g, st, n) {
      StuckForever(g, st, cure, n);
      if Clearable(g, st, n) {
        var deeds: seq<Deed> :| !LabelledAt(g, DoAll(g, st, deeds), n) && forall a :: a in deeds ==> Elsewhere(g, st, n, a.node);
        StuckForever(g, st, deeds, n);
      }
    } else {
      ClearGivesJob(g, st, n);
      FinishAndUnlabel(g, Do(g, st, ClearNode(n)), n);
      ThreeDeeds(g, st, ClearNode(n), FinishUninstall(n), ReportUninstall(n));
    }
  }
}
