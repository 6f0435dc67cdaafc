/** Whole passes of the Shim reconciler, from the first call to the last: what they store of the status
    and of the finalizer, and that their loops are the rollout and the deletion. */
module Passes {
  import opened Manifest
  import opened Api
  import opened Protocol
  import opened ProtocolSafety
  import opened ProtocolTheorems
  import opened Controllers
  import opened Refinement

  // ---------------------------------------------------------------- the two finalizer calls

  /** A served ensure call on the stored version of an undeleted shim leaves it with the finalizer and
      changes nothing else that it holds. */
  lemma EnsureAdds(w: World, t: nat, shim: string, seen: Shim)
    requires Stands(w, t, Ensuring(shim, seen))
    requires shim in w.st.shims && !w.st.shims[shim].deleting && seen.version == w.st.shims[shim].version
    ensures var w', before := Next(w, Call(t, Ok)), w.st.shims[shim];
            && Stands(w', t, Ended) && Holds(w', shim) && w'.st.nodes == w.st.nodes && w'.st.jobs == w.st.jobs
            && w'.st.shims[shim].finalizers == before.finalizers + {"rcm.spinkube.dev/finalizer"}
            && w'.st.shims[shim].spec == before.spec && w'.st.shims[shim].status == (if FINALIZER in seen.finalizers then before.status else seen.status)
            && !w'.st.shims[shim].deleting
  {
    NextKeepsInv(w, Call(t, Ok));
    assert ShimCopyModFinalizer(w, shim, seen) by {
      assert ThreadSound(w, w.threads[t]);
    }
    EnsureWrite(w, shim, seen);
    hide Inv, WriteShim, ShimCopyModFinalizer;
  }

  /** The write of an ensure call, or what is there already. */
  lemma EnsureWrite(w: World, shim: string, seen: Shim)
    requires shim in w.st.shims && !w.st.shims[shim].deleting && seen.version == w.st.shims[shim].version
    requires ShimCopyModFinalizer(w, shim, seen)
    ensures var before, added := w.st.shims[shim], WriteShim(w, shim, seen.(finalizers := seen.finalizers + {FINALIZER}), Ok).0;
            && (FINALIZER in seen.finalizers ==> before.finalizers == before.finalizers + {FINALIZER})
            && added.st.nodes == w.st.nodes && added.st.jobs == w.st.jobs && added.threads == w.threads && shim in added.st.shims
            && added.st.shims[shim].finalizers == before.finalizers + {FINALIZER}
            && added.st.shims[shim].spec == before.spec && added.st.shims[shim].status == seen.status && !added.st.shims[shim].deleting
  {
    var stored := w.st.shims[shim];
    assert seen.finalizers + {FINALIZER} == (seen.finalizers - {FINALIZER}) + {FINALIZER};
    assert stored.finalizers + {FINALIZER} == (stored.finalizers - {FINALIZER}) + {FINALIZER};
    assert FINALIZER in stored.finalizers ==> stored.finalizers + {FINALIZER} == stored.finalizers;
  }

  /** A user's deletion of a shim that holds the finalizer leaves it stored and deleting. */
  lemma DeletionWaits(w: World, shim: string)
    requires Holds(w, shim)
    ensures var w' := Next(w, ShimDeleted(shim));
            shim in w'.st.shims && w'.st.shims[shim].deleting && Holds(w', shim) && w'.st.shims[shim].uid == w.st.shims[shim].uid
  {
  }

  /** A served removal call on the stored version of a deleting shim takes the finalizer off; the
      object goes away exactly if that was the last one. */
  lemma RemovalTakesOff(w: World, t: nat, p: Pass)
    requires Stands(w, t, Removing(p)) && Holds(w, p.shim) && p.local.version == w.st.shims[p.shim].version
    ensures var w', stored := Next(w, Call(t, Ok)), w.st.shims[p.shim];
            && stored.deleting && !Holds(w', p.shim) && Released(w', p.shim, stored.uid)
            && (p.shim in w'.st.shims <==> stored.finalizers != {"rcm.spinkube.dev/finalizer"})
            && (p.shim in w'.st.shims ==> w'.st.shims[p.shim].finalizers == stored.finalizers - {"rcm.spinkube.dev/finalizer"})
            && w'.st.nodes == w.st.nodes && w'.st.jobs == w.st.jobs
            && exists seen :: Stands(w', t, Ensuring(p.shim, seen))
  {
    NextKeepsInv(w, Call(t, Ok));
    assert PassSound(w, p) && p.op == UNINSTALL && StoreSound(w) by {
      assert ThreadSound(w, w.threads[t]);
    }
    hide Inv, NodeDone, StoreSound;
    var stored := w.st.shims[p.shim];
    assert stored.uid <= w.st.clock by {
      UidBound(w, p.shim);
    }
    assert stored.finalizers - {FINALIZER} == {} <==> stored.finalizers == {FINALIZER};
    var w' := Next(w, Call(t, Ok));
    var left := p.local.(finalizers := p.local.finalizers - {FINALIZER});
    assert w'.threads[t] == Ensuring(p.shim, WriteShim(w, p.shim, left, Ok).1);
    assert Stands(w', t, Ensuring(p.shim, WriteShim(w, p.shim, left, Ok).1));
  }

  lemma UidBound(w: World, shim: string)
    requires StoreSound(w) && shim in w.st.shims
    ensures w.st.shims[shim].uid <= w.st.clock
  {
  }

  // ---------------------------------------------------------------- every way through a pass

  /** The shim's own calls are served from the current store; everything else may be answered in any
      way. */
  ghost predicate ShimServed(st: Store, th: Thread, reply: Reply) {
    match th
    case PassStart(s) => s in st.shims && reply == SawShim(st.shims[s])
    case PassListed(_, _, _) => reply == Ok
    case PassStatus(s, _, _) => s in st.shims && reply == SawShim(st.shims[s])
    case Ensuring(_, _) => reply == Ok
    case _ => true
  }

  /** Steps of thread `t` alone, with the shim's own calls served. */
  ghost predicate ServedCalls(w: World, t: nat, steps: seq<Step>)
    decreases |steps|
  {
    steps != [] ==>
      && steps[0].Call? && steps[0].t == t && t in w.threads && ShimServed(w.st, w.threads[t], steps[0].reply)
      && ServedCalls(Next(w, steps[0]), t, steps[1..])
  }

  /** The pass of an undeleted shim is on its way and holds the stored shim, or has ended and the shim
      holds the finalizer. */
  ghost predicate OnItsWay(st: Store, th: Thread, shim: string) {
    && shim in st.shims && !st.shims[shim].deleting
    && match th
       case PassStart(s) => s == shim
       case PassRead(s, seen) => s == shim && seen == st.shims[shim]
       case PassListed(s, seen, _) => s == shim && seen == st.shims[shim]
       case PassStatus(s, seen, _) => s == shim && seen == st.shims[shim]
       case PassClass(p) => p.shim == shim && p.op == INSTALL && p.local == st.shims[shim]
       case PassLoop(p) => p.shim == shim && p.op == INSTALL && p.local == st.shims[shim]
       case Fetched(p, _) => p.shim == shim && p.op == INSTALL && p.local == st.shims[shim]
       case Labelled(p, _) => p.shim == shim && p.op == INSTALL && p.local == st.shims[shim]
       case PatchFailed(p, _, _) => p.shim == shim && p.op == INSTALL && p.local == st.shims[shim]
       case Ensuring(s, seen) => s == shim && seen == st.shims[shim]
       case Ended => FINALIZER in st.shims[shim].finalizers
       case _ => false
  }

  lemma DeployKeepsWay(w: World, th: Thread, reply: Reply, shim: string)
    requires OnItsWay(w.st, th, shim) && WellPlaced(th) && (th.PassLoop? || th.Fetched? || th.Labelled? || th.PatchFailed?)
    ensures var (w', th') := ThreadStep(w, th, reply);
            OnItsWay(w'.st, th', shim) && !th'.Ended?
  {
    hide Skips, Resolve, JobName, DeployManifest, JobAccepts, AppliedJob, NodeAccepts;
    assert INSTALL != UNINSTALL;
  }

  lemma ReadKeepsWay(w: World, th: Thread, reply: Reply, shim: string)
    requires OnItsWay(w.st, th, shim) && ShimServed(w.st, th, reply)
    requires th.PassStart? || th.PassRead? || th.PassListed? || th.PassStatus? || th.PassClass? || th.Ensuring? || th.Ended?
    requires (th.PassStart? || th.PassStatus?) ==> (shim, w.st.shims[shim]) in w.log.shims
    ensures var (w', th') := ThreadStep(w, th, reply);
            OnItsWay(w'.st, th', shim) && (th'.Ended? ==> th.Ensuring? || th.Ended?)
  {
    hide LegalList;
  }

  /** Every way through a pass of an undeleted shim, whatever lists, RuntimeClasses and deployments
      answer, keeps to the stored shim and ends only through its ensure call. */
  lemma {:induction false} PassKeepsWay(w: World, t: nat, steps: seq<Step>, shim: string)
    requires Inv(w) && t in w.threads && OnItsWay(w.st, w.threads[t], shim) && ServedCalls(w, t, steps)
    ensures var r := Run(w, steps);
            Inv(r) && t in r.threads && OnItsWay(r.st, r.threads[t], shim)
    decreases |steps|
  {
    if steps != [] {
      var s, th := steps[0], w.threads[t];
      assert ThreadSound(w, th);
      ThreadStepSound(w, th, s.reply);
      NextKeepsInv(w, s);
      assert StoreSound(w);
      hide Inv, ThreadSound, OnItsWay, CoreSound, Grows;
      if th.PassLoop? || th.Fetched? || th.Labelled? || th.PatchFailed? {
        DeployKeepsWay(w, th, s.reply, shim);
      } else {
        WayKinds(w.st, th, shim);
        ReadKeepsWay(w, th, s.reply, shim);
      }
      hide ThreadStep, ShimServed, StoreSound;
      PassKeepsWay(Next(w, s), t, steps[1..], shim);
    }
  }

  lemma WayKinds(st: Store, th: Thread, shim: string)
    requires OnItsWay(st, th, shim) && !(th.PassLoop? || th.Fetched? || th.Labelled? || th.PatchFailed?)
    ensures shim in st.shims
    ensures th.PassStart? || th.PassRead? || th.PassListed? || th.PassStatus? || th.PassClass? || th.Ensuring? || th.Ended?
  {
  }

  /** After a whole pass of an undeleted shim, from its first call to its end, the shim holds the
      finalizer, so a deletion that follows leaves it stored until it is released. */
  lemma PassEnsuresFinalizer(w: World, t: nat, steps: seq<Step>, shim: string)
    requires Stands(w, t, PassStart(shim)) && shim in w.st.shims && !w.st.shims[shim].deleting && ServedCalls(w, t, steps)
    requires t in Run(w, steps).threads && Run(w, steps).threads[t].Ended?
    ensures var r := Run(w, steps);
            && Holds(r, shim)
            && var r' := Next(r, ShimDeleted(shim));
               shim in r'.st.shims && r'.st.shims[shim].deleting && Holds(r', shim)
  {
    PassKeepsWay(w, t, steps, shim);
    hide Run, Inv;
    DeletionWaits(Run(w, steps), shim);
  }

  // ---------------------------------------------------------------- a whole pass, call by call

  /** The store after the status was written. */
  function StatusStore(st: Store, shim: string, listed: seq<Listed>): Store
    requires shim in st.shims
  {
    PutShim(st, shim, st.shims[shim].(status := Status(|listed|, ReadyCount(shim, listed))))
  }

  lemma DeployShims(st: Store, shim: string, spec: Spec, name: string, op: string, io: DeployIO)
    ensures Deploy(st, shim, spec, name, op, io).0.shims == st.shims
  {
    hide JobName, ManifestFor, Resolve, JobAccepts, AppliedJob, Marks;
  }

  lemma {:induction false} LoopsKeepShims(st: Store, shim: string, spec: Spec, listed: seq<Listed>, ios: seq<DeployIO>)
    requires |ios| == |listed|
    ensures Rollout(st, shim, spec, listed, ios).0.shims == st.shims
    ensures ClearAll(st, shim, spec, listed, ios).0.shims == st.shims
    decreases |listed|
  {
    if listed != [] {
      var n := |listed| - 1;
      LoopsKeepShims(st, shim, spec, listed[..n], ios[..n]);
      DeployShims(Rollout(st, shim, spec, listed[..n], ios[..n]).0, shim, spec, listed[n].name, INSTALL, ios[n]);
      DeployShims(ClearAll(st, shim, spec, listed[..n], ios[..n]).0, shim, spec, listed[n].name, UNINSTALL, ios[n]);
      hide Deploy, Skips;
    }
  }

  /** One call whose effect is known, at the end of a run. */
  lemma Then(w: World, t: nat, steps: seq<Step>, reply: Reply)
    requires Inv(w) && OwnCalls(steps, t)
    ensures Run(w, steps + [Call(t, reply)]) == Next(Run(w, steps), Call(t, reply))
    ensures OwnCalls(steps + [Call(t, reply)], t) && Inv(Run(w, steps + [Call(t, reply)]))
  {
    RunSnoc(w, steps, Call(t, reply));
    RunKeepsInv(w, steps + [Call(t, reply)]);
    hide Inv, Run, Next;
  }

  lemma ReadCalls(w: World, t: nat, shim: string, listed: seq<Listed>) returns (steps: seq<Step>)
    requires Stands(w, t, PassStart(shim)) && shim in w.st.shims && LegalList(w, w.st.shims[shim].spec, listed)
    ensures OwnCalls(steps, t) && Run(w, steps).st == w.st && Run(w, steps).log == w.log
    ensures Stands(Run(w, steps), t, PassListed(shim, w.st.shims[shim], listed))
  {
    assert StoreSound(w) && Run(w, []) == w;
    var seen := w.st.shims[shim];
    var w1 := Next(w, Call(t, SawShim(seen)));
    assert w1 == w.(threads := w.threads[t := PassRead(shim, seen)]);
    assert LegalList(w1, seen.spec, listed);
    hide Inv, StoreSound, LegalList, Run;
    Then(w, t, [], SawShim(seen));
    Then(w, t, [] + [Call(t, SawShim(seen))], SawNodes(listed));
    steps := [] + [Call(t, SawShim(seen))] + [Call(t, SawNodes(listed))];
  }

  /** A served write of a shim copy with the stored version and finalizers. */
  lemma ServedWrite(w: World, shim: string, status: Status)
    requires shim in w.st.shims && (w.st.shims[shim].deleting ==> w.st.shims[shim].finalizers != {})
    ensures var stored := w.st.shims[shim];
            var (w', seen) := WriteShim(w, shim, stored.(status := status), Ok);
            && w'.st == PutShim(w.st, shim, stored.(status := status)) && w'.threads == w.threads
            && shim in w'.st.shims && w'.st.shims[shim] == stored.(status := status, version := w.st.clock + 1)
            && (shim, w'.st.shims[shim]) in w'.log.shims
  {
  }

  /** The status write of a pass that holds the stored shim. */
  lemma StatusCall(w: World, t: nat, shim: string, listed: seq<Listed>)
    requires shim in w.st.shims && Stands(w, t, PassListed(shim, w.st.shims[shim], listed))
    requires w.st.shims[shim].deleting ==> Holds(w, shim)
    ensures var w1, st := Next(w, Call(t, Ok)), StatusStore(w.st, shim, listed);
            && shim in st.shims && w1.st == st && (shim, st.shims[shim]) in w1.log.shims
            && st.shims[shim] == w.st.shims[shim].(status := Status(|listed|, ReadyCount(shim, listed)), version := w.st.clock + 1)
            && exists seen :: Stands(w1, t, PassStatus(shim, seen, listed))
  {
    NextKeepsInv(w, Call(t, Ok));
    var status := Status(|listed|, ReadyCount(shim, listed));
    ServedWrite(w, shim, status);
    hide Inv, ReadyCount, WriteShim, PutShim;
    var seen := WriteShim(w, shim, w.st.shims[shim].(status := status), Ok).1;
    assert Stands(Next(w, Call(t, Ok)), t, PassStatus(shim, seen, listed));
  }

  /** The fresh read after it. */
  lemma RefetchCall(w: World, t: nat, shim: string, seen: Shim, listed: seq<Listed>)
    requires Stands(w, t, PassStatus(shim, seen, listed)) && shim in w.st.shims && (shim, w.st.shims[shim]) in w.log.shims
    ensures var w', stored := Next(w, Call(t, SawShim(w.st.shims[shim]))), w.st.shims[shim];
            && w'.st == w.st
            && Stands(w', t, if stored.deleting then PassLoop(Pass(shim, stored, listed, "uninstall", []))
                             else PassClass(Pass(shim, stored, listed, "install", [])))
  {
    NextKeepsInv(w, Call(t, SawShim(w.st.shims[shim])));
    hide Inv;
  }

  lemma StatusCalls(w: World, t: nat, shim: string, listed: seq<Listed>) returns (steps: seq<Step>)
    requires shim in w.st.shims && Stands(w, t, PassListed(shim, w.st.shims[shim], listed))
    requires w.st.shims[shim].deleting ==> Holds(w, shim)
    ensures var st, op := StatusStore(w.st, shim, listed), if w.st.shims[shim].deleting then UNINSTALL else INSTALL;
            && OwnCalls(steps, t) && Run(w, steps).st == st && shim in st.shims
            && st.shims[shim].status == Status(|listed|, ReadyCount(shim, listed))
            && st.shims[shim].finalizers == w.st.shims[shim].finalizers && st.shims[shim].deleting == w.st.shims[shim].deleting
            && st.shims[shim].spec == w.st.shims[shim].spec
            && (var p := Pass(shim, st.shims[shim], listed, op, []);
                Stands(Run(w, steps), t, if op == UNINSTALL then PassLoop(p) else PassClass(p)))
  {
    var st := StatusStore(w.st, shim, listed);
    assert Run(w, []) == w && INSTALL != UNINSTALL;
    assert Inv(w);
    StatusCall(w, t, shim, listed);
    hide Run, Next, StatusStore, ReadyCount, Inv;
    var w1 := Next(w, Call(t, Ok));
    var seen :| Stands(w1, t, PassStatus(shim, seen, listed));
    RefetchCall(w1, t, shim, seen, listed);
    Then(w, t, [], Ok);
    Then(w, t, [] + [Call(t, Ok)], SawShim(st.shims[shim]));
    steps := [] + [Call(t, Ok)] + [Call(t, SawShim(st.shims[shim]))];
  }

  lemma Joined(w: World, t: nat, a: seq<Step>, b: seq<Step>)
    requires OwnCalls(a, t) && OwnCalls(b, t)
    ensures OwnCalls(a + b, t) && Run(w, a + b) == Run(Run(w, a), b)
  {
    RunAppend(w, a, b);
  }

  /** From the first call of a pass to its loop: the status with the counts of the listing is stored, and
      the loop of a deleting shim is the deletion. */
  lemma HeadCalls(w: World, t: nat, shim: string, listed: seq<Listed>) returns (steps: seq<Step>)
    requires Stands(w, t, PassStart(shim)) && shim in w.st.shims && LegalList(w, w.st.shims[shim].spec, listed)
    requires w.st.shims[shim].deleting ==> Holds(w, shim)
    ensures var st, op := StatusStore(w.st, shim, listed), if w.st.shims[shim].deleting then UNINSTALL else INSTALL;
            && OwnCalls(steps, t) && Run(w, steps).st == st && shim in st.shims
            && st.shims[shim].status == Status(|listed|, ReadyCount(shim, listed))
            && st.shims[shim].finalizers == w.st.shims[shim].finalizers && st.shims[shim].deleting == w.st.shims[shim].deleting
            && st.shims[shim].spec == w.st.shims[shim].spec
            && (var p := Pass(shim, st.shims[shim], listed, op, []);
                Stands(Run(w, steps), t, if op == UNINSTALL then PassLoop(p) else PassClass(p)))
  {
    var a := ReadCalls(w, t, shim, listed);
    hide Run, Stands, StatusStore, LegalList;
    var b := StatusCalls(Run(w, a), t, shim, listed);
    Joined(w, t, a, b);
    steps := a + b;
  }

  /** A whole served pass of a deleting shim: the status is stored, the labelled nodes of the listing are
      cleared in order, and the finalizer goes exactly if no error other than NotFound occurred. */
  lemma DeletionPass(w: World, t: nat, shim: string, listed: seq<Listed>, ios: seq<DeployIO>) returns (steps: seq<Step>)
    requires Stands(w, t, PassStart(shim)) && Holds(w, shim) && w.st.shims[shim].deleting
    requires LegalList(w, w.st.shims[shim].spec, listed) && |ios| == |listed|
    ensures var r := Run(w, steps);
            var (st, rs) := ClearAll(StatusStore(w.st, shim, listed), shim, w.st.shims[shim].spec, listed, ios);
            && OwnCalls(steps, t) && r.st.nodes == st.nodes && r.st.jobs == st.jobs
            && (Holds(r, shim) <==> rs != [] && Stops(rs[|rs| - 1]))
  {
    var head := HeadCalls(w, t, shim, listed);
    var st1 := StatusStore(w.st, shim, listed);
    var p := Pass(shim, st1.shims[shim], listed, UNINSTALL, []);
    assert FINALIZER in st1.shims[shim].finalizers;
    hide Run, StatusStore, LegalList, Stands, Holds, ClearAll, Stops, ReadyCount, OwnCalls;
    var tail := ClearPart(Run(w, head), t, p, ios);
    Joined(w, t, head, tail);
    steps := head + tail;
  }

  /** The loop of a deletion pass and what follows it. */
  lemma ClearPart(w: World, t: nat, p: Pass, ios: seq<DeployIO>) returns (steps: seq<Step>)
    requires PassBegins(w, t, p) && p.op == UNINSTALL && |ios| == |p.listed|
    requires p.shim in w.st.shims && p.local == w.st.shims[p.shim] && FINALIZER in p.local.finalizers
    ensures OwnCalls(steps, t)
    ensures var (st, rs) := ClearAll(w.st, p.shim, p.local.spec, p.listed, ios);
            && Run(w, steps).st.nodes == st.nodes && Run(w, steps).st.jobs == st.jobs
            && (Holds(Run(w, steps), p.shim) <==> rs != [] && Stops(rs[|rs| - 1]))
  {
    LoopsKeepShims(w.st, p.shim, p.local.spec, p.listed, ios);
    var loop := ClearCalls(w, t, p, ios);
    hide Run, Stands, Holds, ClearAll, Stops, Outcomes, OwnCalls, PassBegins;
    var rs := ClearAll(w.st, p.shim, p.local.spec, p.listed, ios).1;
    var last := LastCalls(Run(w, loop), t, p.(outcomes := Outcomes(rs)), rs != [] && Stops(rs[|rs| - 1]));
    Joined(w, t, loop, last);
    steps := loop + last;
  }

  /** The end of a deletion pass, with the finalizer still held. */
  lemma LastCalls(w: World, t: nat, p: Pass, stopped: bool) returns (steps: seq<Step>)
    requires Stands(w, t, if stopped then Ensuring(p.shim, p.local) else Removing(p))
    requires p.shim in w.st.shims && p.local == w.st.shims[p.shim] && FINALIZER in p.local.finalizers
    ensures OwnCalls(steps, t) && (Holds(Run(w, steps), p.shim) <==> stopped)
    ensures Run(w, steps).st.nodes == w.st.nodes && Run(w, steps).st.jobs == w.st.jobs
  {
    assert Run(w, []) == w;
    steps := [];
    if !stopped {
      RemovalTakesOff(w, t, p);
      Then(w, t, [], Ok);
      steps := [] + [Call(t, Ok)];
    }
  }

  /** A whole served pass of an undeleted shim: the status is stored, the listing is rolled out, and in
      the end the shim holds the finalizer. */
  lemma RolloutPass(w: World, t: nat, shim: string, listed: seq<Listed>, ios: seq<DeployIO>) returns (steps: seq<Step>)
    requires Stands(w, t, PassStart(shim)) && shim in w.st.shims && !w.st.shims[shim].deleting && !w.st.shims[shim].spec.rolling
    requires LegalList(w, w.st.shims[shim].spec, listed) && |ios| == |listed|
    ensures var r := Run(w, steps);
            var st := Rollout(StatusStore(w.st, shim, listed), shim, w.st.shims[shim].spec, listed, ios).0;
            && OwnCalls(steps, t) && Stands(r, t, Ended) && r.st.nodes == st.nodes && r.st.jobs == st.jobs
            && Holds(r, shim) && r.st.shims[shim].status == Status(|listed|, ReadyCount(shim, listed))
  {
    var head := HeadCalls(w, t, shim, listed);
    var st1 := StatusStore(w.st, shim, listed);
    var spec, p := w.st.shims[shim].spec, Pass(shim, st1.shims[shim], listed, INSTALL, []);
    var w1 := Run(w, head);
    assert Stands(Next(w1, Call(t, Ok)), t, PassLoop(p)) && Next(w1, Call(t, Ok)).st == w1.st by {
      ClassCall(w1, t, p);
    }
    hide Run, StatusStore, LegalList, Next;
    Then(w, t, head, Ok);
    head := head + [Call(t, Ok)];
    LoopsKeepShims(st1, shim, spec, listed, ios);
    var loop := RolloutCalls(Run(w, head), t, p, ios);
    Joined(w, t, head, loop);
    Then(w, t, head + loop, Ok);
    steps := head + loop + [Call(t, Ok)];
    hide Rollout;
    EnsureAdds(Run(w, steps), t, shim, p.local);
    Then(w, t, steps, Ok);
    steps := steps + [Call(t, Ok)];
  }

  lemma ClassCall(w: World, t: nat, p: Pass)
    requires Stands(w, t, PassClass(p)) && !p.local.spec.rolling
    ensures Stands(Next(w, Call(t, Ok)), t, PassLoop(p)) && Next(w, Call(t, Ok)).st == w.st
  {
    NextKeepsInv(w, Call(t, Ok));
    hide Inv;
  }

  /** A shim with the rolling strategy, or whose RuntimeClass cannot be looked after, is not rolled out:
      its pass goes straight to the ensure call. */
  lemma RollingNeverStarts(w: World, t: nat, p: Pass, reply: Reply)
    requires t in w.threads && w.threads[t] == PassClass(p) && (p.local.spec.rolling || !reply.Ok?)
    ensures Next(w, Call(t, reply)) == w.(threads := w.threads[t := Ensuring(p.shim, p.local)])
  {
  }

  /** Only nodes that the shim selects are ever listed for it. */
  lemma ListingIsSelected(w: World, t: nat, reply: Reply)
    requires t in w.threads && w.threads[t].PassRead?
    ensures var th' := Next(w, Call(t, reply)).threads[t];
            && (th'.PassListed? || th'.Ensuring?)
            && (th'.PassListed? ==>
                  forall i, k :: 0 <= i < |th'.listed| && w.threads[t].seen.spec.selector.Some? && k in w.threads[t].seen.spec.selector.value ==>
                    Lookup(th'.listed[i].node.labels, k) == w.threads[t].seen.spec.selector.value[k] && k in th'.listed[i].node.labels)
  {
  }
}
