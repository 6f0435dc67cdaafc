/** Both reconcilers as threads that interleave at single API calls.

    Reads may be stale: a read returns any object that was ever stored under the name. A write
    may be refused, or be carried out while the caller sees an error. Any number of passes of
    either reconciler run at once. Jobs finish or fail, and users and the node lifecycle act, at
    any point in between. */
module Protocol {
  import opened Manifest
  import opened Api

  // ---------------------------------------------------------------- threads

  datatype Listed = Listed(name: string, node: Node)

  /** How one node of a rollout or deletion pass ended. `Gone`: the API answered NotFound. */
  datatype Outcome = Skipped | Applied | Gone | Errored

  /** A pass over the listed nodes; one outcome per node that is done. */
  datatype Pass = Pass(shim: string, local: Shim, listed: seq<Listed>, op: string, outcomes: seq<Outcome>)

  datatype Thread =
    // JobReconciler.Reconcile: about to get the Job, the node, to update the node
    | JobStart(name: string)
    | JobRead(job: Job)
    | JobWrite(node: string, local: Node, shim: string)
    // ShimReconciler.Reconcile: about to get the shim, list nodes, write the status, get again,
    // look after the RuntimeClass, handle the next node
    | PassStart(shim: string)
    | PassRead(shim: string, seen: Shim)
    | PassListed(shim: string, seen: Shim, listed: seq<Listed>)
    | PassStatus(shim: string, seen: Shim, listed: seq<Listed>)
    | PassClass(pass: Pass)
    | PassLoop(pass: Pass)
    // deployJobOnNode: about to update the label, apply the Job, record the failure
    | Fetched(pass: Pass, local: Node)
    | Labelled(pass: Pass, local: Node)
    | PatchFailed(pass: Pass, local: Node, notFound: bool)
    // about to remove the finalizer, to ensure it on the way out
    | Removing(pass: Pass)
    | Ensuring(shim: string, seen: Shim)
    | Ended

  /** The answer to a thread's pending API call. */
  datatype Reply =
    | Ok
    | Refused(notFound: bool)
    | Lost
    | NoManifest
    | SawNode(node: Node)
    | SawNodes(nodes: seq<Listed>)
    | SawJob(job: Job)
    | SawShim(shim: Shim)

  /** What happened so far: every object ever stored, the work of every completed Job and of every
      applied Job, and the work for which the API answered NotFound. */
  datatype Log = Log(nodes: set<(string, Node)>, jobs: set<(string, Job)>, shims: set<(string, Shim)>,
                     completed: set<Work>, applied: set<Work>, missing: set<Work>)

  datatype World = World(st: Store, log: Log, threads: map<nat, Thread>)

  // ---------------------------------------------------------------- writes

  predicate Lands(reply: Reply) {
    reply.Ok? || reply.Lost?
  }

  function RecordNode(w: World, st: Store, name: string): World
    requires name in st.nodes
  {
    w.(st := st, log := w.log.(nodes := w.log.nodes + {(name, st.nodes[name])}))
  }

  /** A node update: the world after it, and the caller's copy. */
  function WriteNode(w: World, name: string, local: Node, reply: Reply): (World, Node) {
    if Lands(reply) && NodeAccepts(w.st, name, local) then
      (RecordNode(w, PutNode(w.st, name, local.labels), name),
       if reply.Ok? then local.(version := w.st.clock + 1) else local)
    else (w, local)
  }

  function RecordShim(w: World, st: Store, name: string): World {
    w.(st := st, log := w.log.(shims := w.log.shims + if name in st.shims then {(name, st.shims[name])} else {}))
  }

  function WriteShim(w: World, name: string, local: Shim, reply: Reply): (World, Shim) {
    if Lands(reply) && ShimAccepts(w.st, name, local) then
      (RecordShim(w, PutShim(w.st, name, local), name),
       if reply.Ok? then local.(version := w.st.clock + 1) else local)
    else (w, local)
  }

  function RecordJob(w: World, name: string, job: Job): World {
    w.(st := PutJob(w.st, name, job), log := w.log.(jobs := w.log.jobs + {(name, job)}))
  }

  // ---------------------------------------------------------------- the Job reconciler

  function ApplyVerdict(labels: Labels, shim: string, v: Verdict): Labels {
    match v
    case Ignore => labels
    case Mark(value) => labels[shim := value]
    case Unmark => labels - {shim}
  }

  function JobStep(w: World, th: Thread, reply: Reply): (World, Thread)
    requires th.JobStart? || th.JobRead? || th.JobWrite?
  {
    match th
    case JobStart(name) =>
      if reply.SawJob? && (name, reply.job) in w.log.jobs && SHIM_NAME in reply.job.labels
      then (w, JobRead(reply.job)) else (w, Ended)
    case JobRead(job) =>
      var node, shim := job.template.nodeName, Lookup(job.labels, SHIM_NAME);
      if reply.SawNode? && (node, reply.node) in w.log.nodes && !JobVerdict(job).Ignore?
      then (w, JobWrite(node, reply.node.(labels := ApplyVerdict(reply.node.labels, shim, JobVerdict(job))), shim))
      else (w, Ended)
    case JobWrite(node, local, shim) => (WriteNode(w, node, local, reply).0, Ended)
  }

  // ---------------------------------------------------------------- the Shim reconciler

  predicate Selected(spec: Spec, labels: Labels) {
    spec.selector.Some? ==> forall k :: k in spec.selector.value ==> k in labels && labels[k] == spec.selector.value[k]
  }

  function ReadyCount(shim: string, listed: seq<Listed>): nat {
    if listed == [] then 0
    else (if Lookup(listed[0].node.labels, shim) == PROVISIONED then 1 else 0) + ReadyCount(shim, listed[1..])
  }

  predicate LegalList(w: World, spec: Spec, nodes: seq<Listed>) {
    forall i :: 0 <= i < |nodes| ==> (nodes[i].name, nodes[i].node) in w.log.nodes && Selected(spec, nodes[i].node.labels)
  }

  /** Deletion skips unlabelled nodes; rollout skips provisioned and pending ones. */
  predicate Skips(op: string, shim: string, labels: Labels) {
    if op == UNINSTALL then shim !in labels
    else Lookup(labels, shim) == PROVISIONED || Lookup(labels, shim) == PENDING
  }

  function StartLabel(op: string): string {
    if op == UNINSTALL then UNINSTALL else PENDING
  }

  /** The error of one node ends a deletion pass and is only collected by a rollout. */
  function EndNode(p: Pass, o: Outcome): Thread {
    if p.op == UNINSTALL && o.Errored? then Ensuring(p.shim, p.local)
    else PassLoop(p.(outcomes := p.outcomes + [o]))
  }

  /** The pass has a next node. */
  predicate AtNode(p: Pass) {
    |p.outcomes| < |p.listed|
  }

  function NextNode(p: Pass): string
    requires AtNode(p)
  {
    p.listed[|p.outcomes|].name
  }

  function Relabel(node: Node, shim: string, value: string): Node {
    node.(labels := node.labels[shim := value])
  }

  function PassStep(w: World, th: Thread, reply: Reply): (World, Thread)
    requires th.PassStart? || th.PassRead? || th.PassListed? || th.PassStatus? || th.PassClass?
  {
    match th
    case PassStart(s) =>
      if reply.SawShim? && (s, reply.shim) in w.log.shims then (w, PassRead(s, reply.shim)) else (w, Ended)
    case PassRead(s, seen) =>
      if reply.SawNodes? && LegalList(w, seen.spec, reply.nodes) then (w, PassListed(s, seen, reply.nodes))
      else (w, Ensuring(s, seen))
    case PassListed(s, seen, listed) =>
      var (w', seen') := WriteShim(w, s, seen.(status := Status(|listed|, ReadyCount(s, listed))), reply);
      (w', PassStatus(s, seen', listed))
    case PassStatus(s, seen, listed) =>
      if reply.SawShim? && (s, reply.shim) in w.log.shims then
        (w, if reply.shim.deleting then PassLoop(Pass(s, reply.shim, listed, UNINSTALL, []))
            else PassClass(Pass(s, reply.shim, listed, INSTALL, [])))
      else (w, Ensuring(s, seen))
    case PassClass(p) =>
      (w, if reply.Ok? && !p.local.spec.rolling then PassLoop(p) else Ensuring(p.shim, p.local))
  }

  function NextWork(p: Pass): Work
    requires AtNode(p)
  {
    Work(NextNode(p), p.shim, p.op)
  }

  /** The API answered a call for the next node; NotFound goes on record. */
  function Heard(w: World, p: Pass, reply: Reply): World
    requires AtNode(p)
  {
    if reply == Refused(true) then w.(log := w.log.(missing := w.log.missing + {NextWork(p)})) else w
  }

  function LoopStep(w: World, p: Pass, reply: Reply): (World, Thread) {
    if !AtNode(p) then
      (w, if p.op == UNINSTALL then Removing(p) else Ensuring(p.shim, p.local))
    else if Skips(p.op, p.shim, p.listed[|p.outcomes|].node.labels) then (w, EndNode(p, Skipped))
    else if reply.SawNode? && (NextNode(p), reply.node) in w.log.nodes then
      if p.op == INSTALL && Resolve(p.local.spec.fetch, reply.node.os, reply.node.arch).None?
      then (w, EndNode(p, Errored))
      else (w, Fetched(p, Relabel(reply.node, p.shim, StartLabel(p.op))))
    else (Heard(w, p, reply), EndNode(p, if reply == Refused(true) then Gone else Errored))
  }

  function DeployManifest(p: Pass, local: Node): Job
    requires AtNode(p)
  {
    var found := Resolve(p.local.spec.fetch, local.os, local.arch);
    JobManifest(p.shim, p.local.spec, NextNode(p), p.op,
                if p.op == INSTALL && found.Some? then found.value else NO_ARTIFACT)
  }

  function PatchStep(w: World, p: Pass, local: Node, reply: Reply): (World, Thread)
    requires AtNode(p)
  {
    var name, manifest := JobName(NextNode(p), p.shim, p.op), DeployManifest(p, local);
    var failed := Relabel(local, p.shim, FAILED);
    if reply.NoManifest? && p.op == INSTALL then (w, EndNode(p, Errored))
    else if Lands(reply) && JobAccepts(w.st, name, manifest) then
      var w' := RecordJob(w, name, AppliedJob(w.st, name, manifest));
      var w'' := w'.(log := w'.log.(applied := w'.log.applied + {NextWork(p)}));
      (w'', if reply.Ok? then EndNode(p, Applied) else PatchFailed(p, failed, false))
    else (Heard(w, p, reply), PatchFailed(p, failed, reply == Refused(true)))
  }

  function DeployStep(w: World, th: Thread, reply: Reply): (World, Thread)
    requires (th.Fetched? || th.Labelled? || th.PatchFailed?) && AtNode(th.pass)
  {
    match th
    case Fetched(p, local) =>
      var (w', local') := WriteNode(w, NextNode(p), local, reply);
      (w', Labelled(p, local'))
    case Labelled(p, local) => PatchStep(w, p, local, reply)
    case PatchFailed(p, local, notFound) =>
      (WriteNode(w, NextNode(p), local, reply).0, EndNode(p, if notFound then Gone else Errored))
  }

  function FinalStep(w: World, th: Thread, reply: Reply): (World, Thread)
    requires th.Removing? || th.Ensuring?
  {
    match th
    case Removing(p) =>
      if FINALIZER in p.local.finalizers then
        var local := p.local.(finalizers := p.local.finalizers - {FINALIZER});
        var (w', local') := WriteShim(w, p.shim, local, reply);
        (w', Ensuring(p.shim, local'))
      else (w, Ensuring(p.shim, p.local))
    case Ensuring(s, seen) =>
      if FINALIZER in seen.finalizers then (w, Ended)
      else (WriteShim(w, s, seen.(finalizers := seen.finalizers + {FINALIZER}), reply).0, Ended)
  }

  predicate WellPlaced(th: Thread) {
    th.Fetched? || th.Labelled? || th.PatchFailed? ==> AtNode(th.pass)
  }

  /** One API call of one thread. */
  function ThreadStep(w: World, th: Thread, reply: Reply): (World, Thread)
    requires WellPlaced(th)
  {
    match th
    case JobStart(_) => JobStep(w, th, reply)
    case JobRead(_) => JobStep(w, th, reply)
    case JobWrite(_, _, _) => JobStep(w, th, reply)
    case PassLoop(p) => LoopStep(w, p, reply)
    case Fetched(_, _) => DeployStep(w, th, reply)
    case Labelled(_, _) => DeployStep(w, th, reply)
    case PatchFailed(_, _, _) => DeployStep(w, th, reply)
    case Removing(_) => FinalStep(w, th, reply)
    case Ensuring(_, _) => FinalStep(w, th, reply)
    case Ended => (w, Ended)
    case _ => PassStep(w, th, reply)
  }

  // ---------------------------------------------------------------- all steps

  datatype Step =
    | Call(t: nat, reply: Reply)
    | StartJobPass(t: nat, job: string)
    | StartShimPass(t: nat, shim: string)
    | JobCondition(job: string, condition: Condition)
    | JobRemoved(job: string)
    | NodeAdded(name: string, labels: Labels, os: string, arch: string)
    | NodeRemoved(name: string)
    | NodeRelabelled(name: string, labels: Labels)
    | ShimCreated(name: string, spec: Spec)
    | ShimEdited(name: string, spec: Spec)
    | ShimDeleted(name: string)

  /** Users and the node lifecycle never write the label value that only the controllers give. */
  predicate NoNewClaims(before: Labels, after: Labels) {
    forall k :: k in after && after[k] == PROVISIONED ==> k in before && before[k] == PROVISIONED
  }

  function EnvironmentStep(w: World, s: Step): World
    requires !s.Call?
  {
    var st := w.st;
    match s
    case StartJobPass(t, job) => w.(threads := w.threads[t := JobStart(job)])
    case StartShimPass(t, shim) => w.(threads := w.threads[t := PassStart(shim)])
    case JobCondition(name, c) =>
      if name !in st.jobs then w
      else
        var job := st.jobs[name].(conditions := st.jobs[name].conditions + [c]);
        var w' := RecordJob(w, name, job);
        if c == Condition(Complete, true)
        then w'.(log := w'.log.(completed := w'.log.completed + {WorkOf(job)})) else w'
    case JobRemoved(name) => w.(st := st.(jobs := st.jobs - {name}))
    case NodeAdded(name, labels, os, arch) =>
      if name in st.nodes || !NoNewClaims(map[], labels) then w
      else RecordNode(w, st.(clock := st.clock + 1, nodes := st.nodes[name := Node(labels, os, arch, st.clock + 1)]), name)
    case NodeRemoved(name) => w.(st := st.(nodes := st.nodes - {name}))
    case NodeRelabelled(name, labels) =>
      if name !in st.nodes || !NoNewClaims(st.nodes[name].labels, labels) then w
      else RecordNode(w, PutNode(st, name, labels), name)
    case ShimCreated(name, spec) =>
      if name in st.shims then w
      else RecordShim(w, st.(clock := st.clock + 1,
                             shims := st.shims[name := Shim(st.clock + 1, spec, {}, false, Status(0, 0), st.clock + 1)]), name)
    case ShimEdited(name, spec) =>
      if name !in st.shims then w
      else RecordShim(w, st.(clock := st.clock + 1,
                             shims := st.shims[name := st.shims[name].(spec := spec, version := st.clock + 1)]), name)
    case ShimDeleted(name) =>
      if name !in st.shims then w
      else if st.shims[name].finalizers == {} then w.(st := st.(shims := st.shims - {name}))
      else RecordShim(w, st.(clock := st.clock + 1,
                             shims := st.shims[name := st.shims[name].(deleting := true, version := st.clock + 1)]), name)
  }

  function Next(w: World, s: Step): World {
    if !s.Call? then EnvironmentStep(w, s)
    else if s.t !in w.threads || !WellPlaced(w.threads[s.t]) then w
    else
      var (w', th) := ThreadStep(w, w.threads[s.t], s.reply);
      w'.(threads := w'.threads[s.t := th])
  }

  function Run(w: World, steps: seq<Step>): World
    decreases |steps|
  {
    if steps == [] then w else Run(Next(w, steps[0]), steps[1..])
  }

  /** Unlabelled nodes, shims as created, no Jobs, nothing under way. */
  predicate Initial(w: World) {
    && w.st.jobs == map[] && w.threads == map[] && w.log.completed == {} && w.log.applied == {} && w.log.missing == {}
    && w.log.nodes == (set n | n in w.st.nodes :: (n, w.st.nodes[n]))
    && w.log.shims == (set s | s in w.st.shims :: (s, w.st.shims[s])) && w.log.jobs == {}
    && (forall n :: n in w.st.nodes ==> w.st.nodes[n].version <= w.st.clock && NoNewClaims(map[], w.st.nodes[n].labels))
    && (forall s :: s in w.st.shims ==> w.st.shims[s].version <= w.st.clock && w.st.shims[s].uid <= w.st.clock)
  }
}
