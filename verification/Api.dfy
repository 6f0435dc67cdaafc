/** The API server as the controllers use it: optimistic updates guarded by a version, server-side
    apply of Jobs whose template is immutable, and deletion held back by finalizers. */
module Api {
  import opened Manifest

  const FINALIZER := "rcm.spinkube.dev/finalizer"

  datatype Node = Node(labels: Labels, os: string, arch: string, version: nat)

  datatype Status = Status(nodes: nat, ready: nat)

  datatype Shim = Shim(uid: nat, spec: Spec, finalizers: set<string>, deleting: bool, status: Status, version: nat)

  /** Every successful write takes the next tick of `clock` as its version. */
  datatype Store = Store(clock: nat, nodes: map<string, Node>, jobs: map<string, Job>, shims: map<string, Shim>)

  // ---------------------------------------------------------------- nodes

  /** An update is accepted only on the version that was read; node status is not written. */
  predicate NodeAccepts(st: Store, name: string, node: Node) {
    name in st.nodes && st.nodes[name].version == node.version
  }

  function PutNode(st: Store, name: string, labels: Labels): Store
    requires name in st.nodes
  {
    st.(clock := st.clock + 1,
        nodes := st.nodes[name := st.nodes[name].(labels := labels, version := st.clock + 1)])
  }

  // ---------------------------------------------------------------- jobs

  /** Applying a manifest creates the Job, or refreshes the metadata of one with the same template;
      a different template is refused. The status is never touched. */
  predicate JobAccepts(st: Store, name: string, manifest: Job) {
    name in st.jobs ==> st.jobs[name].template == manifest.template
  }

  function Merge(stored: Job, manifest: Job): Job {
    stored.(labels := stored.labels + manifest.labels, annotations := stored.annotations + manifest.annotations)
  }

  function AppliedJob(st: Store, name: string, manifest: Job): Job {
    if name in st.jobs then Merge(st.jobs[name], manifest) else manifest
  }

  function PutJob(st: Store, name: string, job: Job): Store {
    st.(jobs := st.jobs[name := job])
  }

  // ---------------------------------------------------------------- shims

  /** An object being deleted cannot gain finalizers. */
  predicate ShimAccepts(st: Store, name: string, shim: Shim) {
    && name in st.shims && st.shims[name].version == shim.version
    && (st.shims[name].deleting ==> shim.finalizers <= st.shims[name].finalizers)
  }

  /** An object being deleted goes away with its last finalizer. */
  function PutShim(st: Store, name: string, shim: Shim): Store
    requires name in st.shims
  {
    if st.shims[name].deleting && shim.finalizers == {} then
      st.(clock := st.clock + 1, shims := st.shims - {name})
    else
      st.(clock := st.clock + 1,
          shims := st.shims[name := st.shims[name].(finalizers := shim.finalizers, status := shim.status,
                                                    version := st.clock + 1)])
  }

  // ---------------------------------------------------------------- merging a described Job

  /** Refreshing a Job by a manifest of the same template keeps it describing the same work. */
  lemma MergeDescribes(stored: Job, manifest: Job, w1: Work, w2: Work)
    requires Describes(stored, w1) && Describes(manifest, w2) && stored.template == manifest.template
    requires SHIM_NAME in manifest.labels && OPERATION in manifest.annotations
    ensures Describes(Merge(stored, manifest), w1) && w1 == w2
  {
    TemplateDeterminesWork(stored, w1, manifest, w2);
  }

  /** What a refresh takes from the manifest and what it keeps: every label and annotation of the
      manifest, all others as stored, and the stored template and conditions. */
  lemma MergeTakes(stored: Job, manifest: Job, key: string)
    ensures key in manifest.labels ==> Lookup(Merge(stored, manifest).labels, key) == manifest.labels[key]
    ensures key in manifest.annotations ==> Lookup(Merge(stored, manifest).annotations, key) == manifest.annotations[key]
    ensures key !in manifest.labels ==> Lookup(Merge(stored, manifest).labels, key) == Lookup(stored.labels, key)
    ensures key !in manifest.annotations ==> Lookup(Merge(stored, manifest).annotations, key) == Lookup(stored.annotations, key)
    ensures Merge(stored, manifest).template == stored.template && Merge(stored, manifest).conditions == stored.conditions
  {
  }
}
