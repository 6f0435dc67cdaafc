/** The objects the two controllers exchange, and the Job manifest that carries a shim's
    operation to a node and back. */
module Manifest {
  import opened Wrappers

  const INSTALL := "install"
  const UNINSTALL := "uninstall"
  const PROVISIONED := "provisioned"
  const PENDING := "pending"
  const FAILED := "failed"
  const SHIM_NAME := "spinkube.dev/shimName"
  const OPERATION := "spinkube.dev/operation"
  const NODE_NAME := "spinkube.dev/nodeName"
  const JOB := "spinkube.dev/job"
  const NAME_MAX := 63

  type Labels = map<string, string>

  // ---------------------------------------------------------------- shims and artifacts

  datatype Platform = Platform(os: string, arch: string, location: string, sha256: string)

  datatype Fetch = Fetch(anonHttp: Option<string>, platforms: seq<Platform>)

  datatype Spec = Spec(selector: Option<Labels>, fetch: Fetch, rolling: bool, options: Option<map<string, string>>)

  datatype Artifact = Artifact(location: string, sha256: string)

  const NO_ARTIFACT := Artifact("", "")

  function LowerChar(c: char): char {
    if 'A' <= c <= 'Z' then 'a' + (c as int - 'A' as int) as char else c
  }

  /** `strings.EqualFold` on ASCII. */
  predicate EqualFold(a: string, b: string) {
    |a| == |b| && forall i :: 0 <= i < |a| ==> LowerChar(a[i]) == LowerChar(b[i])
  }

  function NormalizeArch(arch: string): string {
    if arch == "amd64" then "x86_64"
    else if arch == "arm64" then "aarch64"
    else if arch == "arm" then "armv7l"
    else arch
  }

  predicate MatchesPlatform(p: Platform, os: string, arch: string) {
    EqualFold(p.os, os) && (EqualFold(p.arch, arch) || EqualFold(p.arch, NormalizeArch(arch)))
  }

  function FirstMatch(platforms: seq<Platform>, os: string, arch: string): Option<Artifact> {
    if platforms == [] then None
    else if MatchesPlatform(platforms[0], os, arch)
    then Some(Artifact(platforms[0].location, platforms[0].sha256))
    else FirstMatch(platforms[1..], os, arch)
  }

  /** `resolveArtifactForNode`. */
  function Resolve(fetch: Fetch, os: string, arch: string): Option<Artifact> {
    if |fetch.platforms| > 0 then FirstMatch(fetch.platforms, os, arch)
    else if fetch.anonHttp.Some? then Some(Artifact(fetch.anonHttp.value, ""))
    else None
  }

  // ---------------------------------------------------------------- jobs

  datatype Env = Env(name: string, value: string)

  /** The immutable part of a Job: what runs, and where. */
  datatype Template = Template(nodeName: string, initEnv: Option<seq<Env>>, args: seq<string>,
                               options: Option<map<string, string>>)

  datatype ConditionKind = Complete | Failed | FailureTarget | Suspended

  datatype Condition = Condition(kind: ConditionKind, isTrue: bool)

  datatype Job = Job(labels: Labels, annotations: Labels, template: Template, conditions: seq<Condition>)

  function Truncate(s: string): string {
    if |s| <= NAME_MAX then s else s[..NAME_MAX]
  }

  function FullName(node: string, shim: string, op: string): string {
    node + "-" + shim + "-" + op
  }

  /** Name of the Job for an operation. */
  function JobName(node: string, shim: string, op: string): string {
    Truncate(FullName(node, shim, op))
  }

  /** The downloader's environment, set for installs only. */
  function InitEnv(shim: string, op: string, artifact: Artifact): Option<seq<Env>> {
    if op == INSTALL then
      Some([Env("SHIM_NAME", shim), Env("SHIM_LOCATION", artifact.location)]
           + if artifact.sha256 != "" then [Env("SHIM_SHA256", artifact.sha256)] else [])
    else None
  }

  /** The provisioner's command line. */
  function Args(shim: string, op: string): seq<string> {
    if op == INSTALL || op == UNINSTALL then [op, "-H", "/mnt/node-root", "-r", shim] else []
  }

  /** `createJobManifest`. */
  function JobManifest(shim: string, spec: Spec, node: string, op: string, artifact: Artifact): Job {
    Job(map[JobName(node, shim, op) := "true"] + map[SHIM_NAME := shim, OPERATION := op, JOB := "true"],
        map[NODE_NAME := node, SHIM_NAME := shim, OPERATION := op],
        Template(node, InitEnv(shim, op, artifact), Args(shim, op), spec.options),
        [])
  }

  // ---------------------------------------------------------------- reading a job back

  function Lookup(m: Labels, key: string): string {
    if key in m then m[key] else ""
  }

  /** The first Complete or Failed condition that is true. Only these two kinds are ever reported. */
  function FinishedKind(conditions: seq<Condition>): Option<ConditionKind> {
    if conditions == [] then None
    else if (conditions[0].kind.Complete? || conditions[0].kind.Failed?) && conditions[0].isTrue
    then Some(conditions[0].kind)
    else FinishedKind(conditions[1..])
  }

  /** What the Job controller does to the node's label. */
  datatype Verdict = Ignore | Mark(value: string) | Unmark

  function JobVerdict(job: Job): Verdict {
    match FinishedKind(job.conditions)
    case None => Ignore
    case Some(kind) =>
      if kind.Failed? then Mark(FAILED)
      else if kind.Complete? && Lookup(job.annotations, OPERATION) == INSTALL then Mark(PROVISIONED)
      else if kind.Complete? && Lookup(job.annotations, OPERATION) == UNINSTALL then Unmark
      else Ignore
  }

  /** The operation a Job's pod carries out. */
  datatype Work = Work(node: string, shim: string, op: string)

  /** The command of a command line, as the node installer's root command reads it. */
  function CommandOf(args: seq<string>): string {
    if args == [] then "" else args[0]
  }

  /** The value given to a flag: flags and values alternate after the command. */
  function FlagValue(pairs: seq<string>, flag: string): Option<string> {
    if |pairs| < 2 then None else if pairs[0] == flag then Some(pairs[1]) else FlagValue(pairs[2..], flag)
  }

  /** What the node installer started with this command line is told. */
  function FlagOf(args: seq<string>, flag: string): Option<string> {
    if args == [] then None else FlagValue(args[1..], flag)
  }

  /** The work a Job's pod does, read off its placement and its command line: `-r` names the runtime. */
  function WorkOf(job: Job): Work {
    var shim := FlagOf(job.template.args, "-r");
    Work(job.template.nodeName, if shim.Some? then shim.value else "", CommandOf(job.template.args))
  }

  /** The labels and annotations of the Job describe what its pod does, on the mounted host. */
  predicate Describes(job: Job, w: Work) {
    && job.template.nodeName == w.node && CommandOf(job.template.args) == w.op
    && FlagOf(job.template.args, "-r") == Some(w.shim) && FlagOf(job.template.args, "-H") == Some("/mnt/node-root")
    && (w.op == INSTALL || w.op == UNINSTALL)
    && SHIM_NAME in job.labels && job.labels[SHIM_NAME] == w.shim
    && Lookup(job.annotations, OPERATION) == w.op
  }

  lemma ArgsRead(shim: string, op: string)
    requires op == INSTALL || op == UNINSTALL
    ensures CommandOf(Args(shim, op)) == op && FlagOf(Args(shim, op), "-r") == Some(shim)
    ensures FlagOf(Args(shim, op), "-H") == Some("/mnt/node-root")
  {
    var pairs := ["-H", "/mnt/node-root", "-r", shim];
    assert Args(shim, op)[1..] == pairs && pairs[2..] == ["-r", shim];
    assert "-H"[1] != "-r"[1];
    assert FlagValue(["-r", shim], "-r") == Some(shim);
  }

  /** The Job reader recovers the node, shim and operation the manifest writer encoded: the command is
      the operation, the value of `-r` the shim and the value of `-H` the mounted root of the host. */
  lemma ManifestDescribes(shim: string, spec: Spec, node: string, op: string, artifact: Artifact)
    requires op == INSTALL || op == UNINSTALL
    ensures var job := JobManifest(shim, spec, node, op, artifact);
            && Describes(job, Work(node, shim, op)) && WorkOf(job) == Work(node, shim, op)
            && CommandOf(job.template.args) == op && FlagOf(job.template.args, "-r") == Some(shim)
            && FlagOf(job.template.args, "-H") == Some("/mnt/node-root")
  {
    ArgsRead(shim, op);
    hide Args, FlagOf, CommandOf, JobName;
  }

  /** The rest of a manifest: its metadata, the runtime options of the spec, and a downloader for
      installs only, told the shim's name. */
  lemma ManifestMetadata(shim: string, spec: Spec, node: string, op: string, artifact: Artifact)
    requires op == INSTALL || op == UNINSTALL
    ensures var job := JobManifest(shim, spec, node, op, artifact);
            && Lookup(job.annotations, "spinkube.dev/nodeName") == node && Lookup(job.annotations, "spinkube.dev/shimName") == shim
            && Lookup(job.annotations, "spinkube.dev/operation") == op
            && Lookup(job.labels, "spinkube.dev/shimName") == shim && Lookup(job.labels, "spinkube.dev/operation") == op
            && Lookup(job.labels, "spinkube.dev/job") == "true" && JobName(node, shim, op) in job.labels
            && job.template.options == spec.options && job.conditions == []
            && (job.template.initEnv.Some? <==> op == "install")
            && (op == "install" ==>
                  && Env("SHIM_NAME", shim) in job.template.initEnv.value
                  && forall e :: e in job.template.initEnv.value && e.name == "SHIM_NAME" ==> e.value == shim)
  {
    hide JobName, Args;
    EnvNamesDiffer();
    assert |"spinkube.dev/nodeName"| == 21 && |"spinkube.dev/shimName"| == 21 && |"spinkube.dev/operation"| == 22 && |"spinkube.dev/job"| == 16;
    assert "spinkube.dev/nodeName"[13] == 'n' && "spinkube.dev/shimName"[13] == 's' && INSTALL != UNINSTALL;
    if op == INSTALL {
      assert InitEnv(shim, op, artifact).value[0] == Env("SHIM_NAME", shim);
    }
  }

  lemma EnvNamesDiffer()
    ensures "SHIM_NAME" != "SHIM_LOCATION" && "SHIM_NAME" != "SHIM_SHA256" && "SHIM_LOCATION" != "SHIM_SHA256"
  {
    assert |"SHIM_NAME"| == 9 && |"SHIM_LOCATION"| == 13 && |"SHIM_SHA256"| == 11;
  }

  /** The template alone determines the work, so equal templates mean equal work. */
  lemma TemplateDeterminesWork(j1: Job, w1: Work, j2: Job, w2: Work)
    requires Describes(j1, w1) && Describes(j2, w2) && j1.template == j2.template
    ensures w1 == w2
  {
  }

  lemma {:induction false} FinishedKindSound(conditions: seq<Condition>)
    ensures match FinishedKind(conditions)
            case None => forall c :: c in conditions ==> !(c.isTrue && (c.kind.Complete? || c.kind.Failed?))
            case Some(kind) => (kind.Complete? || kind.Failed?) && Condition(kind, true) in conditions
  {
    if conditions != [] {
      FinishedKindSound(conditions[1..]);
    }
  }

  /** Conditions that arrive after a finishing one do not change the verdict. */
  lemma {:induction false} FinishedKindStable(conditions: seq<Condition>, c: Condition)
    ensures FinishedKind(conditions).Some? ==> FinishedKind(conditions + [c]) == FinishedKind(conditions)
    ensures FinishedKind(conditions).None? ==> FinishedKind(conditions + [c]) == FinishedKind([c])
  {
    if conditions == [] {
      assert conditions + [c] == [c];
    } else {
      assert (conditions + [c])[0] == conditions[0] && (conditions + [c])[1..] == conditions[1..] + [c];
      FinishedKindStable(conditions[1..], c);
    }
  }

  // ---------------------------------------------------------------- artifact choice

  /** Two characters are the same letter, or the same character. */
  predicate SameLetter(a: char, b: char) {
    || a == b
    || ('A' <= a <= 'Z' && 'a' <= b <= 'z' && a as int - 'A' as int == b as int - 'a' as int)
    || ('A' <= b <= 'Z' && 'a' <= a <= 'z' && b as int - 'A' as int == a as int - 'a' as int)
  }

  /** `EqualFold` is equality up to the case of letters. */
  lemma FoldsIff(a: string, b: string)
    ensures EqualFold(a, b) <==> |a| == |b| && forall i :: 0 <= i < |a| ==> SameLetter(a[i], b[i])
  {
    if |a| == |b| {
      forall i | 0 <= i < |a| ensures LowerChar(a[i]) == LowerChar(b[i]) <==> SameLetter(a[i], b[i]) {
      }
    }
  }

  /** When a platform entry serves a node: same system, and the node's architecture by its Go name or
      by its uname name, all up to case. */
  predicate Serves(p: Platform, os: string, arch: string) {
    && EqualFold(p.os, os)
    && (|| EqualFold(p.arch, arch)
        || (arch == "amd64" && EqualFold(p.arch, "x86_64"))
        || (arch == "arm64" && EqualFold(p.arch, "aarch64"))
        || (arch == "arm" && EqualFold(p.arch, "armv7l")))
  }

  lemma MatchesIffServes(p: Platform, os: string, arch: string)
    ensures MatchesPlatform(p, os, arch) <==> Serves(p, os, arch)
  {
    hide EqualFold;
    assert "amd64" != "arm64" && |"arm"| == 3;
  }

  /** What a node is given, in terms of the spec alone: the first platform entry that serves it, if
      there are any entries; else the one URL, without a digest; else nothing. */
  lemma ArtifactChosen(fetch: Fetch, os: string, arch: string)
    ensures fetch.platforms == [] ==>
              Resolve(fetch, os, arch) == if fetch.anonHttp.Some? then Some(Artifact(fetch.anonHttp.value, "")) else None
    ensures fetch.platforms != [] ==>
              (Resolve(fetch, os, arch).None? <==> forall i :: 0 <= i < |fetch.platforms| ==> !Serves(fetch.platforms[i], os, arch))
    ensures fetch.platforms != [] && Resolve(fetch, os, arch).Some? ==>
              exists i :: 0 <= i < |fetch.platforms| && Serves(fetch.platforms[i], os, arch)
                && Resolve(fetch, os, arch).value == Artifact(fetch.platforms[i].location, fetch.platforms[i].sha256)
                && forall j :: 0 <= j < i ==> !Serves(fetch.platforms[j], os, arch)
  {
    forall p: Platform ensures MatchesPlatform(p, os, arch) <==> Serves(p, os, arch) {
      MatchesIffServes(p, os, arch);
    }
    hide MatchesPlatform, Serves, FirstMatch;
    FirstMatchIsFirst(fetch.platforms, os, arch);
    if fetch.platforms != [] && Resolve(fetch, os, arch).Some? {
      var i :| 0 <= i < |fetch.platforms| && MatchesPlatform(fetch.platforms[i], os, arch)
               && Resolve(fetch, os, arch).value == Artifact(fetch.platforms[i].location, fetch.platforms[i].sha256)
               && forall j :: 0 <= j < i ==> !MatchesPlatform(fetch.platforms[j], os, arch);
      assert Serves(fetch.platforms[i], os, arch);
    }
  }

  /** The artifact is that of the first matching platform; a non-empty list never falls back. */
  lemma {:induction false} FirstMatchIsFirst(platforms: seq<Platform>, os: string, arch: string)
    ensures match FirstMatch(platforms, os, arch)
            case None => forall i :: 0 <= i < |platforms| ==> !MatchesPlatform(platforms[i], os, arch)
            case Some(a) => exists i :: 0 <= i < |platforms| && MatchesPlatform(platforms[i], os, arch)
                              && a == Artifact(platforms[i].location, platforms[i].sha256)
                              && forall j :: 0 <= j < i ==> !MatchesPlatform(platforms[j], os, arch)
  {
    if platforms != [] && !MatchesPlatform(platforms[0], os, arch) {
      var rest := platforms[1..];
      FirstMatchIsFirst(rest, os, arch);
      assert forall i :: 0 < i < |platforms| ==> platforms[i] == rest[i - 1];
      if FirstMatch(rest, os, arch).Some? {
        var i :| 0 <= i < |rest| && MatchesPlatform(rest[i], os, arch)
                 && FirstMatch(rest, os, arch).value == Artifact(rest[i].location, rest[i].sha256)
                 && forall j :: 0 <= j < i ==> !MatchesPlatform(rest[j], os, arch);
        assert MatchesPlatform(platforms[i + 1], os, arch);
      }
    }
  }

  /** No entry serves both an amd64 and an arm64 node, so one list can hold both. */
  lemma ArchesDisjoint(p: Platform, os1: string, os2: string)
    ensures !(MatchesPlatform(p, os1, "amd64") && MatchesPlatform(p, os2, "arm64"))
  {
    assert "amd64"[1] == 'm' && "arm64"[1] == 'r' && "x86_64"[0] == 'x' && "aarch64"[0] == 'a';
    assert LowerChar("amd64"[1]) != LowerChar("arm64"[1]);
    assert |"amd64"| == 5 && |"arm64"| == 5 && |"x86_64"| == 6 && |"aarch64"| == 7;
  }

  /** The downloader is given the artifact's location, and its digest exactly if there is one. */
  lemma EnvCarriesArtifact(shim: string, a: Artifact)
    ensures var env := InitEnv(shim, INSTALL, a);
            && env.Some? && Env("SHIM_LOCATION", a.location) in env.value
            && (forall e :: e in env.value && e.name == "SHIM_LOCATION" ==> e.value == a.location)
            && (a.sha256 != "" <==> exists e :: e in env.value && e.name == "SHIM_SHA256")
            && (forall e :: e in env.value && e.name == "SHIM_SHA256" ==> e.value == a.sha256)
  {
    EnvNamesDiffer();
    var env := InitEnv(shim, INSTALL, a).value;
    assert env[1] == Env("SHIM_LOCATION", a.location);
    if a.sha256 != "" {
      assert env[2] == Env("SHIM_SHA256", a.sha256);
      assert env[2] in env && env[2].name == "SHIM_SHA256";
    }
  }

  /** The artifact chosen for the node is the one its install Job downloads and verifies: that of the
      first platform entry that serves the node, or the one URL with no digest to check. */
  lemma ArtifactReachesJob(shim: string, spec: Spec, node: string, os: string, arch: string)
    requires Resolve(spec.fetch, os, arch).Some?
    ensures var a := Resolve(spec.fetch, os, arch).value;
            var env := JobManifest(shim, spec, node, INSTALL, a).template.initEnv;
            && env.Some? && Env("SHIM_LOCATION", a.location) in env.value
            && (forall e :: e in env.value && e.name == "SHIM_LOCATION" ==> e.value == a.location)
            && (a.sha256 != "" <==> exists e :: e in env.value && e.name == "SHIM_SHA256")
            && (forall e :: e in env.value && e.name == "SHIM_SHA256" ==> e.value == a.sha256)
            && (spec.fetch.platforms == [] ==>
                  && spec.fetch.anonHttp.Some?
                  && env.value == [Env("SHIM_NAME", shim), Env("SHIM_LOCATION", spec.fetch.anonHttp.value)])
    ensures |spec.fetch.platforms| > 0 ==>
              exists i :: 0 <= i < |spec.fetch.platforms| && Serves(spec.fetch.platforms[i], os, arch)
                && Resolve(spec.fetch, os, arch).value
                   == Artifact(spec.fetch.platforms[i].location, spec.fetch.platforms[i].sha256)
                && forall j :: 0 <= j < i ==> !Serves(spec.fetch.platforms[j], os, arch)
  {
    ArtifactChosen(spec.fetch, os, arch);
    var a := Resolve(spec.fetch, os, arch).value;
    hide Serves, Resolve, JobName, Args;
    EnvCarriesArtifact(shim, a);
    if spec.fetch.platforms == [] {
      assert a == Artifact(spec.fetch.anonHttp.value, "");
      var two := [Env("SHIM_NAME", shim), Env("SHIM_LOCATION", a.location)];
      assert InitEnv(shim, INSTALL, a) == Some(two + []) && two + [] == two;
    }
  }
}
