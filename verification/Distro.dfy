/** Finding the distribution's containerd configuration and making sure it exists before the
    installer edits it. */
module Distro {
  import opened Wrappers

  /** What a distribution does before its configuration is edited. */
  datatype Setup = NoSetup | CopyBase | CreateEmpty

  datatype Restarter = DefaultRestarter | MicroK8sRestarter | Rke2Restarter | K3sRestarter | K0sRestarter

  datatype Settings = Settings(configPath: string, setup: Setup, restarter: Restarter)

  const TEMPLATE_SUFFIX := ".tmpl"
  const DEFAULT_LOCATION := "/etc/containerd/config.toml"
  const MICROK8S_LOCATION := "/var/snap/microk8s/current/args/containerd-template.toml"
  const RKE2_LOCATION := "/var/lib/rancher/rke2/agent/etc/containerd/config.toml"
  const K3S_LOCATION := "/var/lib/rancher/k3s/agent/etc/containerd/config.toml"
  const K0S_LOCATION := "/etc/k0s/containerd.toml"
  const K0S_CONFIG := "/etc/k0s/containerd.d/config.toml"

  const DEFAULT := Settings(DEFAULT_LOCATION, NoSetup, DefaultRestarter)

  /** The known locations and their presets. */
  const LOCATIONS: map<string, Settings> := map[
    MICROK8S_LOCATION := Settings(MICROK8S_LOCATION, NoSetup, MicroK8sRestarter),
    RKE2_LOCATION := Settings(RKE2_LOCATION + TEMPLATE_SUFFIX, CopyBase, Rke2Restarter),
    K3S_LOCATION := Settings(K3S_LOCATION + TEMPLATE_SUFFIX, CopyBase, K3sRestarter),
    K0S_LOCATION := Settings(K0S_CONFIG, CreateEmpty, K0sRestarter)
  ]

  /** Files of the host, and the paths on which calls fail for another reason than absence. */
  datatype Fs = Fs(files: map<string, string>, broken: set<string>)

  predicate StatOk(fs: Fs, path: string) {
    path in fs.files && path !in fs.broken
  }

  predicate StatNotExist(fs: Fs, path: string) {
    path !in fs.files && path !in fs.broken
  }

  /** `DetectDistro`. The known locations are tried in an arbitrary order. */
  method DetectDistro(explicit: string, fs: Fs) returns (r: Option<Settings>, found: string)
    ensures explicit != "" ==>
              r == Some(if explicit in LOCATIONS then LOCATIONS[explicit] else DEFAULT.(configPath := explicit))
    ensures explicit == "" && (exists loc :: loc in LOCATIONS && StatOk(fs, loc)) ==>
              found in LOCATIONS && StatOk(fs, found) && r == Some(LOCATIONS[found])
    ensures explicit == "" && (forall loc :: loc in LOCATIONS ==> !StatOk(fs, loc)) ==>
              r == if StatOk(fs, DEFAULT_LOCATION) then Some(DEFAULT) else None
  {
    found := "";
    if explicit != "" {
      if explicit in LOCATIONS {
        return Some(LOCATIONS[explicit]), explicit;
      }
      return Some(DEFAULT.(configPath := explicit)), explicit;
    }
    var left := LOCATIONS.Keys;
    while left != {}
      invariant left <= LOCATIONS.Keys
      invariant forall loc :: loc in LOCATIONS && loc !in left ==> !StatOk(fs, loc)
      decreases left
    {
      var loc :| loc in left;
      if StatOk(fs, loc) {
        return Some(LOCATIONS[loc]), loc;
      }
      left := left - {loc};
    }
    if StatOk(fs, DEFAULT_LOCATION) {
      return Some(DEFAULT), DEFAULT_LOCATION;
    }
    return None, "";
  }

  /** `strings.CutSuffix`, dropping the report. */
  function CutSuffix(s: string, suffix: string): string {
    if |suffix| <= |s| && s[|s| - |suffix|..] == suffix then s[..|s| - |suffix|] else s
  }

  /** Answers to the I/O of `Setup`: opening the base, creating the file, and a copy that fails after
      `copied` bytes. */
  datatype SetupIO = SetupIO(readable: bool, created: bool, copied: Option<nat>)

  /** Every call is served. */
  predicate Served(io: SetupIO) {
    io.readable && io.created && io.copied.None?
  }

  /** The files after `Setup` and whether it failed. */
  function RunSetup(s: Settings, fs: Fs, io: SetupIO): (map<string, string>, bool) {
    var path := s.configPath;
    if s.setup.NoSetup? || StatOk(fs, path) then (fs.files, false)
    else if !StatNotExist(fs, path) then (fs.files, true)
    else if s.setup.CreateEmpty? then
      if io.created then (fs.files[path := ""], false) else (fs.files, true)
    else
      var src := CutSuffix(path, TEMPLATE_SUFFIX);
      if !StatOk(fs, src) || !io.readable || !io.created then (fs.files, true)
      else if io.copied.Some? && io.copied.value <= |fs.files[src]|
      then (fs.files[path := fs.files[src][..io.copied.value]], true)
      else (fs.files[path := fs.files[src]], false)
  }

  lemma CutSuffixAppend(s: string, suffix: string)
    ensures CutSuffix(s + suffix, suffix) == s
  {
  }

  lemma CutSuffixLaw(s: string)
    ensures CutSuffix(s + ".tmpl", ".tmpl") == s
    ensures (forall t: string :: s != t + ".tmpl") ==> CutSuffix(s, ".tmpl") == s
  {
    CutSuffixAppend(s, ".tmpl");
    if |s| >= 5 && s[|s| - 5..] == ".tmpl" {
      assert s == s[..|s| - 5] + ".tmpl";
    }
  }

  /** Which distribution a found file stands for: where its configuration is edited, how that is
      prepared and how containerd is restarted. There are no other locations. */
  lemma PresetTable(loc: string)
    ensures loc in LOCATIONS <==>
              || loc == "/var/snap/microk8s/current/args/containerd-template.toml"
              || loc == "/var/lib/rancher/rke2/agent/etc/containerd/config.toml"
              || loc == "/var/lib/rancher/k3s/agent/etc/containerd/config.toml"
              || loc == "/etc/k0s/containerd.toml"
    ensures loc == "/var/snap/microk8s/current/args/containerd-template.toml" ==>
              LOCATIONS[loc] == Settings(loc, NoSetup, MicroK8sRestarter)
    ensures loc == "/var/lib/rancher/rke2/agent/etc/containerd/config.toml" ==>
              LOCATIONS[loc] == Settings(loc + ".tmpl", CopyBase, Rke2Restarter)
    ensures loc == "/var/lib/rancher/k3s/agent/etc/containerd/config.toml" ==>
              LOCATIONS[loc] == Settings(loc + ".tmpl", CopyBase, K3sRestarter)
    ensures loc == "/etc/k0s/containerd.toml" ==>
              LOCATIONS[loc] == Settings("/etc/k0s/containerd.d/config.toml", CreateEmpty, K0sRestarter)
    ensures DEFAULT == Settings("/etc/containerd/config.toml", NoSetup, DefaultRestarter)
  {
    assert |MICROK8S_LOCATION| == 56 && |RKE2_LOCATION| == 54 && |K3S_LOCATION| == 53 && |K0S_LOCATION| == 24;
  }

  /** Every preset either edits the very file it was detected by, or copies its template from that
      file, or creates the file it edits. */
  lemma PresetsFitLocations(loc: string)
    requires loc in LOCATIONS
    ensures var s := LOCATIONS[loc];
            && (s.setup.NoSetup? ==> s.configPath == loc)
            && (s.setup.CopyBase? ==> CutSuffix(s.configPath, TEMPLATE_SUFFIX) == loc && s.configPath != loc)
  {
    CutSuffixAppend(RKE2_LOCATION, TEMPLATE_SUFFIX);
    CutSuffixAppend(K3S_LOCATION, TEMPLATE_SUFFIX);
  }

  /** A detected distribution whose setup succeeds has its configuration file. An existing file is
      untouched, a new RKE2 or K3s template is a byte-for-byte copy of the detected base, and the
      setup can fail only on a path that cannot be examined or on a refused call. */
  lemma SetupMakesConfig(loc: string, fs: Fs, io: SetupIO)
    requires loc in LOCATIONS && StatOk(fs, loc)
    ensures var s := LOCATIONS[loc];
            var (files, failed) := RunSetup(s, fs, io);
            && (!failed ==> s.configPath in files)
            && (forall p :: p in fs.files ==> p in files && files[p] == fs.files[p])
            && (forall p :: p in files && p !in fs.files ==> p == s.configPath)
            && (s.setup.CopyBase? && s.configPath !in fs.files && !failed ==> files[s.configPath] == fs.files[loc])
            && (failed ==> s.configPath in fs.broken || !Served(io))
            && (s.configPath in fs.broken ==> failed || s.setup.NoSetup?)
            && (s.setup.CopyBase? && s.configPath !in fs.files && !io.readable ==> failed && files == fs.files)
            && (s.setup.CreateEmpty? && s.configPath !in fs.files && !failed ==> files[s.configPath] == "")
            && (failed && s.configPath in files && s.configPath !in fs.files ==> s.setup.CopyBase? && files[s.configPath] <= fs.files[loc])
  {
    PresetsFitLocations(loc);
  }

  lemma NoPresetIsDefault(loc: string)
    requires loc in LOCATIONS
    ensures LOCATIONS[loc].configPath != DEFAULT_LOCATION
  {
    assert |DEFAULT_LOCATION| == 27 && |K0S_CONFIG| == 33;
    assert |MICROK8S_LOCATION| > 40 && |RKE2_LOCATION| > 40 && |K3S_LOCATION| > 40;
  }

  /** Autodetection followed by setup, whatever order the locations are tried in. If a distribution
      is found, its configuration is returned exactly if its setup succeeds, and a new template equals
      the file it was detected by; the default is returned exactly if it exists and nothing else does. */
  method DetectAndSetUp(fs: Fs, io: SetupIO) returns (config: Option<string>, files: map<string, string>, found: string)
    ensures config.Some? ==> config.value in files
    ensures forall p :: p in fs.files ==> p in files && files[p] == fs.files[p]
    ensures (exists loc :: loc in LOCATIONS && StatOk(fs, loc)) ==>
              && found in LOCATIONS && StatOk(fs, found)
              && var s := LOCATIONS[found];
                 && config == (if RunSetup(s, fs, io).1 then None else Some(s.configPath))
                 && (s.configPath !in fs.broken && Served(io) ==> config.Some?)
                 && (config.Some? && s.setup.CopyBase? && s.configPath !in fs.files ==> files[s.configPath] == fs.files[found])
    ensures (forall loc :: loc in LOCATIONS ==> !StatOk(fs, loc)) ==>
              files == fs.files && config == if StatOk(fs, DEFAULT_LOCATION) then Some(DEFAULT_LOCATION) else None
    ensures config == Some(DEFAULT_LOCATION) ==> forall loc :: loc in LOCATIONS ==> !StatOk(fs, loc)
  {
    hide RunSetup;
    var r;
    r, found := DetectDistro("", fs);
    if r.None? {
      return None, fs.files, found;
    }
    var result := RunSetup(r.value, fs, io);
    files := result.0;
    config := if result.1 then None else Some(r.value.configPath);
    if loc :| loc in LOCATIONS && StatOk(fs, loc) {
      SetupMakesConfig(found, fs, io);
      NoPresetIsDefault(found);
    } else {
      DefaultNeedsNoSetup(fs, io);
    }
  }

  lemma DefaultNeedsNoSetup(fs: Fs, io: SetupIO)
    ensures RunSetup(DEFAULT, fs, io) == (fs.files, false)
  {
  }
}
