/** A host as the node installer sees it, and the installer's operations on it: copying and
    deleting shim binaries, keeping the lock, editing the containerd configuration, restarting. */
module Host {
  import opened ShimNames
  import opened Strings
  import opened ContainerdConfig
  import opened LockState
  import opened Wrappers

  /** The host file system (binaries and configuration), the lock file and how often containerd
      was restarted. */
  datatype Host = Host(files: map<string, string>, lock: LockFile, restarts: nat)

  /** Fixed for one invocation; the options are read afresh by each. `binDir` is the cleaned join of the RCM path and `bin`;
      `digest` stands for SHA-256. */
  datatype Setup = Setup(binDir: string, configPath: string, options: Options, digest: string -> seq<Byte>)

  // ---------------------------------------------------------------- what the environment answers

  /** Answers to the I/O of one `Install`. The lock may be there and yet not be read. `written` bytes
      reach the binary and `hashed` bytes reach the hash; a failed write of the lock leaves `lockWrite`
      behind. */
  datatype InstallIO = InstallIO(source: bool, content: string, mkdir: bool, created: bool, lockReadFailed: bool,
                                 written: nat, hashed: nat, copyFailed: bool, lockWrite: Option<LockFile>)

  /** The writer feeds the binary before the hash, and a copy without error moves everything. */
  predicate ValidInstallIO(io: InstallIO) {
    && io.hashed <= io.written <= |io.content|
    && (!io.copyFailed ==> io.hashed == |io.content|)
  }

  datatype UninstallIO = UninstallIO(lockReadFailed: bool, removeFailed: bool, lockWrite: Option<LockFile>)

  /** Answers to one configuration edit: a failed write leaves `write` behind; `order` is the order
      in which the options map was visited. */
  datatype ConfigIO = ConfigIO(readFailed: bool, write: Option<string>, order: seq<string>)

  /** `state.Get` as one call sees it. */
  function ReadLock(lock: LockFile, failed: bool): Option<Shims> {
    if failed then None else Get(lock)
  }

  datatype Installed = Installed(path: string, changed: bool, failed: bool)

  // ---------------------------------------------------------------- Config.Install, Config.Uninstall

  function InstallHost(c: Setup, h: Host, file: string, io: InstallIO): (Host, Installed)
    requires ValidInstallIO(io)
  {
    var dst := BinPath(c.binDir, file);
    if !io.source then (h, Installed("", false, true))
    else if !io.mkdir then (h, Installed(dst, false, true))
    else if !io.created then (h, Installed("", false, true))
    else
      match ReadLock(h.lock, io.lockReadFailed)
      case None => (h.(files := h.files[dst := ""]), Installed("", false, true))
      case Some(shims) =>
        var name, sha := RuntimeName(file), c.digest(io.content[..io.hashed]);
        var copied := h.(files := h.files[dst := io.content[..io.written]]);
        if !ShimChanged(shims, name, sha, dst) then (copied, Installed(dst, false, io.copyFailed))
        else if io.lockWrite.Some? then (copied.(lock := io.lockWrite.value), Installed("", false, true))
        else (copied.(lock := Doc(Marshal(shims[name := Shim(sha, dst)]))), Installed(dst, true, io.copyFailed))
  }

  /** Path of the deleted binary, or `None` on error. A binary that is already gone is no error. */
  function UninstallHost(c: Setup, h: Host, name: string, io: UninstallIO): (Host, Option<string>) {
    match ReadLock(h.lock, io.lockReadFailed)
    case None => (h, None)
    case Some(shims) =>
      if name !in shims || io.removeFailed then (h, None)
      else
        var path := shims[name].path;
        var removed := h.(files := h.files - {path});
        if io.lockWrite.Some? then (removed.(lock := io.lockWrite.value), None)
        else (removed.(lock := Doc(Marshal(shims - {name}))), Some(path))
  }

  // ---------------------------------------------------------------- AddRuntime, RemoveRuntime

  /** New host and whether the call failed. */
  function AddHost(c: Setup, h: Host, path: string, io: ConfigIO): (Host, bool) {
    if c.configPath !in h.files || io.readFailed then (h, true)
    else
      var text := h.files[c.configPath];
      if Contains(text, NameOf(path)) then (h, false)
      else if io.write.Some? then (h.(files := h.files[c.configPath := io.write.value]), true)
      else (h.(files := h.files[c.configPath := AddText(text, path, c.options, io.order)]), false)
  }

  /** New host, the reported `changed` and whether the call failed. */
  function RemoveHost(c: Setup, h: Host, path: string, io: ConfigIO): (Host, bool, bool) {
    if c.configPath !in h.files || io.readFailed then (h, false, true)
    else
      var text := h.files[c.configPath];
      if !Contains(text, NameOf(path)) then (h, false, false)
      else if io.write.Some? then (h.(files := h.files[c.configPath := io.write.value]), false, true)
      else (h.(files := h.files[c.configPath := RemoveText(text, path, c.options, io.order)]), true, false)
  }

  // ---------------------------------------------------------------- RunInstall, RunUninstall

  datatype AssetIO = AssetIO(install: InstallIO, config: ConfigIO)

  predicate ValidAssetIO(c: Setup, io: AssetIO) {
    ValidInstallIO(io.install) && multiset(io.config.order) == multiset(c.options.Keys)
  }

  /** Loop state of `RunInstall`. */
  datatype Progress = Progress(host: Host, changed: bool, failed: bool)

  /** One asset: install the binary, then add its runtime. */
  function InstallAsset(c: Setup, p: Progress, file: string, io: AssetIO): Progress
    requires ValidAssetIO(c, io)
  {
    var (h, out) := InstallHost(c, p.host, file, io.install);
    if out.failed then Progress(h, p.changed, true)
    else
      var (h', bad) := AddHost(c, h, out.path, io.config);
      Progress(h', p.changed || out.changed, bad)
  }

  /** All assets in listing order, stopping at the first failure. */
  function InstallAll(c: Setup, p: Progress, files: seq<string>, ios: seq<AssetIO>): Progress
    requires |ios| == |files| && forall i :: 0 <= i < |ios| ==> ValidAssetIO(c, ios[i])
    decreases |files|
  {
    if files == [] || p.failed then p
    else InstallAll(c, InstallAsset(c, p, files[0], ios[0]), files[1..], ios[1..])
  }

  datatype RunIO = RunIO(listed: bool, assets: seq<AssetIO>, dbusFailed: bool, restartFailed: bool)

  /** New host and whether the command failed. */
  function RunInstallHost(c: Setup, h: Host, files: seq<string>, io: RunIO): (Host, bool)
    requires |io.assets| == |files| && forall i :: 0 <= i < |files| ==> ValidAssetIO(c, io.assets[i])
  {
    if !io.listed then (h, true)
    else
      var p := InstallAll(c, Progress(h, false, false), files, io.assets);
      if p.failed then (p.host, true)
      else if !p.changed then (p.host, false)
      else if io.dbusFailed then (p.host, true)
      else (p.host.(restarts := p.host.restarts + 1), io.restartFailed)
  }

  function RunUninstallHost(c: Setup, h: Host, name: string, uio: UninstallIO, cio: ConfigIO, restartFailed: bool): (Host, bool) {
    var (h1, path) := UninstallHost(c, h, name, uio);
    if path.None? then (h1, true)
    else
      var (h2, changed, bad) := RemoveHost(c, h1, path.value, cio);
      if bad then (h2, true)
      else if !changed then (h2, false)
      else (h2.(restarts := h2.restarts + 1), restartFailed)
  }

  /** Installing a longer listing is installing its parts one after the other. */
  lemma {:induction false} InstallAllAppend(c: Setup, p: Progress, a: seq<string>, x: seq<AssetIO>, b: seq<string>, y: seq<AssetIO>)
    requires |x| == |a| && |y| == |b|
    requires (forall i :: 0 <= i < |x| ==> ValidAssetIO(c, x[i])) && (forall i :: 0 <= i < |y| ==> ValidAssetIO(c, y[i]))
    ensures InstallAll(c, p, a + b, x + y) == InstallAll(c, InstallAll(c, p, a, x), b, y)
    decreases |a|
  {
    hide InstallAsset, ValidAssetIO;
    if a == [] {
      assert a + b == b && x + y == y;
    } else {
      assert (a + b)[1..] == a[1..] + b && (x + y)[1..] == x[1..] + y;
      if !p.failed {
        InstallAllAppend(c, InstallAsset(c, p, a[0], x[0]), a[1..], x[1..], b, y);
      }
    }
  }

  lemma InstallAllOne(c: Setup, p: Progress, file: string, io: AssetIO)
    requires ValidAssetIO(c, io) && !p.failed
    ensures InstallAll(c, p, [file], [io]) == InstallAsset(c, p, file, io)
  {
    assert [file][1..] == [] && [io][1..] == [];
  }

  lemma InstallAllStops(c: Setup, p: Progress, files: seq<string>, ios: seq<AssetIO>)
    requires |ios| == |files| && forall i :: 0 <= i < |ios| ==> ValidAssetIO(c, ios[i])
    ensures p.failed || files == [] ==> InstallAll(c, p, files, ios) == p
  {
  }

  lemma InstallAllSnoc(c: Setup, p: Progress, files: seq<string>, i: nat, x: seq<AssetIO>, io: AssetIO, mid: Progress)
    requires i < |files| && |x| == i && (forall k :: 0 <= k < i ==> ValidAssetIO(c, x[k])) && ValidAssetIO(c, io)
    requires InstallAll(c, p, files[..i], x) == mid && !mid.failed
    ensures InstallAll(c, p, files[..i + 1], x + [io]) == InstallAsset(c, mid, files[i], io)
  {
    hide InstallAll, InstallAsset, ValidAssetIO;
    InstallAllAppend(c, p, files[..i], x, [files[i]], [io]);
    assert files[..i] + [files[i]] == files[..i + 1];
    InstallAllOne(c, mid, files[i], io);
  }

  /** What the environment will answer for one asset, leaving the option order open. */
  datatype AssetEnv = AssetEnv(install: InstallIO, readFailed: bool, write: Option<string>)

  ghost predicate Answers(env: AssetEnv, io: AssetIO) {
    io.install == env.install && io.config.readFailed == env.readFailed && io.config.write == env.write
  }

  /** `used` answers the first assets, legally. */
  ghost predicate Matches(c: Setup, envs: seq<AssetEnv>, used: seq<AssetIO>) {
    && |used| <= |envs|
    && forall k :: 0 <= k < |used| ==> ValidAssetIO(c, used[k]) && Answers(envs[k], used[k])
  }

  /** The loop of `RunInstall` has handled `|used|` assets and stands at `now`. */
  ghost predicate Reached(c: Setup, start: Progress, assets: seq<string>, envs: seq<AssetEnv>, used: seq<AssetIO>, now: Progress) {
    && |envs| == |assets| && Matches(c, envs, used)
    && InstallAll(c, start, assets[..|used|], used) == now
  }

  lemma ReachedStep(c: Setup, start: Progress, assets: seq<string>, envs: seq<AssetEnv>, used: seq<AssetIO>, now: Progress, io: AssetIO)
    requires Reached(c, start, assets, envs, used, now) && |used| < |assets| && !now.failed
    requires ValidAssetIO(c, io) && Answers(envs[|used|], io)
    ensures Reached(c, start, assets, envs, used + [io], InstallAsset(c, now, assets[|used|], io))
  {
    hide InstallAll, InstallAsset, ValidAssetIO, Answers;
    InstallAllSnoc(c, start, assets, |used|, used, io, now);
  }

  ghost function Unused(c: Setup, envs: seq<AssetEnv>): (ios: seq<AssetIO>)
    requires forall i :: 0 <= i < |envs| ==> ValidInstallIO(envs[i].install)
    ensures |ios| == |envs|
    ensures forall i :: 0 <= i < |ios| ==> ValidAssetIO(c, ios[i]) && Answers(envs[i], ios[i])
  {
    seq(|envs|, i requires 0 <= i < |envs| =>
      AssetIO(envs[i].install, ConfigIO(envs[i].readFailed, envs[i].write, SomeOrder(c.options))))
  }

  // ---------------------------------------------------------------- the installer itself

  /** The node installer working on a host, step by step as the commands do. */
  class Installer {
    const c: Setup
    var files: map<string, string>
    var lock: LockFile
    var restarts: nat

    constructor (c: Setup, h: Host)
      ensures this.c == c && Value() == h
    {
      this.c := c;
      files, lock, restarts := h.files, h.lock, h.restarts;
    }

    function Value(): Host
      reads this
    {
      Host(files, lock, restarts)
    }

    method Install(file: string, io: InstallIO) returns (out: Installed)
      requires ValidInstallIO(io)
      modifies this
      ensures (Value(), out) == InstallHost(c, old(Value()), file, io)
    {
      if !io.source {
        return Installed("", false, true);
      }
      var dst := BinPath(c.binDir, file);
      if !io.mkdir {
        return Installed(dst, false, true);
      }
      if !io.created {
        return Installed("", false, true);
      }
      files := files[dst := ""];  // the binary is truncated before the lock is read
      var read := ReadLock(lock, io.lockReadFailed);
      if read.None? {
        return Installed("", false, true);
      }
      var st := new State(read.value);
      files := files[dst := io.content[..io.written]];
      assert files == old(files)[dst := io.content[..io.written]];
      var sha := c.digest(io.content[..io.hashed]);
      var name := RuntimeName(file);
      var changed := ShimChanged(st.shims, name, sha, dst);
      if changed {
        st.UpdateShim(name, Shim(sha, dst));
        if io.lockWrite.Some? {
          lock := io.lockWrite.value;
          return Installed("", false, true);
        }
        lock := st.Write();
      }
      return Installed(dst, changed, io.copyFailed);  // a copy error surfaces only now
    }

    method Uninstall(name: string, io: UninstallIO) returns (path: Option<string>)
      modifies this
      ensures (Value(), path) == UninstallHost(c, old(Value()), name, io)
    {
      var read := ReadLock(lock, io.lockReadFailed);
      if read.None? {
        return None;
      }
      var st := new State(read.value);
      if name !in st.shims {
        return None;
      }
      var binary := st.shims[name].path;
      if io.removeFailed {
        return None;
      }
      files := files - {binary};
      st.RemoveShim(name);
      if io.lockWrite.Some? {
        lock := io.lockWrite.value;
        return None;
      }
      lock := st.Write();
      return Some(binary);
    }

    /** The option order is whatever `GenerateConfig` happened to use. */
    method AddRuntime(path: string, readFailed: bool, write: Option<string>) returns (failed: bool, ghost io: ConfigIO)
      modifies this
      ensures IsOrder(c.options, io.order) && io.readFailed == readFailed && io.write == write
      ensures (Value(), failed) == AddHost(c, old(Value()), path, io)
      ensures lock == old(lock) && restarts == old(restarts)
    {
      io := ConfigIO(readFailed, write, SomeOrder(c.options));
      if c.configPath !in files || readFailed {
        return true, io;
      }
      var data := files[c.configPath];
      if Contains(data, NameOf(path)) {
        return false, io;
      }
      var cfg, order := GenerateConfig(path, c.options, data);
      io := ConfigIO(readFailed, write, order);
      if write.Some? {
        files := files[c.configPath := write.value];
        return true, io;
      }
      files := files[c.configPath := data + cfg];
      failed := false;
    }

    method RemoveRuntime(path: string, readFailed: bool, write: Option<string>)
      returns (changed: bool, failed: bool, ghost io: ConfigIO)
      modifies this
      ensures IsOrder(c.options, io.order) && io.readFailed == readFailed && io.write == write
      ensures (Value(), changed, failed) == RemoveHost(c, old(Value()), path, io)
      ensures lock == old(lock) && restarts == old(restarts)
    {
      io := ConfigIO(readFailed, write, SomeOrder(c.options));
      if c.configPath !in files || readFailed {
        return false, true, io;
      }
      var data := files[c.configPath];
      if !Contains(data, NameOf(path)) {
        return false, false, io;
      }
      var cfg, order := GenerateConfig(path, c.options, data);
      io := ConfigIO(readFailed, write, order);
      BlockShape(Domain(data), path, c.options, order);
      var modified := RemoveAll(data, cfg);
      if write.Some? {
        files := files[c.configPath := write.value];
        return false, true, io;
      }
      files := files[c.configPath := modified];
      return true, false, io;
    }

    /** One round of the loop of `RunInstall`. */
    method InstallOne(file: string, env: AssetEnv, ghost before: bool)
      returns (changed: bool, failed: bool, ghost used: AssetIO)
      requires ValidInstallIO(env.install)
      modifies this
      ensures ValidAssetIO(c, used) && Answers(env, used)
      ensures InstallAsset(c, Progress(old(Value()), before, false), file, used)
              == Progress(Value(), before || changed, failed)
    {
      var out := Install(file, env.install);
      if out.failed {
        return false, true, AssetIO(env.install, ConfigIO(env.readFailed, env.write, SomeOrder(c.options)));
      }
      ghost var cio;
      failed, cio := AddRuntime(out.path, env.readFailed, env.write);
      return out.changed, failed, AssetIO(env.install, cio);
    }

    /** The loop of `RunInstall`: assets in listing order, stopping at the first failure. */
    method InstallAssets(assets: seq<string>, envs: seq<AssetEnv>)
      returns (anythingChanged: bool, failed: bool, ghost used: seq<AssetIO>)
      requires |envs| == |assets| && forall i :: 0 <= i < |envs| ==> ValidInstallIO(envs[i].install)
      modifies this
      ensures !failed ==> |used| == |assets|
      ensures Reached(c, Progress(old(Value()), false, false), assets, envs, used, Progress(Value(), anythingChanged, failed))
    {
      ghost var start := Progress(Value(), false, false);
      anythingChanged, failed, used := false, false, [];
      assert Reached(c, start, assets, envs, used, start);
      hide Reached, InstallAsset;
      var i := 0;
      while i < |assets| && !failed
        invariant 0 <= i <= |assets| && |used| == i
        invariant Reached(c, start, assets, envs, used, Progress(Value(), anythingChanged, failed))
        decreases |assets| - i
      {
        ghost var now := Progress(Value(), anythingChanged, false);
        var changed;
        ghost var asset;
        changed, failed, asset := InstallOne(assets[i], envs[i], anythingChanged);
        ReachedStep(c, start, assets, envs, used, now, asset);
        used := used + [asset];
        anythingChanged := anythingChanged || changed;
        i := i + 1;
      }
    }

    /** `RunInstall` over the listed assets. */
    method RunInstall(assets: seq<string>, listed: bool, envs: seq<AssetEnv>, dbusFailed: bool, restartFailed: bool)
      returns (failed: bool, ghost io: RunIO)
      requires |envs| == |assets| && forall i :: 0 <= i < |envs| ==> ValidInstallIO(envs[i].install)
      modifies this
      ensures |io.assets| == |assets|
      ensures forall i :: 0 <= i < |assets| ==> ValidAssetIO(c, io.assets[i]) && Answers(envs[i], io.assets[i])
      ensures (Value(), failed) == RunInstallHost(c, old(Value()), assets, io)
    {
      hide InstallAll, InstallAsset;
      ghost var rest := Unused(c, envs);
      io := RunIO(listed, rest, dbusFailed, restartFailed);
      if !listed {
        return true, io;
      }
      var anythingChanged, bad;
      ghost var used;
      anythingChanged, bad, used := InstallAssets(assets, envs);
      ghost var n := |used|;
      InstallAllAppend(c, Progress(old(Value()), false, false), assets[..n], used, assets[n..], rest[n..]);
      assert assets[..n] + assets[n..] == assets;
      InstallAllStops(c, Progress(Value(), anythingChanged, bad), assets[n..], rest[n..]);
      io := RunIO(listed, used + rest[n..], dbusFailed, restartFailed);
      if bad {
        return true, io;
      }
      if !anythingChanged {
        return false, io;
      }
      if dbusFailed {
        return true, io;
      }
      restarts := restarts + 1;
      return restartFailed, io;
    }

    method RunUninstall(name: string, uio: UninstallIO, readFailed: bool, write: Option<string>, restartFailed: bool)
      returns (failed: bool, ghost io: ConfigIO)
      modifies this
      ensures IsOrder(c.options, io.order) && io.readFailed == readFailed && io.write == write
      ensures (Value(), failed) == RunUninstallHost(c, old(Value()), name, uio, io, restartFailed)
    {
      hide UninstallHost, RemoveHost;
      io := ConfigIO(readFailed, write, SomeOrder(c.options));
      var path := Uninstall(name, uio);
      if path.None? {
        return true, io;
      }
      var changed, bad;
      changed, bad, io := RemoveRuntime(path.value, readFailed, write);
      if bad {
        return true, io;
      }
      if !changed {
        return false, io;
      }
      restarts := restarts + 1;
      return restartFailed, io;
    }
  }
}
