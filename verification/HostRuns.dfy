/** What holds on a host over whole runs of the installer: the lock describes the binaries on
    disk, installing twice is installing once, and uninstalling undoes installing. */
module HostRuns {
  import opened ShimNames
  import opened Strings
  import opened ContainerdConfig
  import opened LockState
  import opened Wrappers
  import opened Host

  // ---------------------------------------------------------------- lock and disk agree

  /** Lock entry `k` points below the binary directory at a file named for `k`, and that file
      has the recorded digest. */
  ghost predicate EntryAgrees(c: Setup, files: map<string, string>, k: string, s: Shim) {
    && BinPath(c.binDir, "") <= s.path
    && RuntimeName(s.path[|c.binDir| + 1..]) == k
    && s.path in files && c.digest(files[s.path]) == s.sha256
  }

  ghost predicate Agrees(c: Setup, h: Host) {
    && Get(h.lock).Some?
    && forall k :: k in Get(h.lock).value ==> EntryAgrees(c, h.files, k, Get(h.lock).value[k])
  }

  /** The configuration file is not one of the binaries. */
  ghost predicate ConfigOutsideBin(c: Setup) {
    !(BinPath(c.binDir, "") <= c.configPath)
  }

  lemma BinPathFile(binDir: string, file: string)
    ensures BinPath(binDir, "") <= BinPath(binDir, file)
    ensures BinPath(binDir, file)[|binDir| + 1..] == file
  {
  }

  /** Writing one binary and its lock entry leaves every other agreeing entry alone. */
  lemma OtherEntryKept(c: Setup, files: map<string, string>, file: string, bytes: string, k: string, s: Shim)
    requires EntryAgrees(c, files, k, s) && k != RuntimeName(file)
    ensures EntryAgrees(c, files[BinPath(c.binDir, file) := bytes], k, s)
  {
    BinPathFile(c.binDir, file);
  }

  /** The lock is rewritten exactly when rewriting makes a difference. */
  lemma UpdateIffChanged(shims: Shims, name: string, entry: Shim)
    ensures ShimChanged(shims, name, entry.sha256, entry.path) <==> shims[name := entry] != shims
    ensures Get(Doc(Marshal(shims[name := entry]))) == Some(shims[name := entry])
  {
    GetAfterWrite(shims[name := entry]);
    assert shims[name := entry][name] == entry;
    assert name in shims && shims[name] == entry ==> shims[name := entry] == shims;
  }

  /** The whole effect of a successful `Install`. */
  lemma InstallEffect(c: Setup, h: Host, file: string, io: InstallIO)
    requires ValidInstallIO(io) && !InstallHost(c, h, file, io).1.failed
    ensures Get(h.lock).Some?
    ensures var dst, name, sha := BinPath(c.binDir, file), RuntimeName(file), c.digest(io.content);
            var shims := Get(h.lock).value;
            var changed := ShimChanged(shims, name, sha, dst);
            InstallHost(c, h, file, io)
            == (Host(h.files[dst := io.content], if changed then Doc(Marshal(shims[name := Shim(sha, dst)])) else h.lock, h.restarts),
                Installed(dst, changed, false))
  {
    assert io.content[..|io.content|] == io.content;
  }

  /** The shim map after a successful `Install`. */
  lemma InstallLock(c: Setup, h: Host, file: string, io: InstallIO)
    requires ValidInstallIO(io) && !InstallHost(c, h, file, io).1.failed
    ensures var (h', out) := InstallHost(c, h, file, io);
            var entry := Shim(c.digest(io.content), BinPath(c.binDir, file));
            && Get(h.lock).Some?
            && Get(h'.lock) == Some(Get(h.lock).value[RuntimeName(file) := entry])
            && out.path == BinPath(c.binDir, file)
            && h'.files == h.files[out.path := io.content] && h'.restarts == h.restarts
            && (out.changed <==> Get(h'.lock) != Get(h.lock))
            && (!out.changed ==> h'.lock == h.lock)
  {
    InstallEffect(c, h, file, io);
    UpdateIffChanged(Get(h.lock).value, RuntimeName(file), Shim(c.digest(io.content), BinPath(c.binDir, file)));
  }

  /** `Install` re-establishes agreement for its own key from any readable lock, if it succeeds. */
  lemma InstallEstablishesOwnEntry(c: Setup, h: Host, file: string, io: InstallIO)
    requires ValidInstallIO(io) && !InstallHost(c, h, file, io).1.failed
    ensures var h' := InstallHost(c, h, file, io).0;
            && Get(h'.lock).Some? && RuntimeName(file) in Get(h'.lock).value
            && EntryAgrees(c, h'.files, RuntimeName(file), Get(h'.lock).value[RuntimeName(file)])
            && h'.files[BinPath(c.binDir, file)] == io.content
            && Get(h'.lock).value[RuntimeName(file)] == Shim(c.digest(io.content), BinPath(c.binDir, file))
  {
    BinPathFile(c.binDir, file);
    InstallLock(c, h, file, io);
  }

  /** Whether an entry agrees after one binary was written: an entry for that path has to be named
      for it and record the digest of the new bytes, any other has to agree already. */
  lemma EntryAfterWrite(c: Setup, files: map<string, string>, file: string, bytes: string, k: string, s: Shim)
    ensures EntryAgrees(c, files[BinPath(c.binDir, file) := bytes], k, s)
            <==> if s.path == BinPath(c.binDir, file) then RuntimeName(file) == k && c.digest(bytes) == s.sha256
                 else EntryAgrees(c, files, k, s)
  {
    BinPathFile(c.binDir, file);
  }

  /** A lock that a failed write left behind fits the disk once `bytes` are the binary `file`. */
  ghost predicate LockFits(c: Setup, h: Host, left: LockFile, file: string, bytes: string) {
    && Get(left).Some?
    && forall k :: k in Get(left).value ==>
         var s := Get(left).value[k];
         if s.path == BinPath(c.binDir, file) then RuntimeName(file) == k && c.digest(bytes) == s.sha256
         else EntryAgrees(c, h.files, k, s)
  }

  /** The call got as far as truncating the binary. */
  predicate Touches(io: InstallIO) {
    io.source && io.mkdir && io.created
  }

  /** The lock is read, and the digest that the call computes asks for a new entry. */
  predicate NeedsEntry(c: Setup, h: Host, file: string, io: InstallIO)
    requires ValidInstallIO(io) && Get(h.lock).Some?
  {
    !io.lockReadFailed && ShimChanged(Get(h.lock).value, RuntimeName(file), c.digest(io.content[..io.hashed]), BinPath(c.binDir, file))
  }

  /** Exactly when lock and disk still agree after an `Install`, whatever failed in it and whatever
      it returned: when the binary was not touched; if then the lock could not be read, when it has no
      entry for the truncated binary or one with the digest of nothing; if the lock had to be written
      and could not be, when the lock left behind fits the new binary; else, when the bytes that
      reached the disk hash like the bytes that reached the hash. */
  lemma InstallAgreesIff(c: Setup, h: Host, file: string, io: InstallIO)
    requires ValidInstallIO(io) && Agrees(c, h)
    ensures Agrees(c, InstallHost(c, h, file, io).0)
            <==> || !Touches(io)
                 || (if io.lockReadFailed then OldEntryFits(c, h, file, "")
                     else if io.lockWrite.Some? && NeedsEntry(c, h, file, io)
                     then LockFits(c, h, io.lockWrite.value, file, io.content[..io.written])
                     else c.digest(io.content[..io.written]) == c.digest(io.content[..io.hashed]))
  {
    if Touches(io) {
      var shims, bytes := Get(h.lock).value, io.content[..io.written];
      var h' := InstallHost(c, h, file, io).0;
      var entry := Shim(c.digest(io.content[..io.hashed]), BinPath(c.binDir, file));
      UpdateIffChanged(shims, RuntimeName(file), entry);
      hide Agrees, LockFits, OldEntryFits, BinPath, RuntimeName, Get;
      if io.lockReadFailed {
        LeftLockDecides(c, h, h', file, "");
        OldLockFits(c, h, file, "");
      } else if io.lockWrite.Some? && NeedsEntry(c, h, file, io) {
        LeftLockDecides(c, h, h', file, bytes);
      } else {
        OwnEntryDecides(c, h, h', file, bytes, entry);
      }
    }
  }

  /** The lock has no entry for the binary `file`, or one with the digest of `bytes`. */
  predicate OldEntryFits(c: Setup, h: Host, file: string, bytes: string)
    requires Get(h.lock).Some?
  {
    var shims, name := Get(h.lock).value, RuntimeName(file);
    name in shims && shims[name].path == BinPath(c.binDir, file) ==> shims[name].sha256 == c.digest(bytes)
  }

  /** An agreeing lock that is left as it is fits new bytes exactly if its entry does. */
  lemma OldLockFits(c: Setup, h: Host, file: string, bytes: string)
    requires Agrees(c, h)
    ensures LockFits(c, h, h.lock, file, bytes) <==> OldEntryFits(c, h, file, bytes)
  {
    var shims := Get(h.lock).value;
    BinPathFile(c.binDir, file);
    forall k | k in shims && k != RuntimeName(file) ensures shims[k].path != BinPath(c.binDir, file) {
      assert EntryAgrees(c, h.files, k, shims[k]);
    }
  }

  lemma LeftLockDecides(c: Setup, h: Host, h': Host, file: string, bytes: string)
    requires h'.files == h.files[BinPath(c.binDir, file) := bytes]
    ensures Agrees(c, h') <==> LockFits(c, h, h'.lock, file, bytes)
  {
    forall k, s: Shim {:trigger EntryAgrees(c, h.files, k, s)} {:trigger EntryAgrees(c, h'.files, k, s)}
      ensures EntryAgrees(c, h'.files, k, s)
              <==> if s.path == BinPath(c.binDir, file) then RuntimeName(file) == k && c.digest(bytes) == s.sha256
                   else EntryAgrees(c, h.files, k, s)
    {
      EntryAfterWrite(c, h.files, file, bytes, k, s);
    }
    hide EntryAgrees, BinPath, RuntimeName;
  }

  /** With the lock written, only the entry of the installed binary can disagree. */
  lemma OwnEntryDecides(c: Setup, h: Host, h': Host, file: string, bytes: string, entry: Shim)
    requires Agrees(c, h) && h'.files == h.files[BinPath(c.binDir, file) := bytes]
    requires Get(h'.lock) == Some(Get(h.lock).value[RuntimeName(file) := entry]) && entry.path == BinPath(c.binDir, file)
    ensures Agrees(c, h') <==> c.digest(bytes) == entry.sha256
  {
    var shims := Get(h'.lock).value;
    assert shims[RuntimeName(file)] == entry;
    EntryAfterWrite(c, h.files, file, bytes, RuntimeName(file), entry);
    hide BinPath, RuntimeName;
    forall k | k in shims && k != RuntimeName(file) ensures EntryAgrees(c, h'.files, k, shims[k]) {
      OtherEntryKept(c, h.files, file, bytes, k, Get(h.lock).value[k]);
    }
  }

  /** What that means for the three ways in which a write of the lock can fail. The old lock is still
      there: agreement exactly if it has no entry for the binary or the old entry's digest is that of
      the new bytes. A torn lock: never. The new lock is there in spite of the error: as if there had
      been none. */
  lemma FailedLockWrite(c: Setup, h: Host, file: string, io: InstallIO)
    requires ValidInstallIO(io) && Agrees(c, h) && Touches(io) && io.lockWrite.Some? && NeedsEntry(c, h, file, io)
    ensures var shims, name, dst, sha := Get(h.lock).value, RuntimeName(file), BinPath(c.binDir, file), c.digest(io.content[..io.written]);
            var fits := Agrees(c, InstallHost(c, h, file, io).0);
            && (Get(io.lockWrite.value) == Get(h.lock) ==> (fits <==> OldEntryFits(c, h, file, io.content[..io.written])))
            && (Get(io.lockWrite.value).None? ==> !fits)
            && (Get(io.lockWrite.value) == Some(shims[name := Shim(c.digest(io.content[..io.hashed]), dst)]) ==>
                  (fits <==> sha == c.digest(io.content[..io.hashed])))
  {
    InstallAgreesIff(c, h, file, io);
    var shims, name, dst, bytes := Get(h.lock).value, RuntimeName(file), BinPath(c.binDir, file), io.content[..io.written];
    OldLockFits(c, h, file, bytes);
    var entry := Shim(c.digest(io.content[..io.hashed]), dst);
    if Get(io.lockWrite.value) == Some(shims[name := entry]) {
      OwnEntryDecides(c, h, InstallHost(c, h, file, io).0, file, bytes, entry);
    }
  }

  const TOY := Setup("/b", "/c", map[], s => if s == "" then [] else [1])

  /** A host on which the empty binary `/b/s` is installed. */
  const TOY_HOST := Host(map["/b/s" := ""], Doc(map["s" := RawShim("", "/b/s")]), 0)

  /** The same host with something in the binary. */
  const TOY_FULL := Host(map["/b/s" := "o"], Doc(Marshal(map["s" := Shim([1], "/b/s")])), 0)

  lemma ToyFullAgrees()
    ensures Get(TOY_FULL.lock) == Some(map["s" := Shim([1], "/b/s")]) && Agrees(TOY, TOY_FULL)
    ensures BinPath(TOY.binDir, "s") == "/b/s" && RuntimeName("s") == "s"
  {
    assert BinPath(TOY.binDir, "") == "/b/" && "/b/s"[3..] == "s";
    GetAfterWrite(map["s" := Shim([1], "/b/s")]);
  }

  lemma ToyAgrees()
    ensures Get(TOY_HOST.lock) == Some(map["s" := Shim([], "/b/s")])
    ensures BinPath(TOY.binDir, "s") == "/b/s" && RuntimeName("s") == "s"
    ensures Agrees(TOY, TOY_HOST)
  {
    assert BinPath(TOY.binDir, "") == "/b/" && "/b/s"[3..] == "s";
    var raw := map["s" := RawShim("", "/b/s")];
    assert DecodeHex("") == Some([]) && raw["s"].sha256 == "";
    assert Unmarshal(raw).value == map["s" := Shim([], "/b/s")];
  }

  /** Three ways to break the agreement, on one host: all bytes arrive and only the lock cannot be
      written, the copy fails between the binary and the hash, or the lock cannot be read once the
      binary is truncated. */
  lemma InstallCanDisagree()
    ensures Agrees(TOY, TOY_HOST)
    ensures !Agrees(TOY, InstallHost(TOY, TOY_HOST, "s", InstallIO(true, "n", true, true, false, 1, 1, false, Some(TOY_HOST.lock))).0)
    ensures !Agrees(TOY, InstallHost(TOY, TOY_HOST, "s", InstallIO(true, "n", true, true, false, 1, 0, true, None)).0)
    ensures Agrees(TOY, TOY_FULL)
    ensures !Agrees(TOY, InstallHost(TOY, TOY_FULL, "s", InstallIO(true, "o", true, true, true, 1, 1, false, None)).0)
  {
    ToyAgrees();
    ToyFullAgrees();
    var unwritten := InstallIO(true, "n", true, true, false, 1, 1, false, Some(TOY_HOST.lock));
    var torn := InstallIO(true, "n", true, true, false, 1, 0, true, None);
    assert "n"[..1] == "n" && "n"[..0] == "";
    hide Agrees, BinPath, RuntimeName, Get;
    FailedLockWrite(TOY, TOY_HOST, "s", unwritten);
    InstallAgreesIff(TOY, TOY_HOST, "s", torn);
    InstallAgreesIff(TOY, TOY_FULL, "s", InstallIO(true, "o", true, true, true, 1, 1, false, None));
  }

  lemma InstallKeepsAgreement(c: Setup, h: Host, file: string, io: InstallIO)
    requires ValidInstallIO(io) && Agrees(c, h) && !InstallHost(c, h, file, io).1.failed
    ensures Agrees(c, InstallHost(c, h, file, io).0)
  {
    InstallLock(c, h, file, io);
    var h' := InstallHost(c, h, file, io).0;
    InstallEstablishesOwnEntry(c, h, file, io);
    forall k | k in Get(h'.lock).value && k != RuntimeName(file)
      ensures EntryAgrees(c, h'.files, k, Get(h'.lock).value[k])
    {
      OtherEntryKept(c, h.files, file, io.content, k, Get(h.lock).value[k]);
    }
  }

  lemma UninstallKeepsAgreement(c: Setup, h: Host, name: string, io: UninstallIO)
    requires Agrees(c, h) && io.lockWrite.None?
    ensures Agrees(c, UninstallHost(c, h, name, io).0)
  {
    hide RuntimeName, BinPath;
    var shims := Get(h.lock).value;
    GetAfterWrite(shims - {name});
    if name in shims && !io.removeFailed {
      forall k | k in shims && k != name ensures EntryAgrees(c, h.files - {shims[name].path}, k, shims[k]) {
        assert EntryAgrees(c, h.files, k, shims[k]) && EntryAgrees(c, h.files, name, shims[name]);
      }
    }
  }

  /** Exactly when lock and disk still agree after an `Uninstall`, whatever it returned: when the
      binary was not removed, when the lock was written, or when the lock that a failed write left
      behind agrees with the disk and no longer knows the removed binary. */
  lemma UninstallAgreesIff(c: Setup, h: Host, name: string, io: UninstallIO)
    requires Agrees(c, h)
    ensures var shims := Get(h.lock).value;
            Agrees(c, UninstallHost(c, h, name, io).0)
            <==> || io.lockReadFailed || name !in shims || io.removeFailed || io.lockWrite.None?
                 || (Agrees(c, h.(lock := io.lockWrite.value))
                     && forall k :: k in Get(io.lockWrite.value).value ==> Get(io.lockWrite.value).value[k].path != shims[name].path)
  {
    hide RuntimeName, BinPath;
    var shims := Get(h.lock).value;
    if io.lockWrite.None? {
      UninstallKeepsAgreement(c, h, name, io);
    } else if !io.lockReadFailed && name in shims && !io.removeFailed {
      var left, path := io.lockWrite.value, shims[name].path;
      forall k, s: Shim ensures EntryAgrees(c, h.files - {path}, k, s) <==> EntryAgrees(c, h.files, k, s) && s.path != path {
      }
    }
  }

  /** So a failed write that leaves the old lock behind always breaks the agreement. */
  lemma UninstallCanDisagree(c: Setup, h: Host, name: string, io: UninstallIO)
    requires Agrees(c, h) && name in Get(h.lock).value && !io.lockReadFailed && !io.removeFailed && io.lockWrite == Some(h.lock)
    ensures !Agrees(c, UninstallHost(c, h, name, io).0)
  {
    UninstallAgreesIff(c, h, name, io);
  }

  lemma ConfigWriteKeepsAgreement(c: Setup, h: Host, text: string)
    requires Agrees(c, h) && ConfigOutsideBin(c)
    ensures Agrees(c, h.(files := h.files[c.configPath := text]))
  {
    var h' := h.(files := h.files[c.configPath := text]);
    forall k | k in Get(h'.lock).value ensures EntryAgrees(c, h'.files, k, Get(h'.lock).value[k]) {
      assert EntryAgrees(c, h.files, k, Get(h.lock).value[k]);
    }
  }

  lemma ConfigEditsKeepAgreement(c: Setup, h: Host, path: string, io: ConfigIO)
    requires Agrees(c, h) && ConfigOutsideBin(c)
    ensures Agrees(c, AddHost(c, h, path, io).0) && Agrees(c, RemoveHost(c, h, path, io).0)
  {
    if c.configPath in h.files {
      var text := h.files[c.configPath];
      ConfigWriteKeepsAgreement(c, h, AddText(text, path, c.options, io.order));
      ConfigWriteKeepsAgreement(c, h, RemoveText(text, path, c.options, io.order));
      if io.write.Some? {
        ConfigWriteKeepsAgreement(c, h, io.write.value);
      }
    }
  }

  /** Every asset of a successful run keeps the agreement. */
  lemma {:induction false} InstallAllKeepsAgreement(c: Setup, p: Progress, files: seq<string>, ios: seq<AssetIO>)
    requires |ios| == |files| && forall i :: 0 <= i < |ios| ==> ValidAssetIO(c, ios[i])
    requires Agrees(c, p.host) && ConfigOutsideBin(c) && !InstallAll(c, p, files, ios).failed
    ensures Agrees(c, InstallAll(c, p, files, ios).host)
    decreases |files|
  {
    if files != [] && !p.failed {
      AssetSucceeds(c, p, files, ios);
      InstallKeepsAgreement(c, p.host, files[0], ios[0].install);
      var (h, out) := InstallHost(c, p.host, files[0], ios[0].install);
      ConfigEditsKeepAgreement(c, h, out.path, ios[0].config);
      InstallAllKeepsAgreement(c, InstallAsset(c, p, files[0], ios[0]), files[1..], ios[1..]);
    }
  }

  /** A run that succeeds has not failed at its first asset. */
  lemma AssetSucceeds(c: Setup, p: Progress, files: seq<string>, ios: seq<AssetIO>)
    requires |ios| == |files| && forall i :: 0 <= i < |ios| ==> ValidAssetIO(c, ios[i])
    requires files != [] && !p.failed && !InstallAll(c, p, files, ios).failed
    ensures !InstallHost(c, p.host, files[0], ios[0].install).1.failed
    ensures !InstallAsset(c, p, files[0], ios[0]).failed
  {
  }

  /** A command line of the node installer, with the runtime options in its environment. */
  datatype Command =
    | InstallCmd(options: Options, files: seq<string>, io: RunIO)
    | UninstallCmd(options: Options, name: string, uio: UninstallIO, cio: ConfigIO, restartFailed: bool)

  /** The setup of one invocation. */
  function With(c: Setup, options: Options): Setup {
    c.(options := options)
  }

  ghost predicate ValidCommand(c: Setup, cmd: Command) {
    match cmd
    case InstallCmd(options, files, io) =>
      |io.assets| == |files| && forall i :: 0 <= i < |files| ==> ValidAssetIO(With(c, options), io.assets[i])
    case UninstallCmd(options, _, _, cio, _) => IsOrder(options, cio.order)
  }

  function RunCommand(c: Setup, h: Host, cmd: Command): (Host, bool)
    requires ValidCommand(c, cmd)
  {
    match cmd
    case InstallCmd(options, files, io) => RunInstallHost(With(c, options), h, files, io)
    case UninstallCmd(options, name, uio, cio, restartFailed) => RunUninstallHost(With(c, options), h, name, uio, cio, restartFailed)
  }

  /** Whether lock and disk agree does not depend on the options. */
  lemma AgreesWithOptions(c: Setup, options: Options, h: Host)
    ensures Agrees(With(c, options), h) <==> Agrees(c, h)
    ensures ConfigOutsideBin(With(c, options)) <==> ConfigOutsideBin(c)
  {
    assert forall k, s :: EntryAgrees(With(c, options), h.files, k, s) <==> EntryAgrees(c, h.files, k, s);
  }

  function RunCommands(c: Setup, h: Host, cmds: seq<Command>): (Host, bool)
    requires forall i :: 0 <= i < |cmds| ==> ValidCommand(c, cmds[i])
    decreases |cmds|
  {
    if cmds == [] then (h, false)
    else
      var (h', failed) := RunCommand(c, h, cmds[0]);
      if failed then (h', true) else RunCommands(c, h', cmds[1..])
  }

  lemma CommandKeepsAgreement(c: Setup, h: Host, cmd: Command)
    requires ValidCommand(c, cmd) && Agrees(c, h) && ConfigOutsideBin(c)
    requires !RunCommand(c, h, cmd).1
    ensures Agrees(c, RunCommand(c, h, cmd).0)
  {
    var d := With(c, cmd.options);
    AgreesWithOptions(c, cmd.options, h);
    AgreesWithOptions(c, cmd.options, RunCommand(c, h, cmd).0);
    match cmd {
      case InstallCmd(_, files, io) =>
        InstallAllKeepsAgreement(d, Progress(h, false, false), files, io.assets);
      case UninstallCmd(_, name, uio, cio, _) =>
        UninstallKeepsAgreement(d, h, name, uio);
        var (h1, path) := UninstallHost(d, h, name, uio);
        ConfigEditsKeepAgreement(d, h1, path.value, cio);
    }
  }

  /** In every state reached by successful commands, lock and disk agree. */
  lemma {:induction false} RunsKeepAgreement(c: Setup, h: Host, cmds: seq<Command>)
    requires forall i :: 0 <= i < |cmds| ==> ValidCommand(c, cmds[i])
    requires Agrees(c, h) && ConfigOutsideBin(c) && !RunCommands(c, h, cmds).1
    ensures Agrees(c, RunCommands(c, h, cmds).0)
    decreases |cmds|
  {
    if cmds != [] {
      CommandKeepsAgreement(c, h, cmds[0]);
      RunsKeepAgreement(c, RunCommand(c, h, cmds[0]).0, cmds[1..]);
    }
  }

  // ---------------------------------------------------------------- installing twice

  ghost predicate DistinctRuntimes(files: seq<string>) {
    forall i, j :: 0 <= i < j < |files| ==> RuntimeName(files[i]) != RuntimeName(files[j])
  }

  /** Nothing is left to do for this asset. */
  ghost predicate Settled(c: Setup, h: Host, file: string, content: string) {
    var dst := BinPath(c.binDir, file);
    && dst in h.files && h.files[dst] == content
    && Get(h.lock).Some? && RuntimeName(file) in Get(h.lock).value
    && Get(h.lock).value[RuntimeName(file)] == Shim(c.digest(content), dst)
    && c.configPath in h.files && Contains(h.files[c.configPath], RuntimeName(file))
  }

  /** A call whose I/O all succeeds and which finds `content` in the asset. */
  predicate Smooth(c: Setup, io: AssetIO, content: string) {
    && ValidAssetIO(c, io) && io.install.content == content
    && io.install.source && io.install.mkdir && io.install.created && !io.install.lockReadFailed && !io.install.copyFailed
    && io.install.lockWrite.None? && !io.config.readFailed && io.config.write.None?
  }

  /** What a successful round does to configuration, binaries and lock. */
  lemma AssetEffect(c: Setup, p: Progress, file: string, io: AssetIO)
    requires ValidAssetIO(c, io) && PlainName(file) && !InstallAsset(c, p, file, io).failed
    requires ConfigOutsideBin(c)
    ensures var q := InstallAsset(c, p, file, io);
            var dst, entry := BinPath(c.binDir, file), Shim(c.digest(io.install.content), BinPath(c.binDir, file));
            && Get(p.host.lock).Some? && c.configPath in p.host.files && dst != c.configPath
            && Get(q.host.lock) == Some(Get(p.host.lock).value[RuntimeName(file) := entry])
            && q.host.files == p.host.files[dst := io.install.content]
                 [c.configPath := AddText(p.host.files[c.configPath], dst, c.options, io.config.order)]
            && q.host.restarts == p.host.restarts
            && (q.changed <==> p.changed || Get(q.host.lock) != Get(p.host.lock))
            && (Get(q.host.lock) == Get(p.host.lock) ==> q.host.lock == p.host.lock)
  {
    InstallLock(c, p.host, file, io.install);
    BinPathFile(c.binDir, file);
    var (h, out) := InstallHost(c, p.host, file, io.install);
    assert h.files[c.configPath] == p.host.files[c.configPath];
    var text := h.files[c.configPath];
    assert Contains(text, NameOf(out.path)) ==> h.files == h.files[c.configPath := text];
  }

  lemma AssetSettles(c: Setup, p: Progress, file: string, io: AssetIO)
    requires ValidAssetIO(c, io) && PlainName(file) && !InstallAsset(c, p, file, io).failed
    requires ConfigOutsideBin(c)
    ensures Settled(c, InstallAsset(c, p, file, io).host, file, io.install.content)
  {
    AssetEffect(c, p, file, io);
    BaseOfBinPath(c.binDir, file);
    AddMentions(p.host.files[c.configPath], BinPath(c.binDir, file), c.options, io.config.order);
  }

  /** Later assets do not unsettle earlier ones. */
  lemma AssetKeepsSettled(c: Setup, p: Progress, file: string, io: AssetIO, other: string, content: string)
    requires ValidAssetIO(c, io) && PlainName(file) && !InstallAsset(c, p, file, io).failed
    requires ConfigOutsideBin(c) && RuntimeName(other) != RuntimeName(file)
    requires Settled(c, p.host, other, content)
    ensures Settled(c, InstallAsset(c, p, file, io).host, other, content)
  {
    AssetEffect(c, p, file, io);
    BinPathFile(c.binDir, other);
    BinPathFile(c.binDir, file);
    AddKeepsMention(p.host.files[c.configPath], BinPath(c.binDir, file), c.options, io.config.order, RuntimeName(other));
  }

  lemma AddKeepsMention(text: string, path: string, options: Options, order: seq<string>, word: string)
    requires Contains(text, word)
    ensures Contains(AddText(text, path, options, order), word)
  {
    ContainsAppend(text, Block(Domain(text), path, options, order), word);
  }

  /** A settled asset is left alone. */
  lemma SettledIsFixed(c: Setup, p: Progress, file: string, io: AssetIO, content: string)
    requires Smooth(c, io, content) && PlainName(file) && ConfigOutsideBin(c)
    requires Settled(c, p.host, file, content) && !p.failed
    ensures InstallAsset(c, p, file, io) == p
  {
    SettledInstall(c, p.host, file, io.install, content);
    BaseOfBinPath(c.binDir, file);
  }

  lemma SettledInstall(c: Setup, h: Host, file: string, io: InstallIO, content: string)
    requires ValidInstallIO(io) && io.content == content && io.source && io.mkdir && io.created && !io.lockReadFailed && !io.copyFailed
    requires Settled(c, h, file, content)
    ensures InstallHost(c, h, file, io) == (h, Installed(BinPath(c.binDir, file), false, false))
  {
    assert content[..|content|] == content;
    assert h.files[BinPath(c.binDir, file) := content] == h.files;
  }

  lemma {:induction false} RunKeepsSettled(c: Setup, p: Progress, files: seq<string>, ios: seq<AssetIO>, other: string, content: string)
    requires |ios| == |files| && forall i :: 0 <= i < |ios| ==> ValidAssetIO(c, ios[i])
    requires ConfigOutsideBin(c) && !InstallAll(c, p, files, ios).failed && !p.failed
    requires forall i :: 0 <= i < |files| ==> PlainName(files[i]) && RuntimeName(files[i]) != RuntimeName(other)
    requires Settled(c, p.host, other, content)
    ensures Settled(c, InstallAll(c, p, files, ios).host, other, content)
    decreases |files|
  {
    if files != [] {
      AssetSucceeds(c, p, files, ios);
      AssetKeepsSettled(c, p, files[0], ios[0], other, content);
      RunKeepsSettled(c, InstallAsset(c, p, files[0], ios[0]), files[1..], ios[1..], other, content);
    }
  }

  /** After a successful run every asset is settled. */
  lemma {:induction false} RunSettles(c: Setup, p: Progress, files: seq<string>, ios: seq<AssetIO>)
    requires |ios| == |files| && forall i :: 0 <= i < |ios| ==> ValidAssetIO(c, ios[i])
    requires ConfigOutsideBin(c) && !InstallAll(c, p, files, ios).failed && !p.failed
    requires DistinctRuntimes(files) && forall i :: 0 <= i < |files| ==> PlainName(files[i])
    ensures forall i :: 0 <= i < |files| ==>
              Settled(c, InstallAll(c, p, files, ios).host, files[i], ios[i].install.content)
    decreases |files|
  {
    if files != [] {
      AssetSucceeds(c, p, files, ios);
      var q := InstallAsset(c, p, files[0], ios[0]);
      AssetSettles(c, p, files[0], ios[0]);
      RunKeepsSettled(c, q, files[1..], ios[1..], files[0], ios[0].install.content);
      RunSettles(c, q, files[1..], ios[1..]);
      forall i | 1 <= i < |files|
        ensures Settled(c, InstallAll(c, p, files, ios).host, files[i], ios[i].install.content)
      {
        assert files[i] == files[1..][i - 1] && ios[i] == ios[1..][i - 1];
      }
    }
  }

  lemma {:induction false} SettledRunIsFixed(c: Setup, p: Progress, files: seq<string>, ios: seq<AssetIO>, contents: seq<string>)
    requires |ios| == |files| == |contents| && forall i :: 0 <= i < |ios| ==> ValidAssetIO(c, ios[i])
    requires forall i :: 0 <= i < |ios| ==> Smooth(c, ios[i], contents[i])
    requires ConfigOutsideBin(c) && !p.failed
    requires forall i :: 0 <= i < |files| ==> PlainName(files[i]) && Settled(c, p.host, files[i], contents[i])
    ensures InstallAll(c, p, files, ios) == p
    decreases |files|
  {
    hide InstallAsset, Settled, Smooth;
    if files != [] {
      SettledIsFixed(c, p, files[0], ios[0], contents[0]);
      SettledRunIsFixed(c, p, files[1..], ios[1..], contents[1..]);
    }
  }

  /** `RunInstall` is idempotent: after a successful run, whatever its I/O answered on the way, a
      second run over the same assets changes nothing and does not restart containerd. That includes a
      run with other runtime options: they are never written. */
  lemma InstallTwice(c: Setup, h: Host, files: seq<string>, io1: RunIO, later: Options, io2: RunIO)
    requires |io1.assets| == |files| == |io2.assets| && io2.listed
    requires forall i :: 0 <= i < |files| ==> ValidAssetIO(c, io1.assets[i]) && ValidAssetIO(With(c, later), io2.assets[i])
    requires forall i :: 0 <= i < |files| ==> Smooth(With(c, later), io2.assets[i], io1.assets[i].install.content)
    requires ConfigOutsideBin(c) && DistinctRuntimes(files) && forall i :: 0 <= i < |files| ==> PlainName(files[i])
    requires !RunInstallHost(c, h, files, io1).1
    ensures var h1 := RunInstallHost(c, h, files, io1).0;
            RunInstallHost(With(c, later), h1, files, io2) == (h1, false)
  {
    var start := Progress(h, false, false);
    var h1 := RunInstallHost(c, h, files, io1).0;
    RunSettles(c, start, files, io1.assets);
    var contents := seq(|files|, i requires 0 <= i < |files| => io1.assets[i].install.content);
    forall i | 0 <= i < |files| ensures Settled(With(c, later), h1, files[i], contents[i]) {
      assert Settled(c, InstallAll(c, start, files, io1.assets).host, files[i], io1.assets[i].install.content);
    }
    SettledRunIsFixed(With(c, later), Progress(h1, false, false), files, io2.assets, contents);
  }

  // ---------------------------------------------------------------- two assets of one runtime

  /** The path that the lock records for a runtime. */
  function RecordedPath(h: Host, name: string): Option<string> {
    if Get(h.lock).Some? && name in Get(h.lock).value then Some(Get(h.lock).value[name].path) else None
  }

  lemma AssetRecords(c: Setup, p: Progress, file: string, io: AssetIO, name: string)
    requires ValidAssetIO(c, io) && PlainName(file) && ConfigOutsideBin(c) && !InstallAsset(c, p, file, io).failed
    ensures var q := InstallAsset(c, p, file, io);
            && RecordedPath(q.host, name) == (if name == RuntimeName(file) then Some(BinPath(c.binDir, file)) else RecordedPath(p.host, name))
            && (q.changed <== p.changed || RecordedPath(p.host, RuntimeName(file)) != Some(BinPath(c.binDir, file)))
            && q.host.restarts == p.host.restarts
  {
    AssetEffect(c, p, file, io);
    hide InstallAsset, AddText, BinPath, RuntimeName;
  }

  /** The last asset of a runtime is the one on record after a run. */
  lemma {:induction false} LastAssetRecorded(c: Setup, p: Progress, files: seq<string>, ios: seq<AssetIO>, name: string)
    requires |ios| == |files| && forall i :: 0 <= i < |ios| ==> ValidAssetIO(c, ios[i])
    requires ConfigOutsideBin(c) && !InstallAll(c, p, files, ios).failed && !p.failed
    requires forall i :: 0 <= i < |files| ==> PlainName(files[i])
    ensures var q := InstallAll(c, p, files, ios);
            && (forall i :: 0 <= i < |files| && RuntimeName(files[i]) == name && (forall j :: i < j < |files| ==> RuntimeName(files[j]) != name) ==>
                  RecordedPath(q.host, name) == Some(BinPath(c.binDir, files[i])))
            && ((forall i :: 0 <= i < |files| ==> RuntimeName(files[i]) != name) ==> RecordedPath(q.host, name) == RecordedPath(p.host, name))
            && (p.changed ==> q.changed) && q.host.restarts == p.host.restarts
    decreases |files|
  {
    hide InstallAsset, RuntimeName, BinPath, RecordedPath, ValidAssetIO;
    if files != [] {
      AssetSucceeds(c, p, files, ios);
      AssetRecords(c, p, files[0], ios[0], name);
      var rest := files[1..];
      LastAssetRecorded(c, InstallAsset(c, p, files[0], ios[0]), rest, ios[1..], name);
      assert forall i :: 0 <= i < |rest| ==> rest[i] == files[i + 1];
      assert forall i :: 0 < i < |files| ==> files[i] == rest[i - 1];
    }
  }

  /** A run changes the lock at an asset whose runtime is on record for another path. */
  lemma {:induction false} ChangedAt(c: Setup, p: Progress, files: seq<string>, ios: seq<AssetIO>, i: nat)
    requires |ios| == |files| && forall k :: 0 <= k < |ios| ==> ValidAssetIO(c, ios[k])
    requires ConfigOutsideBin(c) && !InstallAll(c, p, files, ios).failed && !p.failed && i < |files|
    requires forall k :: 0 <= k < |files| ==> PlainName(files[k])
    requires forall k :: 0 <= k < i ==> RuntimeName(files[k]) != RuntimeName(files[i])
    requires RecordedPath(p.host, RuntimeName(files[i])) != Some(BinPath(c.binDir, files[i]))
    ensures InstallAll(c, p, files, ios).changed
    decreases |files|
  {
    hide InstallAsset, RuntimeName, BinPath, RecordedPath, ValidAssetIO;
    AssetSucceeds(c, p, files, ios);
    AssetRecords(c, p, files[0], ios[0], RuntimeName(files[i]));
    var q := InstallAsset(c, p, files[0], ios[0]);
    if i == 0 {
      LastAssetRecorded(c, q, files[1..], ios[1..], RuntimeName(files[0]));
    } else {
      ChangedAt(c, q, files[1..], ios[1..], i - 1);
    }
  }

  /** First and last asset of a runtime that has two. */
  lemma {:induction false} FirstAndLast(files: seq<string>, i: nat, j: nat) returns (first: nat, last: nat)
    requires i < j < |files| && RuntimeName(files[i]) == RuntimeName(files[j])
    ensures first < last < |files| && RuntimeName(files[first]) == RuntimeName(files[last])
    ensures forall k :: 0 <= k < first ==> RuntimeName(files[k]) != RuntimeName(files[first])
    ensures forall k :: last < k < |files| ==> RuntimeName(files[k]) != RuntimeName(files[last])
    decreases i + |files| - j
  {
    hide RuntimeName;
    if k :| 0 <= k < i && RuntimeName(files[k]) == RuntimeName(files[i]) {
      first, last := FirstAndLast(files, k, j);
    } else if k :| j < k < |files| && RuntimeName(files[k]) == RuntimeName(files[j]) {
      first, last := FirstAndLast(files, i, k);
    } else {
      first, last := i, j;
    }
  }

  /** Exactly when `RunInstall` is idempotent: over different assets whose I/O works, the second run
      changes nothing and does not restart if and only if no two assets have one runtime. With two,
      every run rewrites the lock and restarts. */
  lemma InstallTwiceIff(c: Setup, h: Host, files: seq<string>, io1: RunIO, later: Options, io2: RunIO)
    requires |io1.assets| == |files| == |io2.assets| && io1.listed && io2.listed
    requires forall i :: 0 <= i < |files| ==> ValidAssetIO(c, io1.assets[i]) && ValidAssetIO(With(c, later), io2.assets[i])
    requires forall i :: 0 <= i < |files| ==> Smooth(With(c, later), io2.assets[i], io1.assets[i].install.content)
    requires ConfigOutsideBin(c) && forall i :: 0 <= i < |files| ==> PlainName(files[i])
    requires forall i, j :: 0 <= i < j < |files| ==> files[i] != files[j]
    requires !RunInstallHost(c, h, files, io1).1
    ensures var h1 := RunInstallHost(c, h, files, io1).0;
            RunInstallHost(With(c, later), h1, files, io2) == (h1, false) <==> DistinctRuntimes(files)
  {
    var h1 := RunInstallHost(c, h, files, io1).0;
    if DistinctRuntimes(files) {
      InstallTwice(c, h, files, io1, later, io2);
    } else if RunInstallHost(With(c, later), h1, files, io2) == (h1, false) {
      var i, j :| 0 <= i < j < |files| && RuntimeName(files[i]) == RuntimeName(files[j]);
      var first, last := FirstAndLast(files, i, j);
      var name, d, p := RuntimeName(files[first]), With(c, later), Progress(h1, false, false);
      LastAssetRecorded(c, Progress(h, false, false), files, io1.assets, name);
      assert RecordedPath(h1, name) == Some(BinPath(c.binDir, files[last]));
      BinPathFile(c.binDir, files[first]);
      BinPathFile(c.binDir, files[last]);
      hide InstallAll, RuntimeName, RecordedPath, BinPath, ConfigOutsideBin;
      assert ConfigOutsideBin(d);
      ChangedAt(d, p, files, io2.assets, first);
      LastAssetRecorded(d, p, files, io2.assets, name);
    }
  }

  // ---------------------------------------------------------------- when containerd is restarted

  /** The lock map changes only at the runtimes of the run, and the run reports a change exactly
      if the map is different afterwards. */
  lemma {:induction false} RunChanged(c: Setup, p: Progress, files: seq<string>, ios: seq<AssetIO>)
    requires |ios| == |files| && forall i :: 0 <= i < |ios| ==> ValidAssetIO(c, ios[i])
    requires ConfigOutsideBin(c) && !InstallAll(c, p, files, ios).failed && !p.failed
    requires DistinctRuntimes(files) && forall i :: 0 <= i < |files| ==> PlainName(files[i])
    requires Get(p.host.lock).Some?
    ensures var q := InstallAll(c, p, files, ios);
            && Get(q.host.lock).Some?
            && (forall k :: (forall i :: 0 <= i < |files| ==> RuntimeName(files[i]) != k) ==>
                  SameAt(Get(p.host.lock).value, Get(q.host.lock).value, k))
            && (q.changed <==> p.changed || Get(q.host.lock) != Get(p.host.lock))
            && q.host.restarts == p.host.restarts
    decreases |files|
  {
    if files != [] {
      AssetSucceeds(c, p, files, ios);
      AssetEffect(c, p, files[0], ios[0]);
      hide InstallAsset, RuntimeName, BinPath, AddText;
      var mid := InstallAsset(c, p, files[0], ios[0]);
      var rest := files[1..];
      RunChanged(c, mid, rest, ios[1..]);
      var q := InstallAll(c, p, files, ios);
      var a, b, d := Get(p.host.lock).value, Get(mid.host.lock).value, Get(q.host.lock).value;
      assert forall i :: 0 <= i < |rest| ==> rest[i] == files[i + 1];
      assert SameAt(b, d, RuntimeName(files[0]));
      ChangesCompose(a, b, d, RuntimeName(files[0]), b[RuntimeName(files[0])]);
      forall k | forall i :: 0 <= i < |files| ==> RuntimeName(files[i]) != k
        ensures SameAt(a, d, k)
      {
        assert SameAt(b, d, k);
      }
    }
  }

  /** A first change at `name` that the rest keeps is still visible at the end. */
  lemma ChangesCompose(a: Shims, b: Shims, d: Shims, name: string, entry: Shim)
    requires b == a[name := entry] && SameAt(b, d, name)
    ensures a != d <==> a != b || b != d
    ensures forall k :: k != name ==> SameAt(a, b, k)
  {
    assert name in a && a[name] == entry ==> a == b;
  }

  ghost predicate SameAt(a: Shims, b: Shims, k: string) {
    (k in a <==> k in b) && (k in a ==> a[k] == b[k])
  }

  /** A successful `RunInstall` restarts containerd once if the lock map has changed, and not at all
      otherwise; whether the configuration text changed plays no part. */
  lemma RestartsIffLockChanged(c: Setup, h: Host, files: seq<string>, io: RunIO)
    requires |io.assets| == |files| && forall i :: 0 <= i < |files| ==> ValidAssetIO(c, io.assets[i])
    requires ConfigOutsideBin(c) && DistinctRuntimes(files) && forall i :: 0 <= i < |files| ==> PlainName(files[i])
    requires Get(h.lock).Some? && !RunInstallHost(c, h, files, io).1
    ensures var h' := RunInstallHost(c, h, files, io).0;
            h'.restarts == h.restarts + if Get(h'.lock) != Get(h.lock) then 1 else 0
  {
    RunChanged(c, Progress(h, false, false), files, io.assets);
  }

  /** Exactly when an asset's round succeeds: every call it needs is served, where a lock entry that is
      up to date needs no write and a mentioned runtime no edit. */
  lemma AssetSucceedsIff(c: Setup, p: Progress, file: string, io: AssetIO)
    requires ValidAssetIO(c, io) && PlainName(file) && ConfigOutsideBin(c)
    ensures var h, i, e := p.host, io.install, io.config;
            !InstallAsset(c, p, file, io).failed
            <==> && Touches(i) && !i.lockReadFailed && Get(h.lock).Some? && !i.copyFailed
                 && (NeedsEntry(c, h, file, i) ==> i.lockWrite.None?)
                 && c.configPath in h.files && !e.readFailed
                 && (Contains(h.files[c.configPath], RuntimeName(file)) || e.write.None?)
  {
    BaseOfBinPath(c.binDir, file);
    BinPathFile(c.binDir, file);
    hide NameOf, RuntimeName, AddText;
  }

  /** Exactly when `RunUninstall` succeeds, and that it restarts containerd exactly if the configuration
      mentions the runtime and could be written. */
  lemma UninstallSucceedsIff(c: Setup, h: Host, name: string, uio: UninstallIO, cio: ConfigIO, restartFailed: bool)
    ensures var known := !uio.lockReadFailed && Get(h.lock).Some? && name in Get(h.lock).value;
            var (h', failed) := RunUninstallHost(c, h, name, uio, cio, restartFailed);
            && (!known || uio.removeFailed || uio.lockWrite.Some? ==> failed && h'.restarts == h.restarts)
            && (known && !uio.removeFailed && uio.lockWrite.None? ==>
                  var path := Get(h.lock).value[name].path;
                  var left := h.files - {path};
                  var readable := c.configPath in left && !cio.readFailed;
                  var edits := readable && Contains(left[c.configPath], NameOf(path));
                  && (!failed <==> readable && (edits ==> cio.write.None? && !restartFailed))
                  && h'.restarts == h.restarts + if edits && cio.write.None? then 1 else 0)
  {
    hide NameOf, RemoveText;
  }

  /** Exactly when `RunInstall` reports success, and that containerd is restarted at most once, only
      after every asset is in place. */
  lemma RunInstallSucceedsIff(c: Setup, h: Host, files: seq<string>, io: RunIO)
    requires |io.assets| == |files| && forall i :: 0 <= i < |files| ==> ValidAssetIO(c, io.assets[i])
    ensures var p := InstallAll(c, Progress(h, false, false), files, io.assets);
            var (h', failed) := RunInstallHost(c, h, files, io);
            && (!failed <==> io.listed && !p.failed && (p.changed ==> !io.dbusFailed && !io.restartFailed))
            && (!io.listed ==> h' == h) && (io.listed ==> h'.files == p.host.files && h'.lock == p.host.lock)
            && (h'.restarts > (if io.listed then p.host.restarts else h.restarts) ==> io.listed && !p.failed && p.changed && !io.dbusFailed)
  {
    hide InstallAll;
  }

  /** Exactly when the removal's report is true, whatever its I/O answers: when there was nothing to
      read or no mention of the runtime; when a failed write left the text as it was; or when the
      text has the very block that is generated now. */
  lemma RemoveReportIff(c: Setup, h: Host, path: string, io: ConfigIO)
    ensures var (h', changed, _) := RemoveHost(c, h, path, io);
            (changed <==> h' != h)
            <==> || c.configPath !in h.files || io.readFailed || !Contains(h.files[c.configPath], NameOf(path))
                 || (if io.write.Some? then io.write.value == h.files[c.configPath]
                     else Contains(h.files[c.configPath], Block(Domain(h.files[c.configPath]), path, c.options, io.order)))
  {
    hide Block, NameOf;
    if c.configPath in h.files {
      var text := h.files[c.configPath];
      var block := Block(Domain(text), path, c.options, io.order);
      BlockShape(Domain(text), path, c.options, io.order);
      RemoveAllIff(text, block);
      SameFiles(h.files, c.configPath, RemoveAll(text, block));
      if io.write.Some? {
        SameFiles(h.files, c.configPath, io.write.value);
      }
    }
  }

  lemma SameFiles(files: map<string, string>, path: string, text: string)
    requires path in files
    ensures files[path := text] == files <==> text == files[path]
  {
    assert files[path := text][path] == text;
  }

  /** The removal's report is blind: when it generates a block that does not match the one written
      earlier, for other options or another order, it reports a change, and containerd is restarted,
      although the host's files are exactly as before. */
  lemma RemoveReportsBlindly(c: Setup, h: Host, text: string, path: string, earlier: Options, added: seq<string>, io: ConfigIO)
    requires c.configPath in h.files && h.files[c.configPath] == AddText(text, path, earlier, added)
    requires IsOrder(earlier, added) && IsOrder(c.options, io.order) && !io.readFailed && io.write.None?
    requires NewlineFree(NameOf(path)) && !Contains(text, NameOf(path))
    requires Contains(text, VERSION_3) || !Contains(Block(Domain(text), path, earlier, added), VERSION_3)
    requires Traceable(Block(Domain(text), path, earlier, added), NameOf(path), earlier, c.options)
    requires !(Block(Domain(text), path, c.options, io.order) <= Block(Domain(text), path, earlier, added))
    ensures RemoveHost(c, h, path, io) == (h, true, false)
  {
    hide Block, NameOf, RemoveText, SoleComment;
    AddMentions(text, path, earlier, added);
    RemoveAfterAdd(text, path, earlier, added, c.options, io.order);
    assert h.files[c.configPath := h.files[c.configPath]] == h.files;
  }

  // ---------------------------------------------------------------- the first install on a host

  /** From a host that has never seen the installer, without a lock file: a served `RunInstall` of one
      asset succeeds, puts the binary in place, makes the lock exactly its one entry, mentions the
      runtime in the configuration, restarts containerd once, and leaves lock and disk in agreement. */
  lemma FirstInstall(c: Setup, h: Host, file: string, io: RunIO)
    requires PlainName(file) && ConfigOutsideBin(c) && h.lock == Missing && c.configPath in h.files
    requires io.listed && !io.dbusFailed && !io.restartFailed
    requires |io.assets| == 1 && Smooth(c, io.assets[0], io.assets[0].install.content)
    ensures ValidAssetIO(c, io.assets[0])
    ensures var dst, content := c.binDir + "/" + file, io.assets[0].install.content;
            var (h', failed) := RunInstallHost(c, h, [file], io);
            && !failed && h'.restarts == h.restarts + 1
            && Get(h'.lock) == Some(map[RuntimeName(file) := Shim(c.digest(content), dst)])
            && dst in h'.files && h'.files[dst] == content && Agrees(c, h')
            && c.configPath in h'.files && Contains(h'.files[c.configPath], RuntimeName(file))
            && (forall p :: p in h.files && p != dst && p != c.configPath ==> p in h'.files && h'.files[p] == h.files[p])
  {
    var p := Progress(h, false, false);
    GetReads(h.lock);
    SmoothSucceeds(c, p, file, io.assets[0]);
    AssetEffect(c, p, file, io.assets[0]);
    AssetSettles(c, p, file, io.assets[0]);
    assert Agrees(c, h);
    InstallAllOne(c, p, file, io.assets[0]);
    assert io.assets == [io.assets[0]];
    CommandKeepsAgreement(c, h, InstallCmd(c.options, [file], io));
    assert With(c, c.options) == c;
    assert BinPath(c.binDir, file) == c.binDir + "/" + file;
    hide InstallAsset, InstallAll, AddText, Agrees, RuntimeName, Get;
  }

  // ---------------------------------------------------------------- uninstalling undoes installing

  /** `h` knows nothing of the shim `name`. */
  ghost predicate Fresh(c: Setup, h: Host, name: string) {
    && Get(h.lock).Some? && name !in Get(h.lock).value
    && BinPath(c.binDir, BINARY_PREFIX + name) !in h.files
    && c.configPath in h.files && !Contains(h.files[c.configPath], name)
  }

  /** Installing the one asset of a fresh shim. */
  lemma InstallFresh(c: Setup, h: Host, name: string, io: RunIO)
    requires '/' !in name && ConfigOutsideBin(c) && Fresh(c, h, name)
    requires io.listed && !io.dbusFailed && |io.assets| == 1 && Smooth(c, io.assets[0], io.assets[0].install.content)
    ensures ValidAssetIO(c, io.assets[0])
    ensures var file := BINARY_PREFIX + name;
            var dst, content := BinPath(c.binDir, file), io.assets[0].install.content;
            var h' := RunInstallHost(c, h, [file], io).0;
            && Get(h'.lock) == Some(Get(h.lock).value[name := Shim(c.digest(content), dst)])
            && h'.restarts == h.restarts + 1
            && h'.files == h.files[dst := content]
                 [c.configPath := AddText(h.files[c.configPath], dst, c.options, io.assets[0].config.order)]
  {
    hide InstallAsset, InstallAll, AddText;
    var file, p := BINARY_PREFIX + name, Progress(h, false, false);
    RuntimeNameOfAsset(name);
    InstallAllOne(c, p, file, io.assets[0]);
    assert io.assets == [io.assets[0]];
    BaseOfBinPath(c.binDir, file);
    SmoothSucceeds(c, p, file, io.assets[0]);
    AssetEffect(c, p, file, io.assets[0]);
  }

  lemma SmoothSucceeds(c: Setup, p: Progress, file: string, io: AssetIO)
    requires Smooth(c, io, io.install.content) && ConfigOutsideBin(c)
    requires Get(p.host.lock).Some? && c.configPath in p.host.files
    ensures !InstallAsset(c, p, file, io).failed
  {
  }

  /** Uninstalling a recorded shim whose runtime the configuration mentions. */
  lemma UninstallRecorded(c: Setup, h: Host, name: string, dst: string, uio: UninstallIO, cio: ConfigIO, restartFailed: bool)
    requires !uio.lockReadFailed && !uio.removeFailed && uio.lockWrite.None? && !cio.readFailed && cio.write.None?
    requires Get(h.lock).Some? && name in Get(h.lock).value && Get(h.lock).value[name].path == dst
    requires c.configPath in h.files && c.configPath != dst && Contains(h.files[c.configPath], NameOf(dst))
    ensures var (h', failed) := RunUninstallHost(c, h, name, uio, cio, restartFailed);
            && failed == restartFailed
            && Get(h'.lock) == Some(Get(h.lock).value - {name})
            && h'.restarts == h.restarts + 1
            && h'.files == (h.files - {dst})[c.configPath := RemoveText(h.files[c.configPath], dst, c.options, cio.order)]
  {
    GetAfterWrite(Get(h.lock).value - {name});
  }

  /** Uninstalling a shim from a host that differs from `h` only by that shim's installation. */
  lemma UninstallFrom(c: Setup, h: Host, h1: Host, name: string, dst: string, content: string, mid: string, uio: UninstallIO, cio: ConfigIO)
    requires !uio.lockReadFailed && !uio.removeFailed && uio.lockWrite.None? && !cio.readFailed && cio.write.None?
    requires Get(h.lock).Some? && name !in Get(h.lock).value
    requires dst !in h.files && c.configPath in h.files
    requires Get(h1.lock) == Some(Get(h.lock).value[name := Shim(c.digest(content), dst)])
    requires h1.files == h.files[dst := content][c.configPath := mid] && h1.restarts == h.restarts + 1
    requires Contains(mid, NameOf(dst))
    ensures var (h2, failed) := RunUninstallHost(c, h1, name, uio, cio, false);
            var last := RemoveText(mid, dst, c.options, cio.order);
            && !failed && Get(h2.lock) == Get(h.lock) && h2.restarts == h.restarts + 2
            && dst !in h2.files && h2.files - {c.configPath} == h.files - {c.configPath}
            && c.configPath in h2.files && h2.files[c.configPath] == last
            && (h2.files == h.files <==> last == h.files[c.configPath])
  {
    UninstallRecorded(c, h1, name, dst, uio, cio, false);
    FilesRestored(h.files, dst, c.configPath, content, mid, RemoveText(mid, dst, c.options, cio.order));
    LockRestored(Get(h.lock).value, name, Shim(c.digest(content), dst));
  }

  /** Installing the one asset of shim `name` and uninstalling it by name, with the options `later`. */
  function InstallUninstall(c: Setup, h: Host, name: string, io: RunIO, later: Options, uio: UninstallIO, cio: ConfigIO): (Host, bool)
    requires |io.assets| == 1 && ValidAssetIO(c, io.assets[0])
  {
    RunUninstallHost(With(c, later), RunInstallHost(c, h, [BINARY_PREFIX + name], io).0, name, uio, cio, false)
  }

  /** All calls of the two commands are served. */
  predicate BothSmooth(c: Setup, io: RunIO, uio: UninstallIO, cio: ConfigIO) {
    && io.listed && !io.dbusFailed && |io.assets| == 1 && Smooth(c, io.assets[0], io.assets[0].install.content)
    && !uio.lockReadFailed && !uio.removeFailed && uio.lockWrite.None? && !cio.readFailed && cio.write.None?
  }

  /** The block that installing shim `name` writes. */
  function NewBlock(c: Setup, text: string, name: string, order: seq<string>): string {
    Block(Domain(text), BinPath(c.binDir, BINARY_PREFIX + name), c.options, order)
  }

  /** End to end: for a fresh shim, installing its asset and uninstalling it by name leaves no
      binary, restores the lock map, keeps every other file and restarts containerd once in each
      run, whatever options the two commands are given. The configuration, and with it the whole file
      system, is restored byte for byte exactly when the block does not switch the plugin domain and
      both runs generated the same block. */
  lemma InstallThenUninstall(c: Setup, h: Host, name: string, io: RunIO, later: Options, uio: UninstallIO, cio: ConfigIO)
    requires '/' !in name && NewlineFree(name) && ConfigOutsideBin(c) && Fresh(c, h, name)
    requires BothSmooth(c, io, uio, cio) && IsOrder(later, cio.order)
    ensures var dst, text, added := BinPath(c.binDir, BINARY_PREFIX + name), h.files[c.configPath], io.assets[0].config.order;
            var block := NewBlock(c, text, name, added);
            var (h2, failed) := InstallUninstall(c, h, name, io, later, uio, cio);
            && !failed && Get(h2.lock) == Get(h.lock) && h2.restarts == h.restarts + 2
            && dst !in h2.files && h2.files - {c.configPath} == h.files - {c.configPath} && c.configPath in h2.files
            && h2.files[c.configPath] == RemoveText(AddText(text, dst, c.options, added), dst, later, cio.order)
            && (Traceable(block, name, c.options, later) ==>
                  (h2.files == h.files
                   <==> (Contains(text, VERSION_3) || !Contains(block, VERSION_3))
                        && block == Block(Domain(text), dst, later, cio.order)))
  {
    hide RunInstallHost, RunUninstallHost, Block, AddText, RemoveText, NameOf, BinPath, Traceable;
    var file := BINARY_PREFIX + name;
    var dst, text, added := BinPath(c.binDir, file), h.files[c.configPath], io.assets[0].config.order;
    FreshNames(c, name);
    InstallFresh(c, h, name, io);
    AddMentions(text, dst, c.options, added);
    UninstallFrom(With(c, later), h, RunInstallHost(c, h, [file], io).0, name, dst, io.assets[0].install.content,
                  AddText(text, dst, c.options, added), uio, cio);
    AddRemoveRoundTrip(text, dst, c.options, added, later, cio.order);
  }

  /** Uninstalling after the options were given up: both commands succeed and the lock is as before,
      but the configuration keeps the options of the shim, and no later add of it writes anything. */
  lemma DroppedOptionsOutliveShim(c: Setup, h: Host, name: string, io: RunIO, uio: UninstallIO, cio: ConfigIO, again: Options, order: seq<string>)
    requires '/' !in name && NewlineFree(name) && ConfigOutsideBin(c) && Fresh(c, h, name)
    requires BothSmooth(c, io, uio, cio) && cio.order == [] && |c.options| > 0
    requires SoleComment(NewBlock(c, h.files[c.configPath], name, io.assets[0].config.order), name)
    requires Contains(h.files[c.configPath], VERSION_3)
             || !Contains(NewBlock(c, h.files[c.configPath], name, io.assets[0].config.order), VERSION_3)
    ensures var dst, text, added := BinPath(c.binDir, BINARY_PREFIX + name), h.files[c.configPath], io.assets[0].config.order;
            var (h2, failed) := InstallUninstall(c, h, name, io, map[], uio, cio);
            && !failed && Get(h2.lock) == Get(h.lock) && c.configPath in h2.files
            && h2.files[c.configPath] == text + OptionPart(Domain(text), dst, c.options, added)
            && h2.files[c.configPath] != text
            && AddText(h2.files[c.configPath], dst, again, order) == h2.files[c.configPath]
  {
    var dst, text := BinPath(c.binDir, BINARY_PREFIX + name), h.files[c.configPath];
    assert IsOrder(map[], cio.order);
    FreshNames(c, name);
    hide InstallUninstall, Block, AddText, RemoveText, NameOf, BinPath, SoleComment, OptionPart;
    InstallThenUninstall(c, h, name, io, map[], uio, cio);
    DroppedOptionsStay(text, dst, c.options, io.assets[0].config.order, again, order);
  }

  lemma FreshNames(c: Setup, name: string)
    requires '/' !in name
    ensures NameOf(BinPath(c.binDir, BINARY_PREFIX + name)) == name
  {
    RuntimeNameOfAsset(name);
    BaseOfBinPath(c.binDir, BINARY_PREFIX + name);
  }

  lemma LockRestored(shims: Shims, name: string, entry: Shim)
    requires name !in shims
    ensures shims[name := entry] - {name} == shims
  {
  }

  lemma FilesRestored(files: map<string, string>, dst: string, config: string, content: string, mid: string, last: string)
    requires dst !in files && config in files
    ensures var after := (files[dst := content][config := mid] - {dst})[config := last];
            && after - {config} == files - {config} && dst !in after
            && (after == files <==> last == files[config])
  {
    var after := (files[dst := content][config := mid] - {dst})[config := last];
    assert after == files[config := last];
    assert after[config] == last;
  }
}
