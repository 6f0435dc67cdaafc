/** Lock, disk and configuration move in step: in every state that successful commands reach, the
    shims in the lock, the binaries on disk and the runtime blocks in the configuration are the
    same ones. */
module HostSync {
  import opened Wrappers
  import opened Strings
  import opened ShimNames
  import opened ContainerdConfig
  import opened ConfigRuns
  import opened LockState
  import opened Host
  import opened HostRuns

  /** Where the binary of shim `n` lives. */
  function PathOf(c: Setup, n: string): string {
    BinPath(c.binDir, BINARY_PREFIX + n)
  }

  /** What one command writes or looks for in the configuration for shim `n`. */
  function EntryOf(c: Setup, n: string, options: Options, order: seq<string>): Entry {
    Entry(PathOf(c, n), options, order)
  }

  /** Shims that keep their options, at most one each, and whose runtimes can be told apart in the
      configuration. Different shims may have different options. */
  ghost predicate SeparateShims(c: Setup, base: string, own: map<string, Options>) {
    && ConfigOutsideBin(c) && (forall n :: n in own ==> '/' !in n && |own[n]| <= 1)
    && Separate(base, Entries(c, own))
  }

  /** The one entry that can be written for a shim with its own options. */
  ghost function TheEntry(c: Setup, own: map<string, Options>, n: string): Entry
    requires n in own
  {
    EntryOf(c, n, own[n], SomeOrder(own[n]))
  }

  ghost function Entries(c: Setup, own: map<string, Options>): set<Entry> {
    set n | n in own :: TheEntry(c, own, n)
  }

  lemma OnlyEntry(c: Setup, own: map<string, Options>, n: string, order: seq<string>)
    requires n in own && |own[n]| <= 1 && IsOrder(own[n], order)
    ensures EntryOf(c, n, own[n], order) == TheEntry(c, own, n)
    ensures TheEntry(c, own, n) in Entries(c, own) && Known(Entries(c, own), PathOf(c, n))
  {
    OneOrder(own[n], order, SomeOrder(own[n]));
    assert TheEntry(c, own, n).path == PathOf(c, n);
  }

  /** The lock knows exactly the live runtimes, each by its own path, and the configuration is the
      base followed by their blocks. */
  ghost predicate InStep(c: Setup, h: Host, base: string, own: map<string, Options>, live: seq<Entry>) {
    && Get(h.lock).Some? && c.configPath in h.files
    && ValidList(Entries(c, own), live)
    && h.files[c.configPath] == Render(base, live)
    && (forall n :: n in Get(h.lock).value ==> n in own && Get(h.lock).value[n].path == PathOf(c, n))
    && (forall n :: n in own ==> (n in Get(h.lock).value <==> Live(live, PathOf(c, n))))
  }

  lemma PathsDiffer(c: Setup, m: string, n: string)
    requires m != n
    ensures PathOf(c, m) != PathOf(c, n)
  {
    var k := |c.binDir| + 1 + |BINARY_PREFIX|;
    assert PathOf(c, m)[k..] == m && PathOf(c, n)[k..] == n;
  }

  /** The live entry of a shim is the one that its next command generates. */
  lemma LiveEntry(c: Setup, base: string, own: map<string, Options>, live: seq<Entry>, n: string, e: Edit)
    requires ValidList(Entries(c, own), live) && n in own && e.entry == TheEntry(c, own, n)
    ensures Faithful(Domain(base), live, e) && Clean(base, live, e)
  {
    hide SoleComment, Block;
    var j := Find(live, e.entry.path);
    if j < |live| {
      LiveIs(c, own, live, j, n);
    }
  }

  /** How one edit moves the live list, in terms of shim names. */
  lemma EditByName(c: Setup, base: string, own: map<string, Options>, live: seq<Entry>, n: string, e: Edit)
    requires SeparateShims(c, base, own) && n in own && ValidList(Entries(c, own), live)
    requires e.entry.path == PathOf(c, n) && e.entry.options == own[n] && IsOrder(own[n], e.entry.order)
    ensures var live' := EditList(live, Domain(base), e);
            && ValidList(Entries(c, own), live')
            && EditText(Render(base, live), e) == Render(base, live')
            && (forall m :: m in own ==>
                  (Live(live', PathOf(c, m)) <==> if m == n then e.Add? else Live(live, PathOf(c, m))))
  {
    var entries := Entries(c, own);
    OnlyEntry(c, own, n, e.entry.order);
    assert e.entry == TheEntry(c, own, n);
    LiveEntry(c, base, own, live, n, e);
    hide EditList, Render, PathOf, TheEntry, Entries, Clean, Faithful, Separate;
    EditKeepsValid(Domain(base), entries, live, e);
    match e {
      case Add(x) => AddRefines(base, entries, live, x);
      case Remove(x) => RemoveRefines(base, entries, live, x);
    }
    forall m | m in own
      ensures Live(EditList(live, Domain(base), e), PathOf(c, m))
              <==> if m == n then e.Add? else Live(live, PathOf(c, m))
    {
      EditLive(Domain(base), entries, live, e, PathOf(c, m));
      if m != n {
        PathsDiffer(c, m, n);
      }
    }
  }

  /** Lock and live list moved together. */
  lemma StepTogether(c: Setup, h: Host, h': Host, base: string, own: map<string, Options>, live: seq<Entry>, live': seq<Entry>,
                     n: string, added: Option<Shim>)
    requires InStep(c, h, base, own, live) && n in own
    requires Get(h'.lock) == Some(if added.Some? then Get(h.lock).value[n := added.value] else Get(h.lock).value - {n})
    requires added.Some? ==> added.value.path == PathOf(c, n)
    requires c.configPath in h'.files && h'.files[c.configPath] == Render(base, live')
    requires ValidList(Entries(c, own), live')
    requires forall m :: m in own ==>
               (Live(live', PathOf(c, m)) <==> if m == n then added.Some? else Live(live, PathOf(c, m)))
    ensures InStep(c, h', base, own, live')
  {
    hide PathOf, Render, ValidList, Live;
  }

  lemma AssetIsPlain(n: string)
    requires '/' !in n
    ensures PlainName(BINARY_PREFIX + n)
  {
  }

  /** A successful round of `RunInstall`, in a command with the shim's options, adds it everywhere. */
  lemma AssetInStep(c: Setup, p: Progress, base: string, own: map<string, Options>, live: seq<Entry>, n: string, io: AssetIO)
    requires SeparateShims(c, base, own) && InStep(c, p.host, base, own, live) && n in own
    requires var d := With(c, own[n]);
             ValidAssetIO(d, io) && !InstallAsset(d, p, BINARY_PREFIX + n, io).failed
    ensures InStep(c, InstallAsset(With(c, own[n]), p, BINARY_PREFIX + n, io).host, base, own,
                   EditList(live, Domain(base), Add(EntryOf(c, n, own[n], io.config.order))))
  {
    hide InstallAsset, AddText, Render, EditList, RuntimeName, Separate, ValidList, Live, BinPath, PlainName, Entries, TheEntry;
    var d, file, edit := With(c, own[n]), BINARY_PREFIX + n, Add(EntryOf(c, n, own[n], io.config.order));
    AssetIsPlain(n);
    assert ConfigOutsideBin(d);
    hide ConfigOutsideBin;
    AssetEffect(d, p, file, io);
    RuntimeNameOfAsset(n);
    EditByName(c, base, own, live, n, edit);
    StepTogether(c, p.host, InstallAsset(d, p, file, io).host, base, own, live,
                 EditList(live, Domain(base), edit), n, Some(Shim(c.digest(io.install.content), PathOf(c, n))));
  }

  lemma {:induction false} AssetsInStep(c: Setup, options: Options, p: Progress, base: string, own: map<string, Options>, live: seq<Entry>,
                                        shims: seq<string>, files: seq<string>, ios: seq<AssetIO>) returns (live': seq<Entry>)
    requires SeparateShims(c, base, own) && InStep(c, p.host, base, own, live) && !p.failed
    requires |ios| == |files| == |shims| && forall i :: 0 <= i < |ios| ==> ValidAssetIO(With(c, options), ios[i])
    requires forall i :: 0 <= i < |files| ==> shims[i] in own && own[shims[i]] == options && files[i] == BINARY_PREFIX + shims[i]
    requires !InstallAll(With(c, options), p, files, ios).failed
    ensures InStep(c, InstallAll(With(c, options), p, files, ios).host, base, own, live')
    decreases |files|
  {
    live' := live;
    if files != [] {
      var d := With(c, options);
      AssetSucceeds(d, p, files, ios);
      AssetInStep(c, p, base, own, live, shims[0], ios[0]);
      hide InStep, InstallAsset, SeparateShims, EditList;
      live' := AssetsInStep(c, options, InstallAsset(d, p, files[0], ios[0]), base, own,
                            EditList(live, Domain(base), Add(EntryOf(c, shims[0], options, ios[0].config.order))),
                            shims[1..], files[1..], ios[1..]);
    }
  }

  lemma UninstallSucceeds(c: Setup, h: Host, n: string, uio: UninstallIO, cio: ConfigIO, restartFailed: bool)
    requires !RunUninstallHost(c, h, n, uio, cio, restartFailed).1
    ensures Get(h.lock).Some? && n in Get(h.lock).value && !uio.lockReadFailed && !uio.removeFailed && uio.lockWrite.None?
    ensures !cio.readFailed
    ensures var path := Get(h.lock).value[n].path;
            c.configPath in h.files && path != c.configPath && Contains(h.files[c.configPath], NameOf(path)) ==> cio.write.None?
  {
    hide RemoveText, NameOf;
  }

  /** What a successful uninstall with any options does to lock and configuration. */
  lemma UninstallEffect(c: Setup, h: Host, base: string, own: map<string, Options>, live: seq<Entry>, n: string,
                        options: Options, uio: UninstallIO, cio: ConfigIO, restartFailed: bool)
    requires SeparateShims(c, base, own) && InStep(c, h, base, own, live)
    requires !RunUninstallHost(With(c, options), h, n, uio, cio, restartFailed).1
    ensures var h' := RunUninstallHost(With(c, options), h, n, uio, cio, restartFailed).0;
            && n in own && Live(live, PathOf(c, n)) && Get(h'.lock) == Some(Get(h.lock).value - {n})
            && c.configPath in h'.files
            && h'.files[c.configPath] == EditText(Render(base, live), Remove(EntryOf(c, n, options, cio.order)))
  {
    var d := With(c, options);
    UninstallSucceeds(d, h, n, uio, cio, restartFailed);
    hide RunUninstallHost, Render, ValidList, NameOf, PathOf, SeparateShims, RemoveText, Live, Get, Entries;
    ShimMentioned(c, base, own, live, n);
    UninstallRecorded(d, h, n, PathOf(c, n), uio, cio, restartFailed);
  }

  /** A shim in the lock is mentioned by the configuration. */
  lemma ShimMentioned(c: Setup, base: string, own: map<string, Options>, live: seq<Entry>, n: string)
    requires SeparateShims(c, base, own) && n in own && ValidList(Entries(c, own), live)
    ensures PathOf(c, n) != c.configPath
    ensures Contains(Render(base, live), NameOf(PathOf(c, n))) <==> Live(live, PathOf(c, n))
  {
    BinPathFile(c.binDir, BINARY_PREFIX + n);
    OnlyEntry(c, own, n, SomeOrder(own[n]));
    hide Entries, Separate, ValidList, NameOf;
    RenderedMentions(base, Entries(c, own), live, PathOf(c, n));
  }

  /** A successful `RunUninstall` with the shim's options removes it everywhere. */
  lemma UninstallInStep(c: Setup, h: Host, base: string, own: map<string, Options>, live: seq<Entry>, n: string,
                        uio: UninstallIO, cio: ConfigIO, restartFailed: bool)
    requires SeparateShims(c, base, own) && InStep(c, h, base, own, live) && n in own
    requires IsOrder(own[n], cio.order) && !RunUninstallHost(With(c, own[n]), h, n, uio, cio, restartFailed).1
    ensures InStep(c, RunUninstallHost(With(c, own[n]), h, n, uio, cio, restartFailed).0, base, own,
                   EditList(live, Domain(base), Remove(EntryOf(c, n, own[n], cio.order))))
  {
    hide RunUninstallHost, Render, EditList, EditText, SeparateShims, ValidList, Live, Entries;
    UninstallEffect(c, h, base, own, live, n, own[n], uio, cio, restartFailed);
    var edit := Remove(EntryOf(c, n, own[n], cio.order));
    EditByName(c, base, own, live, n, edit);
    StepTogether(c, h, RunUninstallHost(With(c, own[n]), h, n, uio, cio, restartFailed).0, base, own, live,
                 EditList(live, Domain(base), edit), n, None);
  }

  /** With whatever other options, a successful uninstall takes the shim's block out of the
      configuration exactly if it generates that very block. */
  lemma UninstallClearsIff(c: Setup, h: Host, base: string, own: map<string, Options>, live: seq<Entry>, n: string,
                           options: Options, uio: UninstallIO, cio: ConfigIO, restartFailed: bool)
    requires SeparateShims(c, base, own) && InStep(c, h, base, own, live) && IsOrder(options, cio.order)
    requires !RunUninstallHost(With(c, options), h, n, uio, cio, restartFailed).1
    requires n in own && Traceable(EntryBlock(Domain(base), TheEntry(c, own, n)), NameOf(PathOf(c, n)), own[n], options)
    ensures var h' := RunUninstallHost(With(c, options), h, n, uio, cio, restartFailed).0;
            var j, x := Find(live, PathOf(c, n)), EntryOf(c, n, options, cio.order);
            && j < |live| && c.configPath in h'.files
            && (h'.files[c.configPath] == Render(base, Drop(live, j))
                <==> EntryBlock(Domain(base), x) == EntryBlock(Domain(base), TheEntry(c, own, n)))
  {
    var j, x := Find(live, PathOf(c, n)), EntryOf(c, n, options, cio.order);
    UninstallEffect(c, h, base, own, live, n, options, uio, cio, restartFailed);
    LiveIs(c, own, live, j, n);
    hide RunUninstallHost, EntryBlock, Render, EditText, ValidList, Entries, Separate, Traceable, PathOf;
    RemoveClearsIff(base, Entries(c, own), live, j, x);
  }

  lemma LiveIs(c: Setup, own: map<string, Options>, live: seq<Entry>, j: nat, n: string)
    requires ValidList(Entries(c, own), live) && j < |live| && n in own && live[j].path == PathOf(c, n)
    ensures live[j] == TheEntry(c, own, n)
  {
    var m :| m in own && live[j] == TheEntry(c, own, m);
    if m != n {
      PathsDiffer(c, m, n);
    }
  }

  // ---------------------------------------------------------------- whole runs

  /** A command about shims of the set; an install gives all its shims the same options. */
  datatype ShimCommand =
    | InstallShims(options: Options, shims: seq<string>, io: RunIO)
    | UninstallShim(options: Options, name: string, uio: UninstallIO, cio: ConfigIO, restartFailed: bool)

  function AssetFiles(shims: seq<string>): (files: seq<string>)
    ensures |files| == |shims| && forall i :: 0 <= i < |shims| ==> files[i] == BINARY_PREFIX + shims[i]
  {
    seq(|shims|, i requires 0 <= i < |shims| => BINARY_PREFIX + shims[i])
  }

  function AsCommand(cmd: ShimCommand): Command {
    match cmd
    case InstallShims(options, shims, io) => InstallCmd(options, AssetFiles(shims), io)
    case UninstallShim(options, name, uio, cio, restartFailed) => UninstallCmd(options, name, uio, cio, restartFailed)
  }

  /** The command gives every shim it names that shim's own options. */
  ghost predicate ValidShimCommand(c: Setup, own: map<string, Options>, cmd: ShimCommand) {
    && ValidCommand(c, AsCommand(cmd))
    && match cmd
       case InstallShims(options, shims, _) => forall i :: 0 <= i < |shims| ==> shims[i] in own && own[shims[i]] == options
       case UninstallShim(options, name, _, _, _) => name in own ==> own[name] == options
  }

  lemma RestartKeepsStep(c: Setup, h: Host, base: string, own: map<string, Options>, live: seq<Entry>, restarts: nat)
    requires InStep(c, h, base, own, live)
    ensures InStep(c, h.(restarts := restarts), base, own, live)
  {
  }

  lemma CommandInStep(c: Setup, h: Host, base: string, own: map<string, Options>, live: seq<Entry>, cmd: ShimCommand)
    returns (live': seq<Entry>)
    requires SeparateShims(c, base, own) && InStep(c, h, base, own, live) && ValidShimCommand(c, own, cmd)
    requires !RunCommand(c, h, AsCommand(cmd)).1
    ensures InStep(c, RunCommand(c, h, AsCommand(cmd)).0, base, own, live')
  {
    match cmd {
      case InstallShims(options, shims, io) =>
        var p := Progress(h, false, false);
        live' := AssetsInStep(c, options, p, base, own, live, shims, AssetFiles(shims), io.assets);
        hide InStep, InstallAll;
        var q := InstallAll(With(c, options), p, AssetFiles(shims), io.assets).host;
        RestartKeepsStep(c, q, base, own, live', q.restarts + 1);
      case UninstallShim(options, n, uio, cio, restartFailed) =>
        UninstallEffect(c, h, base, own, live, n, options, uio, cio, restartFailed);
        hide RunUninstallHost, InStep, SeparateShims, EditList;
        UninstallInStep(c, h, base, own, live, n, uio, cio, restartFailed);
        live' := EditList(live, Domain(base), Remove(EntryOf(c, n, options, cio.order)));
    }
  }

  function RunShimCommands(c: Setup, h: Host, own: map<string, Options>, cmds: seq<ShimCommand>): (Host, bool)
    requires forall i :: 0 <= i < |cmds| ==> ValidShimCommand(c, own, cmds[i])
    decreases |cmds|
  {
    if cmds == [] then (h, false)
    else
      assert ValidShimCommand(c, own, cmds[0]);
      var (h', failed) := RunCommand(c, h, AsCommand(cmds[0]));
      if failed then (h', true) else RunShimCommands(c, h', own, cmds[1..])
  }

  lemma {:induction false} RunsStayInStep(c: Setup, h: Host, base: string, own: map<string, Options>, live: seq<Entry>, cmds: seq<ShimCommand>)
    returns (live': seq<Entry>)
    requires SeparateShims(c, base, own) && InStep(c, h, base, own, live)
    requires forall i :: 0 <= i < |cmds| ==> ValidShimCommand(c, own, cmds[i])
    requires !RunShimCommands(c, h, own, cmds).1
    ensures InStep(c, RunShimCommands(c, h, own, cmds).0, base, own, live')
    decreases |cmds|
  {
    live' := live;
    if cmds != [] {
      assert ValidCommand(c, AsCommand(cmds[0]));
      var mid := CommandInStep(c, h, base, own, live, cmds[0]);
      hide InStep, RunCommand, SeparateShims, ValidShimCommand;
      live' := RunsStayInStep(c, RunCommand(c, h, AsCommand(cmds[0])).0, base, own, mid, cmds[1..]);
    }
  }

  /** From a host without shims, after any successful run of installs and uninstalls in which every
      shim keeps its options: a shim is in the lock exactly if the configuration mentions its runtime,
      every lock entry has its binary with the recorded digest in place, and once the lock is empty the
      configuration is the original text, byte for byte. */
  lemma EverythingAgrees(c: Setup, h: Host, own: map<string, Options>, cmds: seq<ShimCommand>)
    requires c.configPath in h.files && SeparateShims(c, h.files[c.configPath], own) && Get(h.lock) == Some(map[])
    requires forall i :: 0 <= i < |cmds| ==> ValidShimCommand(c, own, cmds[i])
    requires !RunShimCommands(c, h, own, cmds).1
    ensures var h' := RunShimCommands(c, h, own, cmds).0;
            && Agrees(c, h') && c.configPath in h'.files
            && (forall n :: n in own ==> (n in Get(h'.lock).value <==> Contains(h'.files[c.configPath], n)))
            && (Get(h'.lock).value == map[] ==> h'.files[c.configPath] == h.files[c.configPath])
  {
    var base := h.files[c.configPath];
    EmptyRender(base);
    var live := RunsStayInStep(c, h, base, own, [], cmds);
    ShimRunsAgree(c, h, own, cmds);
    var h' := RunShimCommands(c, h, own, cmds).0;
    hide RunShimCommands, Agrees, Render, NameOf, Entries, TheEntry;
    forall n | n in own
      ensures n in Get(h'.lock).value <==> Contains(h'.files[c.configPath], n)
    {
      OnlyEntry(c, own, n, SomeOrder(own[n]));
      RenderedMentions(base, Entries(c, own), live, PathOf(c, n));
      FreshNames(c, n);
    }
    NothingLive(c, h', base, own, live);
  }

  lemma NothingLive(c: Setup, h: Host, base: string, own: map<string, Options>, live: seq<Entry>)
    requires InStep(c, h, base, own, live)
    ensures live != [] ==> Get(h.lock).value != map[]
  {
    hide Render, PathOf;
    if live != [] {
      assert live[0] in Entries(c, own);
      var n :| n in own && live[0] == TheEntry(c, own, n);
      assert Live(live, PathOf(c, n));
    }
  }

  lemma {:induction false} ShimRunsAgree(c: Setup, h: Host, own: map<string, Options>, cmds: seq<ShimCommand>)
    requires forall i :: 0 <= i < |cmds| ==> ValidShimCommand(c, own, cmds[i])
    requires Agrees(c, h) && ConfigOutsideBin(c) && !RunShimCommands(c, h, own, cmds).1
    ensures Agrees(c, RunShimCommands(c, h, own, cmds).0)
    decreases |cmds|
  {
    if cmds != [] {
      assert ValidCommand(c, AsCommand(cmds[0]));
      CommandKeepsAgreement(c, h, AsCommand(cmds[0]));
      hide Agrees, RunCommand, ValidShimCommand;
      ShimRunsAgree(c, RunCommand(c, h, AsCommand(cmds[0])).0, own, cmds[1..]);
    }
  }
}
