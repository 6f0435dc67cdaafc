/** The names that tie a shim binary, its lock entry and its containerd runtime together. */
module ShimNames {

  const BINARY_PREFIX := "containerd-shim-"

  /** `strings.TrimPrefix(bin, "containerd-shim-")`. */
  function RuntimeName(bin: string): string {
    if BINARY_PREFIX <= bin then bin[|BINARY_PREFIX|..] else bin
  }

  /** Position just after the last slash of `p`, or 0. */
  function AfterSlash(p: string): (k: nat)
    ensures k <= |p|
    ensures '/' !in p[k..]
  {
    if p == "" || p[|p| - 1] == '/' then |p| else AfterSlash(p[..|p| - 1])
  }

  function TrimSlashes(p: string): string {
    if p != "" && p[|p| - 1] == '/' then TrimSlashes(p[..|p| - 1]) else p
  }

  /** Go's `path.Base`. */
  function Base(p: string): string {
    if p == "" then "."
    else
      var q := TrimSlashes(p);
      if q == "" then "/" else q[AfterSlash(q)..]
  }

  /** The runtime name containerd sees for a shim path. */
  function NameOf(shimPath: string): string {
    RuntimeName(Base(shimPath))
  }

  /** A directory entry as `afero.ReadDir` and `FileInfo.Name` report it. */
  predicate PlainName(file: string) {
    file != "" && '/' !in file
  }

  function BinPath(binDir: string, file: string): string {
    binDir + "/" + file
  }

  lemma {:induction false} AfterSlashOfJoin(dir: string, file: string)
    requires '/' !in file
    ensures AfterSlash(dir + "/" + file) == |dir| + 1
  {
    var p := dir + "/" + file;
    if file != "" {
      assert p[|p| - 1] == file[|file| - 1];
      assert p[..|p| - 1] == dir + "/" + file[..|file| - 1];
      AfterSlashOfJoin(dir, file[..|file| - 1]);
    }
  }

  /** The base name of an installed binary is the asset's file name. */
  lemma BaseOfBinPath(binDir: string, file: string)
    requires PlainName(file)
    ensures Base(BinPath(binDir, file)) == file
    ensures NameOf(BinPath(binDir, file)) == RuntimeName(file)
  {
    var p := BinPath(binDir, file);
    assert p[|p| - 1] == file[|file| - 1];
    AfterSlashOfJoin(binDir, file);
  }

  /** The downloader's naming rule `containerd-shim-<shim>` is undone by `RuntimeName`, exactly once;
      any other name is its own runtime name. */
  lemma RuntimeNameOfAsset(shim: string)
    ensures RuntimeName("containerd-shim-" + shim) == shim
    ensures !("containerd-shim-" <= shim) ==> RuntimeName(shim) == shim
  {
    assert BINARY_PREFIX == "containerd-shim-";
    assert ("containerd-shim-" + shim)[16..] == shim;
  }

  function Slashes(k: nat): string {
    if k == 0 then "" else Slashes(k - 1) + "/"
  }

  lemma TrimOne(q: string)
    ensures TrimSlashes(q + "/") == TrimSlashes(q)
  {
    assert (q + "/")[..|q|] == q;
  }

  lemma Regroup(a: string, b: string, c: string)
    ensures a + (b + c) == (a + b) + c
  {
  }

  lemma TrimNothing(p: string)
    requires p == "" || p[|p| - 1] != '/'
    ensures TrimSlashes(p + "") == p
  {
    assert p + "" == p;
  }

  lemma {:induction false} TrimEnd(p: string, k: nat)
    requires p == "" || p[|p| - 1] != '/'
    ensures TrimSlashes(p + Slashes(k)) == p
  {
    hide TrimSlashes;
    if k == 0 {
      TrimNothing(p);
    } else {
      TrimEnd(p, k - 1);
      TrimOne(p + Slashes(k - 1));
      Regroup(p, Slashes(k - 1), "/");
    }
  }

  /** The base of a path is its last element, whatever slashes follow; of nothing it is a dot and of
      slashes alone a slash. */
  lemma BaseLaws(dir: string, file: string, k: nat)
    requires PlainName(file)
    ensures Base(dir + "/" + file + Slashes(k)) == file && Base(file + Slashes(k)) == file
    ensures Base("") == "." && Base(Slashes(k + 1)) == "/"
  {
    var p := dir + "/" + file;
    assert p[|p| - 1] == file[|file| - 1];
    TrimEnd(p, k);
    AfterSlashOfJoin(dir, file);
    TrimEnd(file, k);
    NoSlash(file);
    assert file[0..] == file;
    TrimEnd("", k + 1);
    assert "" + Slashes(k + 1) == Slashes(k + 1);
  }

  lemma {:induction false} NoSlash(p: string)
    requires '/' !in p
    ensures AfterSlash(p) == 0
  {
    if p != "" {
      NoSlash(p[..|p| - 1]);
    }
  }
}
