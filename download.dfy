/**
 * Locating the native library (src/fff/download.ts): the directory of the package
 * this code ships in, the npm platform package resolved from two roots in turn, and
 * the install hint. The process and its filesystem are a `Host` value: the set of
 * paths that exist stands for `existsSync`, and `resolve(from, request)` for
 * `createRequire(from).resolve(request)`, `None` meaning that it throws.
 */
module Download {
  import opened Wrappers
  import opened Strings
  import opened Paths
  import opened Platform

  datatype Host = Host(
    platform: string,
    arch: string,
    probe: Probe,
    cwd: string,
    currentDir: string,
    files: set<string>,
    resolve: (string, string) -> Option<string>)

  /** The directory `k` steps up from `dir`. */
  function Ancestor(dir: string, k: nat): string
    decreases k
  {
    if k == 0 then dir else Ancestor(Dirname(dir), k - 1)
  }

  predicate HasMarker(dir: string, files: set<string>) {
    Join(dir, "package.json") in files
  }

  /** The first of at most `n` directories from `dir` upwards holding `package.json`; the walk stops where `dirname` no longer moves. */
  function FindMarker(dir: string, files: set<string>, n: nat): Option<string>
    decreases n
  {
    if n == 0 then None
    else if HasMarker(dir, files) then Some(dir)
    else if Dirname(dir) == dir then None
    else FindMarker(Dirname(dir), files, n - 1)
  }

  /** What `getPackageDir` computes for the module directory `currentDir`. */
  function PackageDir(currentDir: string, files: set<string>): string {
    var parent := Dirname(currentDir);
    if Basename(parent) == "dist" then Dirname(parent)
    else FindMarker(currentDir, files, 4).GetOr(parent)
  }

  /** `getPackageDir`: the built layout `<pkg>/dist/<dir>` first, then a walk of at most four steps up, then the parent. */
  method GetPackageDir(currentDir: string, files: set<string>) returns (dir: string)
    ensures dir == PackageDir(currentDir, files)
  {
    var parent := Dirname(currentDir);
    if Basename(parent) == "dist" {
      return Dirname(parent);
    }
    dir := currentDir;
    var i := 0;
    while i < 4
      invariant 0 <= i <= 4
      invariant FindMarker(currentDir, files, 4) == FindMarker(dir, files, 4 - i)
      decreases 4 - i
    {
      if HasMarker(dir, files) {
        return dir;
      }
      var next := Dirname(dir);
      if next == dir {
        break;
      }
      dir := next;
      i := i + 1;
    }
    return parent;
  }

  /**
   * A marker found by the walk is the nearest one: it is `k < n` steps up, it holds
   * `package.json`, and none of the directories below it on the way does.
   */
  /** None of the first `k` directories from `dir` upwards holds `package.json`. */
  ghost predicate NoMarkerBelow(dir: string, files: set<string>, k: nat) {
    forall j: nat :: j < k ==> !HasMarker(Ancestor(dir, j), files)
  }

  lemma {:induction false} FindMarkerIsNearest(dir: string, files: set<string>, n: nat)
    ensures FindMarker(dir, files, n).Some? ==>
              exists k: nat :: k < n && FindMarker(dir, files, n).value == Ancestor(dir, k)
                && HasMarker(Ancestor(dir, k), files) && NoMarkerBelow(dir, files, k)
    ensures FindMarker(dir, files, n).None? ==> NoMarkerBelow(dir, files, n)
    decreases n
  {
    if n > 0 && HasMarker(dir, files) {
      assert Ancestor(dir, 0) == dir;
    } else if n > 0 {
      if Dirname(dir) == dir {
        forall j: nat | j < n ensures Ancestor(dir, j) == dir {
          AncestorOfFixedPoint(dir, j);
        }
      } else {
        var up, m := Dirname(dir), n - 1;
        FindMarkerIsNearest(up, files, m);
        assert FindMarker(dir, files, n) == FindMarker(up, files, m);
        if FindMarker(up, files, m).Some? {
          var k: nat :| k < m && FindMarker(up, files, m).value == Ancestor(up, k)
                && HasMarker(Ancestor(up, k), files) && NoMarkerBelow(up, files, k);
          assert Ancestor(dir, k + 1) == Ancestor(up, k);
          forall j: nat | j < k + 1 ensures !HasMarker(Ancestor(dir, j), files) {
            if j > 0 { assert Ancestor(dir, j) == Ancestor(up, j - 1); }
          }
        } else {
          forall j: nat | j < n ensures !HasMarker(Ancestor(dir, j), files) {
            if j > 0 { assert Ancestor(dir, j) == Ancestor(up, j - 1); }
          }
        }
      }
    }
  }

  lemma {:induction false} AncestorOfFixedPoint(dir: string, k: nat)
    requires Dirname(dir) == dir
    ensures Ancestor(dir, k) == dir
    decreases k
  {
    if k > 0 {
      AncestorOfFixedPoint(dir, k - 1);
    }
  }

  /** The three outcomes of `getPackageDir`. */
  lemma PackageDirCases(currentDir: string, files: set<string>)
    ensures var parent := Dirname(currentDir);
      && (Basename(parent) == "dist" ==> PackageDir(currentDir, files) == Dirname(parent))
      && (Basename(parent) != "dist" && NoMarkerBelow(currentDir, files, 4) ==>
            PackageDir(currentDir, files) == parent)
      && (Basename(parent) != "dist" && PackageDir(currentDir, files) != parent ==>
            exists k: nat :: k < 4 && PackageDir(currentDir, files) == Ancestor(currentDir, k)
              && HasMarker(Ancestor(currentDir, k), files))
  {
    FindMarkerIsNearest(currentDir, files, 4);
  }

  /**
   * `resolvePackageBinary`: the library file next to the `package.json` that
   * `packageName` resolves to from `fromPackageJsonPath`, if that file exists.
   */
  function ResolvePackageBinary(host: Host, fromPackageJsonPath: string, packageName: string): (r: Option<string>)
    ensures r.Some? ==>
              && host.resolve(fromPackageJsonPath, packageName + "/package.json").Some?
              && r.value == Join(Dirname(host.resolve(fromPackageJsonPath, packageName + "/package.json").value), LibFilename(host.platform))
              && r.value in host.files
    ensures r.Some? ==> r.value != "" && EndsWith(r.value, LibFilename(host.platform))
    ensures r.None? ==>
              || host.resolve(fromPackageJsonPath, packageName + "/package.json").None?
              || Join(Dirname(host.resolve(fromPackageJsonPath, packageName + "/package.json").value), LibFilename(host.platform)) !in host.files
  {
    match host.resolve(fromPackageJsonPath, packageName + "/package.json")
    case None => None
    case Some(packageJsonPath) =>
      var binaryPath := Join(Dirname(packageJsonPath), LibFilename(host.platform));
      assert |LibFilename(host.platform)| > 0;
      if binaryPath in host.files then Some(binaryPath) else None
  }

  /** `resolveFromNpmPackage`: the working directory's root first, then this package's own root. */
  function ResolveFromNpmPackage(host: Host): (r: Option<string>)
    ensures r.Some? ==> r.value in host.files && r.value != "" && EndsWith(r.value, LibFilename(host.platform))
  {
    match GetNpmPackageName(host.platform, host.arch, host.probe)
    case Threw(_) => None
    case Returned(packageName) =>
      var fromCwd := ResolvePackageBinary(host, Join(host.cwd, "package.json"), packageName);
      if fromCwd.Some? && fromCwd.value != "" then fromCwd
      else ResolvePackageBinary(host, Join(PackageDir(host.currentDir, host.files), "package.json"), packageName)
  }

  /** `findBinary` */
  function FindBinary(host: Host): (r: Option<string>)
    ensures r.Some? ==> r.value in host.files && r.value != "" && EndsWith(r.value, LibFilename(host.platform))
    ensures GetNpmPackageName(host.platform, host.arch, host.probe).Threw? ==> r.None?
  {
    ResolveFromNpmPackage(host)
  }

  /** A hit under the working directory wins, and the package's own location is then never looked at. */
  lemma CwdRootFirst(host: Host, otherDir: string)
    requires GetNpmPackageName(host.platform, host.arch, host.probe).Returned?
    requires ResolvePackageBinary(host, Join(host.cwd, "package.json"), GetNpmPackageName(host.platform, host.arch, host.probe).value).Some?
    ensures FindBinary(host) == ResolvePackageBinary(host, Join(host.cwd, "package.json"), GetNpmPackageName(host.platform, host.arch, host.probe).value)
    ensures FindBinary(host) == FindBinary(host.(currentDir := otherDir))
  {
  }

  /** Without a hit under the working directory, the answer is the package root's. */
  lemma PackageRootSecond(host: Host)
    requires GetNpmPackageName(host.platform, host.arch, host.probe).Returned?
    requires ResolvePackageBinary(host, Join(host.cwd, "package.json"), GetNpmPackageName(host.platform, host.arch, host.probe).value).None?
    ensures FindBinary(host) ==
              ResolvePackageBinary(host, Join(PackageDir(host.currentDir, host.files), "package.json"),
                                   GetNpmPackageName(host.platform, host.arch, host.probe).value)
  {
  }

  const InstallHintPlaceholder := "@ff-labs/fff-bun-<target>"

  /** `getInstallHint`: the package name, or a placeholder when there is none. */
  function GetInstallHint(host: Host): (r: string)
    ensures GetNpmPackageName(host.platform, host.arch, host.probe).Returned? ==>
              r == GetNpmPackageName(host.platform, host.arch, host.probe).value
    ensures GetNpmPackageName(host.platform, host.arch, host.probe).Threw? ==> r == InstallHintPlaceholder
  {
    match GetNpmPackageName(host.platform, host.arch, host.probe)
    case Returned(name) => name
    case Threw(_) => InstallHintPlaceholder
  }

  /** `binaryExists` */
  function BinaryExists(host: Host): (r: bool)
    ensures r <==> FindBinary(host).Some?
  {
    FindBinary(host) != None
  }

  function MissingBinaryMessage(hint: string): string {
    "fff native library not found. Install the matching platform package (" + hint
    + ") and reinstall with optional dependencies enabled."
  }

  /** `ensureBinary`: the found path, or a rejection that names the package to install. */
  function EnsureBinary(host: Host): (r: Outcome<string>)
    ensures r.Returned? <==> FindBinary(host).Some?
    ensures r.Returned? ==> r.value == FindBinary(host).value
    ensures r.Threw? ==> Includes(r.message, GetInstallHint(host))
  {
    var existingPath := FindBinary(host);
    if existingPath.Some? && existingPath.value != "" then Returned(existingPath.value)
    else
      IncludesInfix("fff native library not found. Install the matching platform package (", GetInstallHint(host),
                    ") and reinstall with optional dependencies enabled.");
      Threw(MissingBinaryMessage(GetInstallHint(host)))
  }
}
