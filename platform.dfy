/**
 * Platform resolution of src/fff/platform.ts: the target triple of the running
 * process, the file name of the native library, and the npm package that ships it.
 * The process's `platform` and `arch` strings and the output of the `ldd --version`
 * probe are parameters.
 */
module Platform {
  import opened Wrappers
  import opened Strings

  /** The `ldd --version` probe: it fails (not installed, times out, exits non-zero) or prints some text. */
  datatype Probe = ProbeFailed | ProbeOutput(text: string)

  predicate SupportedPlatform(platform: string) {
    platform == "darwin" || platform == "linux" || platform == "win32"
  }

  /** `detectLinuxLibc`: musl exactly when the lower-cased probe output mentions it; gnu otherwise, and when the probe fails. */
  function DetectLinuxLibc(probe: Probe): (r: string)
    ensures r == "unknown-linux-musl" <==>
              probe.ProbeOutput? && exists i: nat :: OccursAt(ToLower(probe.text), "musl", i)
    ensures r == "unknown-linux-musl" || r == "unknown-linux-gnu"
    ensures probe.ProbeFailed? ==> r == "unknown-linux-gnu"
  {
    if probe.ProbeOutput? then
      IncludesIsOccurrence(ToLower(probe.text), "musl");
      if Includes(ToLower(probe.text), "musl") then "unknown-linux-musl" else "unknown-linux-gnu"
    else "unknown-linux-gnu"
  }

  /** `normalizeArch` */
  function NormalizeArch(arch: string): (r: Outcome<string>)
    ensures r.Returned? <==> arch in {"x64", "amd64", "arm64", "arm"}
    ensures arch == "x64" || arch == "amd64" ==> r == Returned("x86_64")
    ensures arch == "arm64" ==> r == Returned("aarch64")
    ensures arch == "arm" ==> r == Returned("arm")
    ensures r.Threw? ==> r.message == "Unsupported architecture: " + arch
  {
    if arch == "x64" || arch == "amd64" then Returned("x86_64")
    else if arch == "arm64" then Returned("aarch64")
    else if arch == "arm" then Returned("arm")
    else Threw("Unsupported architecture: " + arch)
  }

  /** The operating-system half of the triple, decided before the architecture is looked at. */
  function OsName(platform: string, probe: Probe): Outcome<string> {
    if platform == "darwin" then Returned("apple-darwin")
    else if platform == "linux" then Returned(DetectLinuxLibc(probe))
    else if platform == "win32" then Returned("pc-windows-msvc")
    else Threw("Unsupported platform: " + platform)
  }

  /** `getTriple`: `<arch>-<os>`. */
  function GetTriple(platform: string, arch: string, probe: Probe): (r: Outcome<string>)
    ensures !SupportedPlatform(platform) ==> r == Threw("Unsupported platform: " + platform)
    ensures SupportedPlatform(platform) ==> (r.Returned? <==> NormalizeArch(arch).Returned?)
    ensures SupportedPlatform(platform) && r.Threw? ==> r == NormalizeArch(arch)
  {
    match OsName(platform, probe)
    case Threw(m) => Threw(m)
    case Returned(os) =>
      match NormalizeArch(arch)
      case Threw(m) => Threw(m)
      case Returned(a) => Returned(a + "-" + os)
  }

  /** An unsupported platform throws whatever the architecture, even an unsupported one. */
  lemma PlatformCheckedFirst(platform: string, arch1: string, arch2: string, probe: Probe)
    requires !SupportedPlatform(platform)
    ensures GetTriple(platform, arch1, probe) == GetTriple(platform, arch2, probe)
    ensures GetTriple(platform, arch1, probe).Threw?
  {
  }

  /** The operating-system names each supported platform maps to. */
  lemma TripleOfSupportedPlatform(platform: string, arch: string, probe: Probe)
    requires SupportedPlatform(platform) && NormalizeArch(arch).Returned?
    ensures platform == "darwin" ==> GetTriple(platform, arch, probe) == Returned(NormalizeArch(arch).value + "-apple-darwin")
    ensures platform == "linux" ==> GetTriple(platform, arch, probe) == Returned(NormalizeArch(arch).value + "-" + DetectLinuxLibc(probe))
    ensures platform == "win32" ==> GetTriple(platform, arch, probe) == Returned(NormalizeArch(arch).value + "-pc-windows-msvc")
  {
    var a := NormalizeArch(arch).value;
    if platform == "darwin" {
      assert OsName(platform, probe) == Returned("apple-darwin");
      assert GetTriple(platform, arch, probe) == Returned(a + "-" + "apple-darwin");
      ConcatAssoc(a, "-", "apple-darwin");
      assert "-" + "apple-darwin" == "-apple-darwin";
    } else if platform == "win32" {
      assert OsName(platform, probe) == Returned("pc-windows-msvc");
      assert GetTriple(platform, arch, probe) == Returned(a + "-" + "pc-windows-msvc");
      ConcatAssoc(a, "-", "pc-windows-msvc");
      assert "-" + "pc-windows-msvc" == "-pc-windows-msvc";
    }
  }

  lemma ConcatAssoc(a: string, b: string, c: string)
    ensures a + b + c == a + (b + c)
  {
  }

  /** `getLibExtension`: every platform other than darwin and win32 gets `so`, supported or not. */
  function LibExtension(platform: string): (r: string)
    ensures r in {"dylib", "so", "dll"}
    ensures r == "dylib" <==> platform == "darwin"
    ensures r == "dll" <==> platform == "win32"
  {
    if platform == "darwin" then "dylib" else if platform == "win32" then "dll" else "so"
  }

  /** `getLibPrefix` */
  function LibPrefix(platform: string): (r: string)
    ensures r == "" <==> platform == "win32"
  {
    if platform == "win32" then "" else "lib"
  }

  /** `getLibFilename` */
  function LibFilename(platform: string): (r: string)
    ensures r == LibPrefix(platform) + "fff_c." + LibExtension(platform)
    ensures platform == "win32" ==> r == "fff_c.dll"
    ensures platform == "darwin" ==> r == "libfff_c.dylib"
    ensures platform != "win32" && platform != "darwin" ==> r == "libfff_c.so"
  {
    LibPrefix(platform) + "fff_c." + LibExtension(platform)
  }

  /** `TRIPLE_TO_NPM_PACKAGE` */
  const TripleToNpmPackage: map<string, string> := map[
    "aarch64-apple-darwin" := "@ff-labs/fff-bun-darwin-arm64",
    "x86_64-apple-darwin" := "@ff-labs/fff-bun-darwin-x64",
    "x86_64-unknown-linux-gnu" := "@ff-labs/fff-bun-linux-x64-gnu",
    "aarch64-unknown-linux-gnu" := "@ff-labs/fff-bun-linux-arm64-gnu",
    "x86_64-unknown-linux-musl" := "@ff-labs/fff-bun-linux-x64-musl",
    "aarch64-unknown-linux-musl" := "@ff-labs/fff-bun-linux-arm64-musl",
    "x86_64-pc-windows-msvc" := "@ff-labs/fff-bun-win32-x64",
    "aarch64-pc-windows-msvc" := "@ff-labs/fff-bun-win32-arm64"
  ]

  /** `getNpmPackageName`: a failure of `getTriple` propagates; a triple without an entry throws. */
  function GetNpmPackageName(platform: string, arch: string, probe: Probe): (r: Outcome<string>)
    ensures GetTriple(platform, arch, probe).Threw? ==> r == GetTriple(platform, arch, probe)
    ensures GetTriple(platform, arch, probe).Returned? ==>
              var t := GetTriple(platform, arch, probe).value;
              if t in TripleToNpmPackage then r == Returned(TripleToNpmPackage[t])
              else r == Threw("No npm package available for platform: " + t)
  {
    match GetTriple(platform, arch, probe)
    case Threw(m) => Threw(m)
    case Returned(t) =>
      if t in TripleToNpmPackage && TripleToNpmPackage[t] != "" then Returned(TripleToNpmPackage[t])
      else Threw("No npm package available for platform: " + t)
  }

  /** Distinct triples name distinct packages. */
  lemma TableInjective()
    ensures forall t1, t2 :: t1 in TripleToNpmPackage && t2 in TripleToNpmPackage && t1 != t2 ==>
              TripleToNpmPackage[t1] != TripleToNpmPackage[t2]
  {
  }

  /** Every package of the table is one of the `@ff-labs/fff-bun-` family. */
  lemma TablePackagesScoped()
    ensures forall t :: t in TripleToNpmPackage ==> StartsWith(TripleToNpmPackage[t], "@ff-labs/fff-bun-")
  {
  }

  /** `arm` is accepted as an architecture, but no package exists for any `arm-` triple. */
  lemma ArmHasNoPackage(platform: string, probe: Probe)
    requires SupportedPlatform(platform)
    ensures GetTriple(platform, "arm", probe).Returned?
    ensures GetNpmPackageName(platform, "arm", probe).Threw?
    ensures StartsWith(GetNpmPackageName(platform, "arm", probe).message, "No npm package available for platform: arm-")
  {
    var os := OsName(platform, probe).value;
    assert NormalizeArch("arm") == Returned("arm");
    assert GetTriple(platform, "arm", probe) == Returned("arm" + "-" + os);
    var t := GetTriple(platform, "arm", probe).value;
    ConcatAssoc("arm", "-", os);
    assert t[1] == 'r';
    NoTripleWithR(t);
    PrefixOfMessage("arm-", os);
  }

  lemma NoTripleWithR(t: string)
    requires |t| > 1 && t[1] == 'r'
    ensures t !in TripleToNpmPackage
  {
  }

  lemma PrefixOfMessage(a: string, b: string)
    ensures StartsWith("No npm package available for platform: " + (a + b), "No npm package available for platform: " + a)
  {
    var p := "No npm package available for platform: ";
    assert (p + (a + b))[..|p + a|] == p + a;
  }

  /** A package exists exactly for the supported platforms on 64-bit x86 and ARM. */
  lemma PackageAvailable(platform: string, arch: string, probe: Probe)
    ensures GetNpmPackageName(platform, arch, probe).Returned? <==>
              SupportedPlatform(platform) && arch in {"x64", "amd64", "arm64"}
  {
    if SupportedPlatform(platform) {
      if arch == "arm" {
        ArmHasNoPackage(platform, probe);
      } else if arch in {"x64", "amd64", "arm64"} {
        KnownTriple(platform, arch, probe);
      }
    }
  }

  lemma KnownTriple(platform: string, arch: string, probe: Probe)
    requires SupportedPlatform(platform) && arch in {"x64", "amd64", "arm64"}
    ensures GetTriple(platform, arch, probe).value in TripleToNpmPackage
  {
    var os := OsName(platform, probe).value;
    assert os in {"apple-darwin", "pc-windows-msvc", "unknown-linux-gnu", "unknown-linux-musl"};
    TripleInTable(NormalizeArch(arch).value, os);
  }

  lemma TripleInTable(a: string, os: string)
    requires a in {"x86_64", "aarch64"}
    requires os in {"apple-darwin", "pc-windows-msvc", "unknown-linux-gnu", "unknown-linux-musl"}
    ensures a + "-" + os in TripleToNpmPackage
  {
    if os == "apple-darwin" {
      DarwinInTable(a);
    } else if os == "pc-windows-msvc" {
      WindowsInTable(a);
    } else if os == "unknown-linux-gnu" {
      GnuInTable(a);
    } else {
      MuslInTable(a);
    }
  }

  // One lemma per operating system: a single lemma over all eight triples runs out of resource.
  lemma DarwinInTable(a: string)
    requires a in {"x86_64", "aarch64"}
    ensures a + "-" + "apple-darwin" in TripleToNpmPackage
  {
    if a == "x86_64" {
      assert a + "-" + "apple-darwin" == "x86_64-apple-darwin";
    } else {
      assert a + "-" + "apple-darwin" == "aarch64-apple-darwin";
    }
  }

  lemma WindowsInTable(a: string)
    requires a in {"x86_64", "aarch64"}
    ensures a + "-" + "pc-windows-msvc" in TripleToNpmPackage
  {
    if a == "x86_64" {
      assert a + "-" + "pc-windows-msvc" == "x86_64-pc-windows-msvc";
    } else {
      assert a + "-" + "pc-windows-msvc" == "aarch64-pc-windows-msvc";
    }
  }

  lemma GnuInTable(a: string)
    requires a in {"x86_64", "aarch64"}
    ensures a + "-" + "unknown-linux-gnu" in TripleToNpmPackage
  {
    if a == "x86_64" {
      assert a + "-" + "unknown-linux-gnu" == "x86_64-unknown-linux-gnu";
    } else {
      assert a + "-" + "unknown-linux-gnu" == "aarch64-unknown-linux-gnu";
    }
  }

  lemma MuslInTable(a: string)
    requires a in {"x86_64", "aarch64"}
    ensures a + "-" + "unknown-linux-musl" in TripleToNpmPackage
  {
    if a == "x86_64" {
      assert a + "-" + "unknown-linux-musl" == "x86_64-unknown-linux-musl";
    } else {
      assert a + "-" + "unknown-linux-musl" == "aarch64-unknown-linux-musl";
    }
  }
}
