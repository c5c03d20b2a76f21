/**
  `GetEtsNativeLibPath` and its helpers: the table of native library paths per module and the table
  that leads from the path of an abc file to the module.

  Every helper is specified by the writes it makes, in order; what the tables hold afterwards is
  proved from the writes.
*/
module NativeLibPaths {
  import opened Text

  const LOCAL_CODE_PATH: string := "/data/storage/el1/bundle"
  const ABS_CODE_PATH: string := "/data/app/el1/bundle/public"
  const ABC_PREFIX: string := "/data/storage/el1/bundle/"
  const ABC_SUFFIX: string := "/ets/modules_static.abc"

  datatype Hap = Hap(
    bundleName: string,
    moduleName: string,
    hapPath: string,
    nativeLibraryPath: string,
    compressNativeLibs: bool,
    isLibIsolated: bool,
    hqfPath: string,
    supportDirs: seq<string>)

  datatype Hsp = Hsp(
    bundleName: string,
    moduleName: string,
    hapPath: string,
    nativeLibraryPath: string,
    compressNativeLibs: bool,
    supportDirs: seq<string>)

  /** The application: its name, the path of its deployed quick fix, its library path and its haps. */
  datatype Bundle = Bundle(name: string, quickFixPath: string, nativeLibraryPath: string, haps: seq<Hap>)

  // ---------------------------------------------------------------------------------------------
  // Tables and writes

  datatype Tables = Tables(libs: map<string, seq<string>>, abcs: map<string, string>)

  datatype Write = Lib(key: string, path: string) | Abc(abcPath: string, key: string)

  function Listed(libs: map<string, seq<string>>, key: string): seq<string> {
    if key in libs then libs[key] else []
  }

  function Put(t: Tables, w: Write): Tables {
    match w
    case Lib(key, path) => t.(libs := t.libs[key := Listed(t.libs, key) + [path]])
    case Abc(abcPath, key) => t.(abcs := t.abcs[abcPath := key])
  }

  function After(t: Tables, ws: seq<Write>): Tables {
    if ws == [] then t else Put(After(t, ws[..|ws| - 1]), ws[|ws| - 1])
  }

  lemma {:induction false} AfterBoth(t: Tables, a: seq<Write>, b: seq<Write>)
    ensures After(t, a + b) == After(After(t, a), b)
  {
    if b == [] {
      assert a + b == a;
    } else {
      AfterBoth(t, a, b[..|b| - 1]);
      assert (a + b)[..|a + b| - 1] == a + b[..|b| - 1];
    }
  }

  // ---------------------------------------------------------------------------------------------
  // Paths and keys

  function Joined(prefix: string, name: string): string {
    if EndsWith(prefix, "/") then prefix + name else prefix + "/" + name
  }

  function Key(bundleName: string, moduleName: string): string {
    bundleName + "/" + moduleName
  }

  function AbcPath(name: string): string {
    ABC_PREFIX + name + ABC_SUFFIX
  }

  function EtsLibPath(hapPath: string, isPreInstallApp: bool): string {
    if isPreInstallApp then
      var pos := RFind(hapPath, '/');
      if pos == -1 then hapPath else hapPath[..pos]
    else LOCAL_CODE_PATH
  }

  predicate IsPreInstall(hapPath: string) {
    FindText(hapPath, ABS_CODE_PATH, 0) != 0
  }

  function SupportPaths(dirs: seq<string>, prefix: string): seq<string> {
    seq(|dirs|, i requires 0 <= i < |dirs| => prefix + "/" + dirs[i])
  }

  /** A library path and its support directories, or nothing. */
  function WithSupport(path: string, dirs: seq<string>): seq<string> {
    [path] + SupportPaths(dirs, path)
  }

  /** What a hap gets from the carried patch path. */
  function PatchPaths(hap: Hap, patch: string): seq<string> {
    if patch == "" || (hap.compressNativeLibs && !hap.isLibIsolated) then []
    else WithSupport(Joined(LOCAL_CODE_PATH, patch), hap.supportDirs)
  }

  /** What a hap gets from its own library path. */
  function OwnPaths(hap: Hap, isPreInstallApp: bool): seq<string> {
    if hap.nativeLibraryPath == "" then []
    else
      var root := if hap.compressNativeLibs then LOCAL_CODE_PATH else EtsLibPath(hap.hapPath, isPreInstallApp);
      WithSupport(Joined(root, hap.nativeLibraryPath), hap.supportDirs)
  }

  function HspLibPath(hsp: Hsp, isPreInstallApp: bool): string {
    if hsp.compressNativeLibs then Joined(LOCAL_CODE_PATH, hsp.bundleName + "/" + hsp.nativeLibraryPath)
    else if isPreInstallApp then Joined(EtsLibPath(hsp.hapPath, true), hsp.nativeLibraryPath)
    else Joined(EtsLibPath(hsp.hapPath, false), hsp.bundleName + "/" + hsp.moduleName + "/" + hsp.nativeLibraryPath)
  }

  function HspPaths(hsp: Hsp, isPreInstallApp: bool): seq<string> {
    if hsp.nativeLibraryPath == "" then [] else WithSupport(HspLibPath(hsp, isPreInstallApp), hsp.supportDirs)
  }

  // ---------------------------------------------------------------------------------------------
  // The writes of each helper

  function LibWrites(key: string, paths: seq<string>): seq<Write> {
    seq(|paths|, i requires 0 <= i < |paths| => Lib(key, paths[i]))
  }

  /** The paths of a module, then the abc entry that leads to them; nothing when there are none. */
  function ModuleWrites(key: string, paths: seq<string>, abcPath: string): seq<Write> {
    if paths == [] then [] else LibWrites(key, paths) + [Abc(abcPath, key)]
  }

  function HapWrites(hap: Hap, patch: string): seq<Write> {
    var key := Key(hap.bundleName, hap.moduleName);
    ModuleWrites(key, PatchPaths(hap, patch), AbcPath(hap.moduleName))
    + ModuleWrites(key, OwnPaths(hap, IsPreInstall(hap.hapPath)), AbcPath(hap.moduleName))
  }

  /** The patch path after a hap: an isolated hap brings its own. */
  function NextPatch(hap: Hap, patch: string): string {
    if hap.isLibIsolated then hap.hqfPath else patch
  }

  /** The patch path that hap `i` uses. */
  function Carried(haps: seq<Hap>, i: nat, patch: string): string
    requires i < |haps|
  {
    NextPatch(haps[i], if i == 0 then patch else Carried(haps, i - 1, patch))
  }

  function PatchAfter(haps: seq<Hap>, n: nat, patch: string): string
    requires n <= |haps|
  {
    if n == 0 then patch else Carried(haps, n - 1, patch)
  }

  /** The writes of the first `n` haps. */
  function HapsWrites(haps: seq<Hap>, n: nat, patch: string): seq<Write>
    requires n <= |haps|
  {
    if n == 0 then [] else HapsWrites(haps, n - 1, patch) + HapWrites(haps[n - 1], Carried(haps, n - 1, patch))
  }

  /** The name under which the abc file of a shared module is found. */
  function HspAbcName(hsp: Hsp, appName: string): string {
    if hsp.bundleName == appName then hsp.moduleName else Key(hsp.bundleName, hsp.moduleName)
  }

  function HspWrites(hsp: Hsp, isPreInstallApp: bool, appName: string): seq<Write> {
    var key := Key(hsp.bundleName, hsp.moduleName);
    if appName == "" then LibWrites(key, HspPaths(hsp, isPreInstallApp))
    else ModuleWrites(key, HspPaths(hsp, isPreInstallApp), AbcPath(HspAbcName(hsp, appName)))
  }

  function HspTurn(hsp: Hsp, appName: string): seq<Write> {
    HspWrites(hsp, IsPreInstall(hsp.hapPath), appName)
  }

  function HspsWrites(hsps: seq<Hsp>, appName: string): seq<Write> {
    if hsps == [] then []
    else HspsWrites(hsps[..|hsps| - 1], appName) + HspTurn(hsps[|hsps| - 1], appName)
  }

  /** The support directories of the haps that share the application's library path. */
  function SharedSupport(haps: seq<Hap>, prefix: string): seq<string> {
    if haps == [] then []
    else
      var hap := haps[|haps| - 1];
      SharedSupport(haps[..|haps| - 1], prefix) + if hap.isLibIsolated then [] else SupportPaths(hap.supportDirs, prefix)
  }

  function DefaultPaths(bundle: Bundle): seq<string> {
    (if bundle.quickFixPath == "" then [] else [Joined(LOCAL_CODE_PATH, bundle.quickFixPath)])
    + if bundle.nativeLibraryPath == "" then []
      else
        var path := Joined(LOCAL_CODE_PATH, Trimmed(bundle.nativeLibraryPath));
        [path] + SharedSupport(bundle.haps, path)
  }

  function Trimmed(path: string): string {
    if EndsWith(path, "/") then path[..|path| - 1] else path
  }

  function DefaultWrites(bundle: Bundle): seq<Write> {
    [Abc("default", "default")] + LibWrites("default", DefaultPaths(bundle))
  }

  function AllWrites(bundle: Bundle, hsps: seq<Hsp>): seq<Write> {
    DefaultWrites(bundle)
    + HapsWrites(bundle.haps, |bundle.haps|, bundle.quickFixPath)
    + HspsWrites(hsps, bundle.name)
  }

  // ---------------------------------------------------------------------------------------------
  // The helpers

  class PathTables {
    var appLibPaths: map<string, seq<string>>
    var abcPaths: map<string, string>

    function Now(): Tables
      reads this
    {
      Tables(appLibPaths, abcPaths)
    }

    method EmplaceBack(key: string, path: string)
      modifies this
      ensures Now() == After(old(Now()), [Lib(key, path)])
    {
      assert [Lib(key, path)][..0] == [];
      appLibPaths := appLibPaths[key := (if key in appLibPaths then appLibPaths[key] else []) + [path]];
    }

    method SetAbcPath(abcPath: string, key: string)
      modifies this
      ensures Now() == After(old(Now()), [Abc(abcPath, key)])
    {
      assert [Abc(abcPath, key)][..0] == [];
      abcPaths := abcPaths[abcPath := key];
    }

    method TraverseLibrarySupportDirectory(dirs: seq<string>, prefix: string, key: string)
      modifies this
      ensures Now() == After(old(Now()), LibWrites(key, SupportPaths(dirs, prefix)))
    {
      ghost var all := LibWrites(key, SupportPaths(dirs, prefix));
      for i := 0 to |dirs|
        invariant Now() == After(old(Now()), all[..i])
      {
        AfterBoth(old(Now()), all[..i], [Lib(key, prefix + "/" + dirs[i])]);
        assert all[..i + 1] == all[..i] + [Lib(key, prefix + "/" + dirs[i])];
        EmplaceBack(key, prefix + "/" + dirs[i]);
      }
      assert all[..|dirs|] == all;
    }

    /** The path itself, then its support directories. */
    method AddLibrary(path: string, dirs: seq<string>, key: string)
      modifies this
      ensures Now() == After(old(Now()), LibWrites(key, WithSupport(path, dirs)))
    {
      EmplaceBack(key, path);
      if dirs != [] {
        TraverseLibrarySupportDirectory(dirs, path, key);
      }
      ghost var rest := LibWrites(key, SupportPaths(dirs, path));
      assert dirs == [] ==> rest == [];
      AfterBoth(old(Now()), [Lib(key, path)], rest);
      assert LibWrites(key, WithSupport(path, dirs)) == [Lib(key, path)] + rest;
    }

    method GetEtsHapSoPath(hap: Hap, isPreInstallApp: bool)
      modifies this
      ensures var key := Key(hap.bundleName, hap.moduleName);
              Now() == After(old(Now()), ModuleWrites(key, OwnPaths(hap, isPreInstallApp), AbcPath(hap.moduleName)))
    {
      if hap.nativeLibraryPath == "" {
        return;
      }
      var key := hap.bundleName + "/" + hap.moduleName;
      var libPath := LOCAL_CODE_PATH;
      if !hap.compressNativeLibs {
        libPath := EtsLibPath(hap.hapPath, isPreInstallApp);
      }
      libPath := Joined(libPath, hap.nativeLibraryPath);
      AddLibrary(libPath, hap.supportDirs, key);
      SetAbcPath(AbcPath(hap.moduleName), key);
      AfterBoth(old(Now()), LibWrites(key, OwnPaths(hap, isPreInstallApp)), [Abc(AbcPath(hap.moduleName), key)]);
    }

    method GetEtsHspNativeLibPath(hsp: Hsp, isPreInstallApp: bool, appName: string)
      modifies this
      ensures Now() == After(old(Now()), HspWrites(hsp, isPreInstallApp, appName))
    {
      if hsp.nativeLibraryPath == "" {
        return;
      }
      var key := hsp.bundleName + "/" + hsp.moduleName;
      var libPath := LOCAL_CODE_PATH;
      if !hsp.compressNativeLibs {
        libPath := EtsLibPath(hsp.hapPath, isPreInstallApp);
        libPath := if EndsWith(libPath, "/") then libPath else libPath + "/";
        if isPreInstallApp {
          libPath := libPath + hsp.nativeLibraryPath;
        } else {
          libPath := libPath + (hsp.bundleName + "/" + hsp.moduleName + "/" + hsp.nativeLibraryPath);
        }
      } else {
        libPath := if EndsWith(libPath, "/") then libPath else libPath + "/";
        libPath := libPath + (hsp.bundleName + "/" + hsp.nativeLibraryPath);
      }
      assert libPath == HspLibPath(hsp, isPreInstallApp);
      AddLibrary(libPath, hsp.supportDirs, key);
      if appName != "" {
        var isInternalHsp := hsp.bundleName == appName;
        var name := if isInternalHsp then hsp.moduleName else hsp.bundleName + "/" + hsp.moduleName;
        SetAbcPath(AbcPath(name), key);
        AfterBoth(old(Now()), LibWrites(key, HspPaths(hsp, isPreInstallApp)), [Abc(AbcPath(name), key)]);
      }
    }

    method GetEtsPatchNativeLibPath(hap: Hap, patch: string) returns (carried: string)
      modifies this
      ensures carried == NextPatch(hap, patch)
      ensures var key := Key(hap.bundleName, hap.moduleName);
              Now() == After(old(Now()), ModuleWrites(key, PatchPaths(hap, carried), AbcPath(hap.moduleName)))
    {
      carried := patch;
      if hap.isLibIsolated {
        carried := hap.hqfPath;
      }
      if carried == "" {
        return;
      }
      if hap.compressNativeLibs && !hap.isLibIsolated {
        return;
      }
      var key := hap.bundleName + "/" + hap.moduleName;
      var patchLibPath := Joined(LOCAL_CODE_PATH, carried);
      AddLibrary(patchLibPath, hap.supportDirs, key);
      SetAbcPath(AbcPath(hap.moduleName), key);
      AfterBoth(old(Now()), LibWrites(key, PatchPaths(hap, carried)), [Abc(AbcPath(hap.moduleName), key)]);
    }

    method GetLibrarySupportDirectory(haps: seq<Hap>, nativeLibraryPath: string)
      modifies this
      ensures Now() == After(old(Now()), LibWrites("default", SharedSupport(haps, Joined(LOCAL_CODE_PATH, nativeLibraryPath))))
    {
      var libPath := Joined(LOCAL_CODE_PATH, nativeLibraryPath);
      for i := 0 to |haps|
        invariant Now() == After(old(Now()), LibWrites("default", SharedSupport(haps[..i], libPath)))
      {
        assert haps[..i + 1][..i] == haps[..i];
        var hap := haps[i];
        if hap.supportDirs == [] || hap.isLibIsolated {
          assert SharedSupport(haps[..i + 1], libPath) == SharedSupport(haps[..i], libPath);
          continue;
        }
        TraverseLibrarySupportDirectory(hap.supportDirs, libPath, "default");
        LibWritesBoth("default", SharedSupport(haps[..i], libPath), SupportPaths(hap.supportDirs, libPath));
        AfterBoth(old(Now()), LibWrites("default", SharedSupport(haps[..i], libPath)),
                  LibWrites("default", SupportPaths(hap.supportDirs, libPath)));
      }
      assert haps[..|haps|] == haps;
    }

    /** The part of `GetEtsNativeLibPath` before its loops. */
    method AddDefaults(bundle: Bundle)
      modifies this
      ensures Now() == After(old(Now()), DefaultWrites(bundle))
    {
      hide Joined, After;
      SetAbcPath("default", "default");
      ghost var done := [];
      assert [Abc("default", "default")] + LibWrites("default", done) == [Abc("default", "default")];
      if bundle.quickFixPath != "" {
        var patchLibPath := Joined(LOCAL_CODE_PATH, bundle.quickFixPath);
        EmplaceBack("default", patchLibPath);
        done := AddedDefault(old(Now()), done, [patchLibPath]);
      }
      var nativeLibraryPath := bundle.nativeLibraryPath;
      if nativeLibraryPath != "" {
        if EndsWith(nativeLibraryPath, "/") {
          nativeLibraryPath := nativeLibraryPath[..|nativeLibraryPath| - 1];
        }
        var libPath := Joined(LOCAL_CODE_PATH, nativeLibraryPath);
        EmplaceBack("default", libPath);
        done := AddedDefault(old(Now()), done, [libPath]);
        GetLibrarySupportDirectory(bundle.haps, nativeLibraryPath);
        done := AddedDefault(old(Now()), done, SharedSupport(bundle.haps, libPath));
      }
      assert done == DefaultPaths(bundle);
    }

    method GetEtsNativeLibPath(bundle: Bundle, hspList: seq<Hsp>)
      modifies this
      ensures Now() == After(old(Now()), AllWrites(bundle, hspList))
    {
      hide After, DefaultWrites, HapWrites, HspWrites;
      var patch := bundle.quickFixPath;
      AddDefaults(bundle);
      ghost var defaults := Now();
      NoWrites(defaults);
      for i := 0 to |bundle.haps|
        invariant patch == PatchAfter(bundle.haps, i, bundle.quickFixPath)
        invariant Now() == After(defaults, HapsWrites(bundle.haps, i, bundle.quickFixPath))
      {
        patch := AddHap(bundle.haps[i], patch);
        AfterBoth(defaults, HapsWrites(bundle.haps, i, bundle.quickFixPath), HapWrites(bundle.haps[i], patch));
      }
      ghost var modules := Now();
      NoWrites(modules);
      for i := 0 to |hspList|
        invariant Now() == After(modules, HspsWrites(hspList[..i], bundle.name))
      {
        assert hspList[..i + 1][..i] == hspList[..i];
        var hsp := hspList[i];
        GetEtsHspNativeLibPath(hsp, FindText(hsp.hapPath, ABS_CODE_PATH, 0) != 0, bundle.name);
        AfterBoth(modules, HspsWrites(hspList[..i], bundle.name), HspTurn(hsp, bundle.name));
      }
      assert hspList[..|hspList|] == hspList;
      ghost var haps := HapsWrites(bundle.haps, |bundle.haps|, bundle.quickFixPath);
      AfterBoth(old(Now()), DefaultWrites(bundle), haps);
      AfterBoth(old(Now()), DefaultWrites(bundle) + haps, HspsWrites(hspList, bundle.name));
    }

    /** One turn of the loop over the haps. */
    method AddHap(hap: Hap, patch: string) returns (carried: string)
      modifies this
      ensures carried == NextPatch(hap, patch)
      ensures Now() == After(old(Now()), HapWrites(hap, carried))
    {
      carried := GetEtsPatchNativeLibPath(hap, patch);
      GetEtsHapSoPath(hap, FindText(hap.hapPath, ABS_CODE_PATH, 0) != 0);
      ghost var key := Key(hap.bundleName, hap.moduleName);
      AfterBoth(old(Now()), ModuleWrites(key, PatchPaths(hap, carried), AbcPath(hap.moduleName)),
                ModuleWrites(key, OwnPaths(hap, IsPreInstall(hap.hapPath)), AbcPath(hap.moduleName)));
    }
  }

  lemma LibWritesBoth(key: string, a: seq<string>, b: seq<string>)
    ensures LibWrites(key, a + b) == LibWrites(key, a) + LibWrites(key, b)
  {
  }

  lemma NoWrites(t: Tables)
    ensures After(t, []) == t
  {
  }

  lemma AddedDefault(t: Tables, paths: seq<string>, more: seq<string>) returns (all: seq<string>)
    ensures all == paths + more
    ensures After(After(t, [Abc("default", "default")] + LibWrites("default", paths)), LibWrites("default", more))
            == After(t, [Abc("default", "default")] + LibWrites("default", all))
    ensures forall path :: more == [path] ==> LibWrites("default", more) == [Lib("default", path)]
  {
    all := paths + more;
    LibWritesBoth("default", paths, more);
    var head := [Abc("default", "default")];
    AfterBoth(t, head + LibWrites("default", paths), LibWrites("default", more));
    assert head + LibWrites("default", paths) + LibWrites("default", more) == head + LibWrites("default", all);
  }
}
