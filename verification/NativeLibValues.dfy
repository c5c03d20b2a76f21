/**
  The paths and entries themselves: what stands in the tables of `GetEtsNativeLibPath`, written out from
  the fields of the bundle.
*/
module NativeLibValues {
  import opened Text
  import opened NativeLibPaths
  import opened NativeLibTheorems

  // ---------------------------------------------------------------------------------------------
  // Directories and joined names, as text

  /** `dir` is the directory of the package, or the whole path when it has no slash. */
  predicate DirectoryOf(hapPath: string, dir: string) {
    if '/' in hapPath
    then |dir| < |hapPath| && hapPath[..|dir|] == dir && hapPath[|dir|] == '/' && '/' !in hapPath[|dir| + 1..]
    else dir == hapPath
  }

  lemma HasDirectory(hapPath: string)
    ensures exists dir :: DirectoryOf(hapPath, dir)
  {
    var pos := RFind(hapPath, '/');
    if pos == -1 {
      assert DirectoryOf(hapPath, hapPath);
    } else {
      assert DirectoryOf(hapPath, hapPath[..pos]);
    }
  }

  /** A name below a directory, with one slash in between. */
  function Below(dir: string, name: string): string {
    if dir != "" && dir[|dir| - 1] == '/' then dir + name else dir + "/" + name
  }

  /** A library path, then its support directories. */
  function Entries(path: string, dirs: seq<string>): seq<string> {
    [path] + seq(|dirs|, i requires 0 <= i < |dirs| => path + "/" + dirs[i])
  }

  lemma JoinedIsBelow(dir: string, name: string)
    ensures Joined(dir, name) == Below(dir, name)
  {
    assert dir != "" ==> dir[|dir| - 1..] == [dir[|dir| - 1]];
    assert EndsWith(dir, "/") <==> dir != "" && dir[|dir| - 1] == '/';
  }

  lemma SandboxJoined(name: string)
    ensures Joined("/data/storage/el1/bundle", name) == "/data/storage/el1/bundle/" + name
  {
    var prefix := "/data/storage/el1/bundle";
    JoinedIsBelow(prefix, name);
    assert prefix[|prefix| - 1] == 'e';
    assert prefix + "/" == "/data/storage/el1/bundle/";
  }

  lemma PreInstallIs(hapPath: string)
    ensures IsPreInstall(hapPath) <==> !("/data/app/el1/bundle/public" <= hapPath)
  {
    var prefix := "/data/app/el1/bundle/public";
    if prefix <= hapPath {
      assert hapPath[0..|prefix|] == prefix;
      assert OccursAt(hapPath, prefix, 0);
    }
    assert FindText(hapPath, prefix, 0) == 0 ==> hapPath[0..|prefix|] == prefix;
  }

  lemma PreInstallDir(hapPath: string, dir: string)
    requires DirectoryOf(hapPath, dir)
    ensures EtsLibPath(hapPath, true) == dir
  {
    if '/' in hapPath {
      var pos := RFind(hapPath, '/');
      assert forall k :: |dir| < k < |hapPath| ==> hapPath[k] == hapPath[|dir| + 1..][k - |dir| - 1];
      assert pos == |dir|;
    }
  }

  // ---------------------------------------------------------------------------------------------
  // Haps

  /** An uncompressed hap that is not under the public code path keeps its libraries beside its package. */
  function HapLibrary(hap: Hap, dir: string): string {
    if !hap.compressNativeLibs && !("/data/app/el1/bundle/public" <= hap.hapPath) then Below(dir, hap.nativeLibraryPath)
    else "/data/storage/el1/bundle/" + hap.nativeLibraryPath
  }

  lemma OwnPathsAre(hap: Hap, dir: string)
    requires DirectoryOf(hap.hapPath, dir)
    ensures OwnPaths(hap, IsPreInstall(hap.hapPath))
            == if hap.nativeLibraryPath == "" then [] else Entries(HapLibrary(hap, dir), hap.supportDirs)
  {
    hide IsPreInstall, EtsLibPath, Joined, Below;
    PreInstallIs(hap.hapPath);
    PreInstallDir(hap.hapPath, dir);
    SandboxRoot(hap.hapPath);
    SandboxJoined(hap.nativeLibraryPath);
    JoinedIsBelow(dir, hap.nativeLibraryPath);
  }

  lemma SandboxRoot(hapPath: string)
    ensures EtsLibPath(hapPath, false) == "/data/storage/el1/bundle"
  {
  }

  lemma PatchPathsAre(hap: Hap, patch: string)
    ensures PatchPaths(hap, patch)
            == if patch == "" || (hap.compressNativeLibs && !hap.isLibIsolated) then []
               else Entries("/data/storage/el1/bundle/" + patch, hap.supportDirs)
  {
    hide Joined;
    SandboxJoined(patch);
  }

  /**
    The entries of a hap with distinct modules: the patch path that it carries below the sandbox, unless
    there is none or the hap is compressed and not isolated; then its own library path, in the sandbox or
    beside the package; each followed by its support directories.
  */
  lemma HapEntriesAre(t: Tables, bundle: Bundle, hsps: seq<Hsp>, i: nat, dir: string)
    requires i < |bundle.haps| && DistinctModules(bundle.haps, hsps) && DirectoryOf(bundle.haps[i].hapPath, dir)
    ensures var hap := bundle.haps[i];
            var key := hap.bundleName + "/" + hap.moduleName;
            var patch := Carried(bundle.haps, i, bundle.quickFixPath);
            Listed(After(t, AllWrites(bundle, hsps)).libs, key)
            == Listed(t.libs, key)
               + (if patch == "" || (hap.compressNativeLibs && !hap.isLibIsolated) then []
                  else Entries("/data/storage/el1/bundle/" + patch, hap.supportDirs))
               + (if hap.nativeLibraryPath == "" then [] else Entries(HapLibrary(hap, dir), hap.supportDirs))
  {
    hide AllWrites, After, PatchPaths, OwnPaths, IsPreInstall, DirectoryOf, DistinctModules;
    HapList(t, bundle, hsps, i);
    OwnPathsAre(bundle.haps[i], dir);
    PatchPathsAre(bundle.haps[i], Carried(bundle.haps, i, bundle.quickFixPath));
  }

  /** A package "dir/name" that was installed from outside the public code path, uncompressed. */
  lemma PreInstalledHap(hap: Hap, dir: string, name: string)
    requires hap.hapPath == dir + "/" + name && '/' !in name && dir != "" && dir[|dir| - 1] != '/'
    requires !("/data/app/el1/bundle/public" <= hap.hapPath) && !hap.compressNativeLibs
    ensures DirectoryOf(hap.hapPath, dir) && HapLibrary(hap, dir) == dir + "/" + hap.nativeLibraryPath
  {
    assert hap.hapPath[|dir| + 1..] == name;
    assert hap.hapPath[..|dir|] == dir && hap.hapPath[|dir|] == '/';
  }

  // ---------------------------------------------------------------------------------------------
  // Shared modules

  function HspLibrary(hsp: Hsp, dir: string): string {
    if hsp.compressNativeLibs then "/data/storage/el1/bundle/" + hsp.bundleName + "/" + hsp.nativeLibraryPath
    else if "/data/app/el1/bundle/public" <= hsp.hapPath then
      "/data/storage/el1/bundle/" + hsp.bundleName + "/" + hsp.moduleName + "/" + hsp.nativeLibraryPath
    else Below(dir, hsp.nativeLibraryPath)
  }

  lemma HspLibPathIs(hsp: Hsp, dir: string)
    requires DirectoryOf(hsp.hapPath, dir)
    ensures HspLibPath(hsp, IsPreInstall(hsp.hapPath)) == HspLibrary(hsp, dir)
  {
    hide IsPreInstall, EtsLibPath, Joined, Below;
    PreInstallIs(hsp.hapPath);
    PreInstallDir(hsp.hapPath, dir);
    SandboxRoot(hsp.hapPath);
    JoinedIsBelow(dir, hsp.nativeLibraryPath);
    var prefix := "/data/storage/el1/bundle/";
    var b, m, n := hsp.bundleName, hsp.moduleName, hsp.nativeLibraryPath;
    SandboxJoined(b + "/" + n);
    SandboxJoined(b + "/" + m + "/" + n);
    assert prefix + (b + "/" + n) == prefix + b + "/" + n;
    assert prefix + (b + "/" + m + "/" + n) == prefix + b + "/" + m + "/" + n;
  }

  lemma HspPathsAre(hsp: Hsp, dir: string)
    requires DirectoryOf(hsp.hapPath, dir)
    ensures HspPaths(hsp, IsPreInstall(hsp.hapPath))
            == if hsp.nativeLibraryPath == "" then [] else Entries(HspLibrary(hsp, dir), hsp.supportDirs)
  {
    hide IsPreInstall, HspLibPath, HspLibrary;
    HspLibPathIs(hsp, dir);
  }

  /** The entries of a shared module with distinct modules. */
  lemma HspEntriesAre(t: Tables, bundle: Bundle, hsps: seq<Hsp>, i: nat, dir: string)
    requires i < |hsps| && DistinctModules(bundle.haps, hsps) && DirectoryOf(hsps[i].hapPath, dir)
    ensures var hsp := hsps[i];
            var key := hsp.bundleName + "/" + hsp.moduleName;
            Listed(After(t, AllWrites(bundle, hsps)).libs, key)
            == Listed(t.libs, key)
               + (if hsp.nativeLibraryPath == "" then [] else Entries(HspLibrary(hsp, dir), hsp.supportDirs))
  {
    hide AllWrites, After, HspPaths, IsPreInstall, DirectoryOf, DistinctModules;
    HspList(t, bundle, hsps, i);
    HspPathsAre(hsps[i], dir);
  }

  // ---------------------------------------------------------------------------------------------
  // The default list

  /** The support directories of the haps that are not isolated, in order. */
  function SharedDirs(haps: seq<Hap>): seq<string> {
    if haps == [] then [] else (if haps[0].isLibIsolated then [] else haps[0].supportDirs) + SharedDirs(haps[1..])
  }

  lemma {:induction false} SharedDirsLast(haps: seq<Hap>)
    requires haps != []
    ensures var n := |haps| - 1;
            SharedDirs(haps) == SharedDirs(haps[..n]) + if haps[n].isLibIsolated then [] else haps[n].supportDirs
  {
    var n := |haps| - 1;
    if n > 0 {
      SharedDirsLast(haps[1..]);
      assert haps[1..][..n - 1] == haps[..n][1..];
    }
  }

  lemma {:induction false} SharedSupportIs(haps: seq<Hap>, path: string)
    ensures SharedSupport(haps, path) == seq(|SharedDirs(haps)|, i requires 0 <= i < |SharedDirs(haps)| => path + "/" + SharedDirs(haps)[i])
  {
    if haps != [] {
      var n := |haps| - 1;
      SharedSupportIs(haps[..n], path);
      SharedDirsLast(haps);
    }
  }

  /** The library path without one slash at its end. */
  function WithoutSlash(path: string): string {
    if path != "" && path[|path| - 1] == '/' then path[..|path| - 1] else path
  }

  lemma DefaultPathsAre(bundle: Bundle)
    ensures DefaultPaths(bundle)
            == (if bundle.quickFixPath == "" then [] else ["/data/storage/el1/bundle/" + bundle.quickFixPath])
               + if bundle.nativeLibraryPath == "" then []
                 else Entries("/data/storage/el1/bundle/" + WithoutSlash(bundle.nativeLibraryPath), SharedDirs(bundle.haps))
  {
    hide Joined, SharedSupport, SharedDirs;
    var path := bundle.nativeLibraryPath;
    assert path != "" ==> path[|path| - 1..] == [path[|path| - 1]];
    assert Trimmed(path) == WithoutSlash(path);
    SandboxJoined(bundle.quickFixPath);
    SandboxJoined(Trimmed(path));
    SharedSupportIs(bundle.haps, "/data/storage/el1/bundle/" + Trimmed(path));
  }

  /**
    The entries under "default": the patch of the application, then its library path and the support
    directories of every hap that is not isolated, all below the sandbox.
  */
  lemma DefaultEntriesAre(t: Tables, bundle: Bundle, hsps: seq<Hsp>)
    ensures Listed(After(t, AllWrites(bundle, hsps)).libs, "default")
            == Listed(t.libs, "default")
               + (if bundle.quickFixPath == "" then [] else ["/data/storage/el1/bundle/" + bundle.quickFixPath])
               + if bundle.nativeLibraryPath == "" then []
                 else Entries("/data/storage/el1/bundle/" + WithoutSlash(bundle.nativeLibraryPath), SharedDirs(bundle.haps))
  {
    hide AllWrites, After, DefaultPaths, SharedDirs, WithoutSlash, Entries;
    DefaultList(t, bundle, hsps);
    DefaultPathsAre(bundle);
  }

  // ---------------------------------------------------------------------------------------------
  // The abc entries

  /** One of the writes is the entry of the abc path. */
  predicate WritesAbc(ws: seq<Write>, p: string) {
    exists k :: 0 <= k < |ws| && ws[k].Abc? && ws[k].abcPath == p
  }

  lemma WritesAbcBoth(a: seq<Write>, b: seq<Write>, p: string)
    ensures WritesAbc(a + b, p) <==> WritesAbc(a, p) || WritesAbc(b, p)
  {
    var ws := a + b;
    if WritesAbc(a, p) {
      var k :| 0 <= k < |a| && a[k].Abc? && a[k].abcPath == p;
      assert ws[k] == a[k];
    }
    if WritesAbc(b, p) {
      var k :| 0 <= k < |b| && b[k].Abc? && b[k].abcPath == p;
      assert ws[|a| + k] == b[k];
    }
  }

  lemma ModuleWritesAbc(key: string, paths: seq<string>, abcPath: string, p: string)
    ensures WritesAbc(ModuleWrites(key, paths, abcPath), p) <==> paths != [] && p == abcPath
    ensures !WritesAbc(LibWrites(key, paths), p)
  {
    WritesAbcBoth(LibWrites(key, paths), [Abc(abcPath, key)], p);
    assert [Abc(abcPath, key)][0].Abc?;
  }

  /** Where the abc file of a module is found under this name. */
  function AbcFile(name: string): string {
    "/data/storage/el1/bundle/" + name + "/ets/modules_static.abc"
  }

  /** Hap `i` has a library path or uses a patch path. */
  predicate HapHasPaths(bundle: Bundle, i: nat)
    requires i < |bundle.haps|
  {
    var hap := bundle.haps[i];
    var patch := Carried(bundle.haps, i, bundle.quickFixPath);
    hap.nativeLibraryPath != "" || (patch != "" && !(hap.compressNativeLibs && !hap.isLibIsolated))
  }

  lemma HapWritesAbc(bundle: Bundle, i: nat, p: string)
    requires i < |bundle.haps|
    ensures WritesAbc(HapWrites(bundle.haps[i], Carried(bundle.haps, i, bundle.quickFixPath)), p)
            <==> HapHasPaths(bundle, i) && p == AbcFile(bundle.haps[i].moduleName)
  {
    var hap, patch := bundle.haps[i], Carried(bundle.haps, i, bundle.quickFixPath);
    var key, abcPath := Key(hap.bundleName, hap.moduleName), AbcPath(hap.moduleName);
    var own := OwnPaths(hap, IsPreInstall(hap.hapPath));
    PatchPathsAre(hap, patch);
    hide WritesAbc, ModuleWrites, PatchPaths, EtsLibPath, Joined, IsPreInstall, Carried;
    ModuleWritesAbc(key, PatchPaths(hap, patch), abcPath, p);
    ModuleWritesAbc(key, own, abcPath, p);
    WritesAbcBoth(ModuleWrites(key, PatchPaths(hap, patch), abcPath), ModuleWrites(key, own, abcPath), p);
  }

  ghost predicate HapFile(bundle: Bundle, n: nat, p: string)
    requires n <= |bundle.haps|
  {
    exists i: nat :: i < n && HapHasPaths(bundle, i) && p == AbcFile(bundle.haps[i].moduleName)
  }

  lemma {:induction false} HapsWriteAbc(bundle: Bundle, n: nat, p: string)
    requires n <= |bundle.haps|
    ensures WritesAbc(HapsWrites(bundle.haps, n, bundle.quickFixPath), p) <==> HapFile(bundle, n, p)
  {
    hide HapWrites, HapHasPaths, AbcFile, Carried;
    if n > 0 {
      hide WritesAbc;
      HapsWriteAbc(bundle, n - 1, p);
      HapWritesAbc(bundle, n - 1, p);
      WritesAbcBoth(HapsWrites(bundle.haps, n - 1, bundle.quickFixPath),
                    HapWrites(bundle.haps[n - 1], Carried(bundle.haps, n - 1, bundle.quickFixPath)), p);
    }
  }

  /** The name of a shared module's abc file: the module for an own one, otherwise bundle and module. */
  function FileName(hsp: Hsp, appName: string): string {
    if hsp.bundleName == appName then hsp.moduleName else hsp.bundleName + "/" + hsp.moduleName
  }

  lemma HspWritesAbc(hsp: Hsp, appName: string, p: string)
    ensures WritesAbc(HspTurn(hsp, appName), p)
            <==> hsp.nativeLibraryPath != "" && appName != "" && p == AbcFile(FileName(hsp, appName))
  {
    hide WritesAbc, ModuleWrites, HspLibPath, IsPreInstall;
    var paths := HspPaths(hsp, IsPreInstall(hsp.hapPath));
    ModuleWritesAbc(Key(hsp.bundleName, hsp.moduleName), paths, AbcPath(HspAbcName(hsp, appName)), p);
  }

  ghost predicate HspFile(hsps: seq<Hsp>, appName: string, p: string) {
    appName != "" && exists i: nat :: i < |hsps| && hsps[i].nativeLibraryPath != "" && p == AbcFile(FileName(hsps[i], appName))
  }

  lemma {:induction false} HspsWriteAbc(hsps: seq<Hsp>, appName: string, p: string)
    ensures WritesAbc(HspsWrites(hsps, appName), p) <==> HspFile(hsps, appName, p)
  {
    hide HspTurn, FileName, AbcFile;
    if hsps != [] {
      hide WritesAbc;
      var n := |hsps| - 1;
      HspsWriteAbc(hsps[..n], appName, p);
      HspWritesAbc(hsps[n], appName, p);
      WritesAbcBoth(HspsWrites(hsps[..n], appName), HspTurn(hsps[n], appName), p);
      assert forall i: nat :: i < n ==> hsps[..n][i] == hsps[i];
    }
  }

  lemma AllWriteAbc(bundle: Bundle, hsps: seq<Hsp>, p: string)
    ensures WritesAbc(AllWrites(bundle, hsps), p)
            <==> p == "default" || HapFile(bundle, |bundle.haps|, p) || HspFile(hsps, bundle.name, p)
  {
    hide WritesAbc, HapsWrites, HspsWrites, DefaultPaths, HapFile, HspFile;
    var haps := HapsWrites(bundle.haps, |bundle.haps|, bundle.quickFixPath);
    HapsWriteAbc(bundle, |bundle.haps|, p);
    HspsWriteAbc(hsps, bundle.name, p);
    WritesAbcBoth(DefaultWrites(bundle) + haps, HspsWrites(hsps, bundle.name), p);
    WritesAbcBoth(DefaultWrites(bundle), haps, p);
    WritesAbcBoth([Abc("default", "default")], LibWrites("default", DefaultPaths(bundle)), p);
    ModuleWritesAbc("default", DefaultPaths(bundle), "default", p);
    DefaultWritesAbc(p);
  }

  lemma DefaultWritesAbc(p: string)
    ensures WritesAbc([Abc("default", "default")], p) <==> p == "default"
  {
    assert [Abc("default", "default")][0].Abc?;
  }

  /** An entry that is written holds the module that its path stands for; any other is as it was. */
  lemma {:induction false} AbcAfter(t: Tables, ws: seq<Write>, appName: string, p: string)
    requires Determined(ws, appName)
    ensures var abcs := After(t, ws).abcs;
            if WritesAbc(ws, p) then p in abcs && abcs[p] == ModuleOf(p, appName)
            else (p in abcs <==> p in t.abcs) && (p in abcs ==> abcs[p] == t.abcs[p])
  {
    if ws != [] {
      hide ModuleOf, WritesAbc, Determined;
      var n := |ws| - 1;
      DeterminedBefore(ws, appName);
      AbcAfter(t, ws[..n], appName, p);
      WritesAbcLast(ws, p);
    }
  }

  lemma DeterminedBefore(ws: seq<Write>, appName: string)
    requires ws != [] && Determined(ws, appName)
    ensures var n := |ws| - 1;
            Determined(ws[..n], appName) && (ws[n].Abc? ==> ws[n].key == ModuleOf(ws[n].abcPath, appName))
  {
    hide ModuleOf;
  }

  lemma WritesAbcLast(ws: seq<Write>, p: string)
    requires ws != []
    ensures var n := |ws| - 1; WritesAbc(ws, p) <==> WritesAbc(ws[..n], p) || (ws[n].Abc? && ws[n].abcPath == p)
  {
    var n := |ws| - 1;
    assert ws == ws[..n] + [ws[n]];
    WritesAbcBoth(ws[..n], [ws[n]], p);
    assert [ws[n]][0] == ws[n];
  }

  /**
    With haps of the application and slash-free names of its own modules: an abc entry is made for every
    hap that has paths and every shared module that has a library, and leads to bundle and module; "default"
    leads to itself; every other entry is as it was.
  */
  lemma AbcEntriesAre(t: Tables, bundle: Bundle, hsps: seq<Hsp>)
    requires OwnNamesSlashFree(bundle, hsps)
    ensures var abcs := After(t, AllWrites(bundle, hsps)).abcs;
            && "default" in abcs && abcs["default"] == "default"
            && (forall i: nat :: i < |bundle.haps| && HapHasPaths(bundle, i) ==>
                  var p := AbcFile(bundle.haps[i].moduleName);
                  p in abcs && abcs[p] == bundle.name + "/" + bundle.haps[i].moduleName)
            && (forall i: nat :: i < |hsps| && hsps[i].nativeLibraryPath != "" && bundle.name != "" ==>
                  var p := AbcFile(FileName(hsps[i], bundle.name));
                  p in abcs && abcs[p] == hsps[i].bundleName + "/" + hsps[i].moduleName)
            && (forall p: string :: p != "default" && !HapFile(bundle, |bundle.haps|, p) && !HspFile(hsps, bundle.name, p) ==>
                  (p in abcs <==> p in t.abcs) && (p in abcs ==> abcs[p] == t.abcs[p]))
  {
    hide AllWrites, After, WritesAbc, Determined, HapHasPaths, Carried, AbcFile, ModuleOf, FileName;
    AbcWritesAgree(bundle, hsps);
    forall p: string
      ensures var abcs := After(t, AllWrites(bundle, hsps)).abcs;
              if WritesAbc(AllWrites(bundle, hsps), p) then p in abcs && abcs[p] == ModuleOf(p, bundle.name)
              else (p in abcs <==> p in t.abcs) && (p in abcs ==> abcs[p] == t.abcs[p])
      ensures WritesAbc(AllWrites(bundle, hsps), p)
              <==> p == "default" || HapFile(bundle, |bundle.haps|, p) || HspFile(hsps, bundle.name, p)
    {
      AbcAfter(t, AllWrites(bundle, hsps), bundle.name, p);
      AllWriteAbc(bundle, hsps, p);
    }
    DefaultModule(bundle.name);
    forall i: nat | i < |bundle.haps|
      ensures ModuleOf(AbcFile(bundle.haps[i].moduleName), bundle.name) == bundle.name + "/" + bundle.haps[i].moduleName
    {
      OwnModule(bundle.haps[i].moduleName, bundle.name);
    }
    forall i: nat | i < |hsps|
      ensures ModuleOf(AbcFile(FileName(hsps[i], bundle.name)), bundle.name) == hsps[i].bundleName + "/" + hsps[i].moduleName
    {
      SharedModule(hsps[i], bundle.name);
    }
  }

  lemma DefaultModule(appName: string)
    ensures ModuleOf("default", appName) == "default"
  {
  }

  lemma OwnModule(moduleName: string, appName: string)
    requires SlashFree(moduleName)
    ensures ModuleOf(AbcFile(moduleName), appName) == appName + "/" + moduleName
  {
    hide ModuleOf;
    NameOfAbcPath(moduleName, appName);
    assert AbcFile(moduleName) == AbcPath(moduleName);
  }

  lemma SharedModule(hsp: Hsp, appName: string)
    requires hsp.bundleName == appName ==> SlashFree(hsp.moduleName)
    ensures ModuleOf(AbcFile(FileName(hsp, appName)), appName) == hsp.bundleName + "/" + hsp.moduleName
  {
    hide ModuleOf;
    var name := FileName(hsp, appName);
    NameOfAbcPath(name, appName);
    assert AbcFile(name) == AbcPath(name);
    assert (hsp.bundleName + "/" + hsp.moduleName)[|hsp.bundleName|] == '/';
  }
}
