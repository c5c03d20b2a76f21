/** What the tables of `GetEtsNativeLibPath` hold, for every bundle, shared-module list and earlier tables. */
module NativeLibTheorems {
  import opened NativeLibPaths

  // ---------------------------------------------------------------------------------------------
  // The library lists

  /** The paths written for `key`, in order. */
  function Paths(ws: seq<Write>, key: string): seq<string> {
    if ws == [] then []
    else
      var last := ws[|ws| - 1];
      Paths(ws[..|ws| - 1], key) + if last.Lib? && last.key == key then [last.path] else []
  }

  lemma {:induction false} PathsBoth(a: seq<Write>, b: seq<Write>, key: string)
    ensures Paths(a + b, key) == Paths(a, key) + Paths(b, key)
  {
    if b == [] {
      assert a + b == a;
    } else {
      PathsBoth(a, b[..|b| - 1], key);
      assert (a + b)[..|a + b| - 1] == a + b[..|b| - 1];
    }
  }

  lemma NoPaths(key: string)
    ensures Paths([], key) == []
    ensures forall p: string, owner: string :: Paths([Abc(p, owner)], key) == []
  {
    forall p: string, owner: string ensures Paths([Abc(p, owner)], key) == [] {
      assert [Abc(p, owner)][..0] == [];
    }
  }

  lemma {:induction false} ListAfter(t: Tables, ws: seq<Write>, key: string)
    ensures Listed(After(t, ws).libs, key) == Listed(t.libs, key) + Paths(ws, key)
  {
    if ws != [] {
      ListAfter(t, ws[..|ws| - 1], key);
    }
  }

  lemma {:induction false} PathsOfLibs(owner: string, paths: seq<string>, key: string)
    ensures Paths(LibWrites(owner, paths), key) == if key == owner then paths else []
  {
    if paths != [] {
      var before := paths[..|paths| - 1];
      PathsOfLibs(owner, before, key);
      var ws := LibWrites(owner, paths);
      assert ws[..|ws| - 1] == LibWrites(owner, before);
      assert paths == before + [paths[|paths| - 1]];
    }
  }

  lemma PathsOfModule(owner: string, paths: seq<string>, abcPath: string, key: string)
    ensures Paths(ModuleWrites(owner, paths, abcPath), key) == if key == owner then paths else []
  {
    PathsOfLibs(owner, paths, key);
    PathsBoth(LibWrites(owner, paths), [Abc(abcPath, owner)], key);
  }

  function HapPaths(hap: Hap, patch: string): seq<string> {
    PatchPaths(hap, patch) + OwnPaths(hap, IsPreInstall(hap.hapPath))
  }

  lemma PathsOfHap(hap: Hap, patch: string, key: string)
    ensures Paths(HapWrites(hap, patch), key) == if key == Key(hap.bundleName, hap.moduleName) then HapPaths(hap, patch) else []
  {
    hide ModuleWrites, PatchPaths, OwnPaths, Paths;
    var owner := Key(hap.bundleName, hap.moduleName);
    var abcPath := AbcPath(hap.moduleName);
    var own := OwnPaths(hap, IsPreInstall(hap.hapPath));
    PathsOfModule(owner, PatchPaths(hap, patch), abcPath, key);
    PathsOfModule(owner, own, abcPath, key);
    PathsBoth(ModuleWrites(owner, PatchPaths(hap, patch), abcPath), ModuleWrites(owner, own, abcPath), key);
  }

  lemma PathsOfHsp(hsp: Hsp, appName: string, key: string)
    ensures Paths(HspTurn(hsp, appName), key)
            == if key == Key(hsp.bundleName, hsp.moduleName) then HspPaths(hsp, IsPreInstall(hsp.hapPath)) else []
  {
    hide ModuleWrites, HspPaths, Paths;
    var owner := Key(hsp.bundleName, hsp.moduleName);
    var paths := HspPaths(hsp, IsPreInstall(hsp.hapPath));
    PathsOfLibs(owner, paths, key);
    PathsOfModule(owner, paths, AbcPath(HspAbcName(hsp, appName)), key);
  }

  function HapKey(hap: Hap): string {
    Key(hap.bundleName, hap.moduleName)
  }

  function HspKey(hsp: Hsp): string {
    Key(hsp.bundleName, hsp.moduleName)
  }

  lemma {:induction false} NoHapPaths(haps: seq<Hap>, n: nat, patch: string, key: string)
    requires n <= |haps| && forall i :: 0 <= i < n ==> HapKey(haps[i]) != key
    ensures Paths(HapsWrites(haps, n, patch), key) == []
  {
    hide HapWrites, HapPaths, Key, Paths, Carried;
    NoPaths(key);
    if n > 0 {
      NoHapPaths(haps, n - 1, patch, key);
      PathsBoth(HapsWrites(haps, n - 1, patch), HapWrites(haps[n - 1], Carried(haps, n - 1, patch)), key);
      PathsOfHap(haps[n - 1], Carried(haps, n - 1, patch), key);
      assert HapKey(haps[n - 1]) != key;
    }
  }

  lemma {:induction false} OneHapPaths(haps: seq<Hap>, n: nat, patch: string, i: nat)
    requires i < n <= |haps| && forall j :: 0 <= j < n && j != i ==> HapKey(haps[j]) != HapKey(haps[i])
    ensures Paths(HapsWrites(haps, n, patch), HapKey(haps[i])) == HapPaths(haps[i], Carried(haps, i, patch))
  {
    hide HapWrites, HapPaths, Paths, Key, Carried;
    var key := HapKey(haps[i]);
    PathsBoth(HapsWrites(haps, n - 1, patch), HapWrites(haps[n - 1], Carried(haps, n - 1, patch)), key);
    PathsOfHap(haps[n - 1], Carried(haps, n - 1, patch), key);
    if i == n - 1 {
      NoHapPaths(haps, n - 1, patch, key);
    } else {
      OneHapPaths(haps, n - 1, patch, i);
      assert HapKey(haps[n - 1]) != key;
    }
  }

  lemma {:induction false} NoHspPaths(hsps: seq<Hsp>, appName: string, key: string)
    requires forall i :: 0 <= i < |hsps| ==> HspKey(hsps[i]) != key
    ensures Paths(HspsWrites(hsps, appName), key) == []
  {
    hide HspTurn, Paths, Key;
    NoPaths(key);
    if hsps != [] {
      var n := |hsps| - 1;
      NoHspPaths(hsps[..n], appName, key);
      PathsBoth(HspsWrites(hsps[..n], appName), HspTurn(hsps[n], appName), key);
      PathsOfHsp(hsps[n], appName, key);
      assert HspKey(hsps[n]) != key;
    }
  }

  lemma {:induction false} OneHspPaths(hsps: seq<Hsp>, appName: string, i: nat)
    requires i < |hsps| && forall j :: 0 <= j < |hsps| && j != i ==> HspKey(hsps[j]) != HspKey(hsps[i])
    ensures Paths(HspsWrites(hsps, appName), HspKey(hsps[i])) == HspPaths(hsps[i], IsPreInstall(hsps[i].hapPath))
  {
    hide HspTurn, HspPaths, Paths, Key;
    var n := |hsps| - 1;
    var key := HspKey(hsps[i]);
    PathsBoth(HspsWrites(hsps[..n], appName), HspTurn(hsps[n], appName), key);
    PathsOfHsp(hsps[n], appName, key);
    if i == n {
      NoHspPaths(hsps[..n], appName, key);
    } else {
      OneHspPaths(hsps[..n], appName, i);
      assert HspKey(hsps[n]) != key;
    }
  }

  predicate SlashFree(name: string) {
    '/' !in name
  }

  /** Slash-free bundle names make the key of a module unambiguous. */
  lemma KeyInjective(b1: string, m1: string, b2: string, m2: string)
    requires SlashFree(b1) && SlashFree(b2)
    ensures Key(b1, m1) == Key(b2, m2) <==> b1 == b2 && m1 == m2
  {
    var k1, k2 := Key(b1, m1), Key(b2, m2);
    assert k1[|b1|] == '/' && k2[|b2|] == '/';
    if k1 == k2 {
      assert forall i :: 0 <= i < |b1| ==> k1[i] == b1[i];
      assert forall i :: 0 <= i < |b2| ==> k2[i] == b2[i];
      assert |b1| == |b2|;
      assert b1 == k1[..|b1|] && b2 == k2[..|b2|];
      assert m1 == k1[|b1| + 1..] && m2 == k2[|b2| + 1..];
    }
  }

  lemma KeyIsNotDefault(bundleName: string, moduleName: string)
    ensures Key(bundleName, moduleName) != "default"
  {
    var key := Key(bundleName, moduleName);
    assert key[|bundleName|] == '/';
    assert '/' !in "default";
  }

  /** Modules are told apart by bundle and module name, and bundle names hold no slash. */
  predicate DistinctModules(haps: seq<Hap>, hsps: seq<Hsp>) {
    && (forall i :: 0 <= i < |haps| ==> SlashFree(haps[i].bundleName))
    && (forall i :: 0 <= i < |hsps| ==> SlashFree(hsps[i].bundleName))
    && (forall i, j :: 0 <= i < j < |haps| ==>
          (haps[i].bundleName, haps[i].moduleName) != (haps[j].bundleName, haps[j].moduleName))
    && (forall i, j :: 0 <= i < j < |hsps| ==>
          (hsps[i].bundleName, hsps[i].moduleName) != (hsps[j].bundleName, hsps[j].moduleName))
    && (forall i, j :: 0 <= i < |haps| && 0 <= j < |hsps| ==>
          (haps[i].bundleName, haps[i].moduleName) != (hsps[j].bundleName, hsps[j].moduleName))
  }

  lemma PathsOfAll(bundle: Bundle, hsps: seq<Hsp>, key: string)
    ensures Paths(AllWrites(bundle, hsps), key)
            == (if key == "default" then DefaultPaths(bundle) else [])
               + Paths(HapsWrites(bundle.haps, |bundle.haps|, bundle.quickFixPath), key)
               + Paths(HspsWrites(hsps, bundle.name), key)
  {
    hide HapsWrites, HspsWrites, DefaultPaths, Paths;
    NoPaths(key);
    var haps := HapsWrites(bundle.haps, |bundle.haps|, bundle.quickFixPath);
    PathsBoth(DefaultWrites(bundle) + haps, HspsWrites(hsps, bundle.name), key);
    PathsBoth(DefaultWrites(bundle), haps, key);
    PathsBoth([Abc("default", "default")], LibWrites("default", DefaultPaths(bundle)), key);
    PathsOfLibs("default", DefaultPaths(bundle), key);
  }

  /**
    The list of a module is extended by its patch path and the patch support directories, then its
    own path and support directories; the patch path is the carried one.
  */
  lemma HapList(t: Tables, bundle: Bundle, hsps: seq<Hsp>, i: nat)
    requires i < |bundle.haps| && DistinctModules(bundle.haps, hsps)
    ensures Listed(After(t, AllWrites(bundle, hsps)).libs, HapKey(bundle.haps[i]))
            == Listed(t.libs, HapKey(bundle.haps[i]))
               + PatchPaths(bundle.haps[i], Carried(bundle.haps, i, bundle.quickFixPath))
               + OwnPaths(bundle.haps[i], IsPreInstall(bundle.haps[i].hapPath))
  {
    hide AllWrites, PatchPaths, OwnPaths, IsPreInstall, After, HapsWrites, HspsWrites;
    var haps, hap := bundle.haps, bundle.haps[i];
    forall j | 0 <= j < |haps| && j != i ensures HapKey(haps[j]) != HapKey(hap) {
      KeyInjective(haps[j].bundleName, haps[j].moduleName, hap.bundleName, hap.moduleName);
    }
    forall j | 0 <= j < |hsps| ensures HspKey(hsps[j]) != HapKey(hap) {
      KeyInjective(hsps[j].bundleName, hsps[j].moduleName, hap.bundleName, hap.moduleName);
    }
    KeyIsNotDefault(hap.bundleName, hap.moduleName);
    ListAfter(t, AllWrites(bundle, hsps), HapKey(hap));
    PathsOfAll(bundle, hsps, HapKey(hap));
    OneHapPaths(haps, |haps|, bundle.quickFixPath, i);
    NoHspPaths(hsps, bundle.name, HapKey(hap));
  }

  /** The list of a shared module is extended by its library path and support directories. */
  lemma HspList(t: Tables, bundle: Bundle, hsps: seq<Hsp>, i: nat)
    requires i < |hsps| && DistinctModules(bundle.haps, hsps)
    ensures Listed(After(t, AllWrites(bundle, hsps)).libs, HspKey(hsps[i]))
            == Listed(t.libs, HspKey(hsps[i])) + HspPaths(hsps[i], IsPreInstall(hsps[i].hapPath))
  {
    hide AllWrites, HspPaths, IsPreInstall, After, HapsWrites, HspsWrites;
    var haps, hsp := bundle.haps, hsps[i];
    forall j | 0 <= j < |haps| ensures HapKey(haps[j]) != HspKey(hsp) {
      KeyInjective(haps[j].bundleName, haps[j].moduleName, hsp.bundleName, hsp.moduleName);
    }
    forall j | 0 <= j < |hsps| && j != i ensures HspKey(hsps[j]) != HspKey(hsp) {
      KeyInjective(hsps[j].bundleName, hsps[j].moduleName, hsp.bundleName, hsp.moduleName);
    }
    KeyIsNotDefault(hsp.bundleName, hsp.moduleName);
    ListAfter(t, AllWrites(bundle, hsps), HspKey(hsp));
    PathsOfAll(bundle, hsps, HspKey(hsp));
    OneHspPaths(hsps, bundle.name, i);
    NoHapPaths(haps, |haps|, bundle.quickFixPath, HspKey(hsp));
  }

  /** The default list is extended by the patch of the application first, and by nothing of a module. */
  lemma DefaultList(t: Tables, bundle: Bundle, hsps: seq<Hsp>)
    ensures Listed(After(t, AllWrites(bundle, hsps)).libs, "default") == Listed(t.libs, "default") + DefaultPaths(bundle)
    ensures bundle.quickFixPath != "" ==>
              DefaultPaths(bundle) != [] && DefaultPaths(bundle)[0] == Joined(LOCAL_CODE_PATH, bundle.quickFixPath)
  {
    hide AllWrites, After, HapsWrites, HspsWrites;
    forall j | 0 <= j < |bundle.haps| ensures HapKey(bundle.haps[j]) != "default" {
      KeyIsNotDefault(bundle.haps[j].bundleName, bundle.haps[j].moduleName);
    }
    forall j | 0 <= j < |hsps| ensures HspKey(hsps[j]) != "default" {
      KeyIsNotDefault(hsps[j].bundleName, hsps[j].moduleName);
    }
    ListAfter(t, AllWrites(bundle, hsps), "default");
    PathsOfAll(bundle, hsps, "default");
    NoHspPaths(hsps, bundle.name, "default");
    NoHapPaths(bundle.haps, |bundle.haps|, bundle.quickFixPath, "default");
  }

  /** Hap `j` is the nearest isolated one at or before `i`. */
  predicate IsNearest(haps: seq<Hap>, i: nat, j: nat) {
    j <= i < |haps| && haps[j].isLibIsolated && forall k :: j < k <= i ==> !haps[k].isLibIsolated
  }

  /** At a hap that is not isolated, the nearest isolated one is the nearest of the hap before. */
  lemma NearestBefore(haps: seq<Hap>, h: nat, j: nat)
    requires h + 1 < |haps| && !haps[h + 1].isLibIsolated
    ensures IsNearest(haps, h + 1, j) <==> IsNearest(haps, h, j)
  {
  }

  lemma {:induction false} CarriedFromNearest(haps: seq<Hap>, i: nat, j: nat, patch: string)
    requires IsNearest(haps, i, j)
    ensures Carried(haps, i, patch) == haps[j].hqfPath
  {
    if j < i {
      NearestBefore(haps, i - 1, j);
      CarriedFromNearest(haps, i - 1, j, patch);
    }
  }

  predicate NoneIsolated(haps: seq<Hap>, i: nat)
    requires i < |haps|
  {
    forall j :: 0 <= j <= i ==> !haps[j].isLibIsolated
  }

  lemma {:induction false} NearestOrNone(haps: seq<Hap>, i: nat)
    requires i < |haps|
    ensures NoneIsolated(haps, i) || exists j: nat :: IsNearest(haps, i, j)
  {
    if haps[i].isLibIsolated {
      assert IsNearest(haps, i, i);
    } else if i > 0 {
      var h: nat := i - 1;
      NearestOrNone(haps, h);
      if !NoneIsolated(haps, h) {
        var j: nat :| IsNearest(haps, h, j);
        NearestBefore(haps, h, j);
      }
    }
  }

  lemma {:induction false} CarriedFromNone(haps: seq<Hap>, i: nat, patch: string)
    requires i < |haps| && NoneIsolated(haps, i)
    ensures Carried(haps, i, patch) == patch
  {
    if i > 0 { CarriedFromNone(haps, i - 1, patch); }
  }

  /** The carried patch path is that of the nearest isolated hap at or before, else the application's. */
  lemma CarriedIsNearest(haps: seq<Hap>, i: nat, patch: string)
    requires i < |haps|
    ensures forall j: nat :: IsNearest(haps, i, j) ==> Carried(haps, i, patch) == haps[j].hqfPath
    ensures NoneIsolated(haps, i) || exists j: nat :: IsNearest(haps, i, j)
    ensures NoneIsolated(haps, i) ==> Carried(haps, i, patch) == patch
  {
    hide Carried, NoneIsolated;
    NearestOrNone(haps, i);
    forall j: nat | IsNearest(haps, i, j) ensures Carried(haps, i, patch) == haps[j].hqfPath {
      CarriedFromNearest(haps, i, j, patch);
    }
    if NoneIsolated(haps, i) { CarriedFromNone(haps, i, patch); }
  }

  // ---------------------------------------------------------------------------------------------
  // Abc entries lead to non-empty lists

  predicate Backed(t: Tables) {
    forall p <- t.abcs :: t.abcs[p] == "default" || Listed(t.libs, t.abcs[p]) != []
  }

  lemma {:induction false} BackedLibs(t: Tables, key: string, paths: seq<string>)
    requires Backed(t)
    ensures Backed(After(t, LibWrites(key, paths)))
  {
    if paths != [] {
      var n := |paths| - 1;
      BackedLibs(t, key, paths[..n]);
      var ws := LibWrites(key, paths);
      assert ws[..n] == LibWrites(key, paths[..n]);
    }
  }

  lemma BackedModule(t: Tables, key: string, paths: seq<string>, abcPath: string)
    requires Backed(t)
    ensures Backed(After(t, ModuleWrites(key, paths, abcPath)))
  {
    if paths != [] {
      var u := After(t, LibWrites(key, paths));
      BackedLibs(t, key, paths);
      ListAfter(t, LibWrites(key, paths), key);
      PathsOfLibs(key, paths, key);
      AfterBoth(t, LibWrites(key, paths), [Abc(abcPath, key)]);
      OneWrite(u, Abc(abcPath, key));
    }
  }

  lemma OneWrite(t: Tables, w: Write)
    ensures After(t, [w]) == Put(t, w)
  {
    assert [w][..0] == [];
  }

  lemma {:induction false} BackedHaps(t: Tables, haps: seq<Hap>, n: nat, patch: string)
    requires Backed(t) && n <= |haps|
    ensures Backed(After(t, HapsWrites(haps, n, patch)))
  {
    hide Backed, HapWrites, After;
    NoWrites(t);
    if n > 0 {
      var hap, carried := haps[n - 1], Carried(haps, n - 1, patch);
      BackedHaps(t, haps, n - 1, patch);
      AfterBoth(t, HapsWrites(haps, n - 1, patch), HapWrites(hap, carried));
      BackedHap(After(t, HapsWrites(haps, n - 1, patch)), hap, carried);
    }
  }

  lemma BackedHap(t: Tables, hap: Hap, patch: string)
    requires Backed(t)
    ensures Backed(After(t, HapWrites(hap, patch)))
  {
    hide Backed, ModuleWrites, PatchPaths, OwnPaths, After;
    var key, abcPath := Key(hap.bundleName, hap.moduleName), AbcPath(hap.moduleName);
    var own := OwnPaths(hap, IsPreInstall(hap.hapPath));
    BackedModule(t, key, PatchPaths(hap, patch), abcPath);
    BackedModule(After(t, ModuleWrites(key, PatchPaths(hap, patch), abcPath)), key, own, abcPath);
    AfterBoth(t, ModuleWrites(key, PatchPaths(hap, patch), abcPath), ModuleWrites(key, own, abcPath));
  }

  lemma {:induction false} BackedHsps(t: Tables, hsps: seq<Hsp>, appName: string)
    requires Backed(t)
    ensures Backed(After(t, HspsWrites(hsps, appName)))
  {
    if hsps != [] {
      hide Backed, ModuleWrites, HspPaths;
      var n := |hsps| - 1;
      BackedHsps(t, hsps[..n], appName);
      AfterBoth(t, HspsWrites(hsps[..n], appName), HspTurn(hsps[n], appName));
      var u := After(t, HspsWrites(hsps[..n], appName));
      var paths := HspPaths(hsps[n], IsPreInstall(hsps[n].hapPath));
      BackedLibs(u, HspKey(hsps[n]), paths);
      BackedModule(u, HspKey(hsps[n]), paths, AbcPath(HspAbcName(hsps[n], appName)));
    }
  }

  /** Every abc entry other than the default one leads to a module with a non-empty list. */
  lemma AbcEntriesAreBacked(t: Tables, bundle: Bundle, hsps: seq<Hsp>)
    requires Backed(t)
    ensures Backed(After(t, AllWrites(bundle, hsps)))
  {
    hide Backed, HapsWrites, HspsWrites, After, DefaultPaths;
    var haps := HapsWrites(bundle.haps, |bundle.haps|, bundle.quickFixPath);
    BackedDefault(t, bundle);
    BackedHaps(After(t, DefaultWrites(bundle)), bundle.haps, |bundle.haps|, bundle.quickFixPath);
    AfterBoth(t, DefaultWrites(bundle), haps);
    BackedHsps(After(t, DefaultWrites(bundle) + haps), hsps, bundle.name);
    AfterBoth(t, DefaultWrites(bundle) + haps, HspsWrites(hsps, bundle.name));
  }

  lemma BackedDefault(t: Tables, bundle: Bundle)
    requires Backed(t)
    ensures Backed(After(t, DefaultWrites(bundle)))
  {
    hide DefaultPaths;
    var w := Abc("default", "default");
    OneWrite(t, w);
    BackedLibs(After(t, [w]), "default", DefaultPaths(bundle));
    AfterBoth(t, [w], LibWrites("default", DefaultPaths(bundle)));
  }

  // ---------------------------------------------------------------------------------------------
  // One value per abc path

  /** The module an abc path stands for: a path with a bundle names it, any other is the application's. */
  function ModuleOf(abcPath: string, appName: string): string {
    if |abcPath| < |ABC_PREFIX| + |ABC_SUFFIX| then "default"
    else
      var name := abcPath[|ABC_PREFIX|..|abcPath| - |ABC_SUFFIX|];
      if SlashFree(name) then Key(appName, name) else name
  }

  /** Every abc entry written is the module its path stands for. */
  predicate Determined(ws: seq<Write>, appName: string) {
    forall i :: 0 <= i < |ws| && ws[i].Abc? ==> ws[i].key == ModuleOf(ws[i].abcPath, appName)
  }

  lemma NameOfAbcPath(name: string, appName: string)
    ensures ModuleOf(AbcPath(name), appName) == if SlashFree(name) then Key(appName, name) else name
  {
    var p := AbcPath(name);
    assert p[|ABC_PREFIX|..|p| - |ABC_SUFFIX|] == name;
  }

  /** The haps are the application's own and its own modules have slash-free names. */
  predicate OwnNamesSlashFree(bundle: Bundle, hsps: seq<Hsp>) {
    && (forall i :: 0 <= i < |bundle.haps| ==> bundle.haps[i].bundleName == bundle.name && SlashFree(bundle.haps[i].moduleName))
    && (forall i :: 0 <= i < |hsps| && hsps[i].bundleName == bundle.name ==> SlashFree(hsps[i].moduleName))
  }

  lemma DeterminedModule(key: string, paths: seq<string>, abcPath: string, appName: string)
    requires key == ModuleOf(abcPath, appName)
    ensures Determined(ModuleWrites(key, paths, abcPath), appName)
  {
  }

  lemma DeterminedBoth(a: seq<Write>, b: seq<Write>, appName: string)
    requires Determined(a, appName) && Determined(b, appName)
    ensures Determined(a + b, appName)
  {
    hide ModuleOf;
  }

  lemma DeterminedHap(hap: Hap, patch: string)
    requires SlashFree(hap.moduleName)
    ensures Determined(HapWrites(hap, patch), hap.bundleName)
  {
    hide ModuleWrites, PatchPaths, OwnPaths;
    NameOfAbcPath(hap.moduleName, hap.bundleName);
    var key, abcPath := Key(hap.bundleName, hap.moduleName), AbcPath(hap.moduleName);
    DeterminedModule(key, PatchPaths(hap, patch), abcPath, hap.bundleName);
    DeterminedModule(key, OwnPaths(hap, IsPreInstall(hap.hapPath)), abcPath, hap.bundleName);
  }

  lemma DeterminedHsp(hsp: Hsp, appName: string)
    requires hsp.bundleName == appName ==> SlashFree(hsp.moduleName)
    ensures Determined(HspTurn(hsp, appName), appName)
  {
    hide ModuleWrites, HspPaths;
    NameOfAbcPath(HspAbcName(hsp, appName), appName);
    assert Key(hsp.bundleName, hsp.moduleName)[|hsp.bundleName|] == '/';
    DeterminedModule(HspKey(hsp), HspPaths(hsp, IsPreInstall(hsp.hapPath)), AbcPath(HspAbcName(hsp, appName)), appName);
  }

  lemma {:induction false} DeterminedHaps(bundle: Bundle, n: nat)
    requires n <= |bundle.haps| && OwnNamesSlashFree(bundle, [])
    ensures Determined(HapsWrites(bundle.haps, n, bundle.quickFixPath), bundle.name)
  {
    hide HapWrites, SlashFree;
    if n > 0 {
      hide Determined;
      var carried := Carried(bundle.haps, n - 1, bundle.quickFixPath);
      DeterminedHaps(bundle, n - 1);
      DeterminedHap(bundle.haps[n - 1], carried);
      DeterminedBoth(HapsWrites(bundle.haps, n - 1, bundle.quickFixPath), HapWrites(bundle.haps[n - 1], carried), bundle.name);
    }
  }

  lemma {:induction false} DeterminedHsps(hsps: seq<Hsp>, appName: string)
    requires forall i :: 0 <= i < |hsps| && hsps[i].bundleName == appName ==> SlashFree(hsps[i].moduleName)
    ensures Determined(HspsWrites(hsps, appName), appName)
  {
    hide HspTurn, SlashFree;
    if hsps != [] {
      hide Determined;
      var n := |hsps| - 1;
      DeterminedHsps(hsps[..n], appName);
      DeterminedHsp(hsps[n], appName);
      DeterminedBoth(HspsWrites(hsps[..n], appName), HspTurn(hsps[n], appName), appName);
    }
  }

  /** All writes to one abc path agree: each is the module that the path stands for. */
  lemma AbcWritesAgree(bundle: Bundle, hsps: seq<Hsp>)
    requires OwnNamesSlashFree(bundle, hsps)
    ensures Determined(AllWrites(bundle, hsps), bundle.name)
  {
    hide HapsWrites, HspsWrites, DefaultPaths;
    DeterminedHaps(bundle, |bundle.haps|);
    DeterminedHsps(hsps, bundle.name);
  }

  // ---------------------------------------------------------------------------------------------
  // The order of the shared modules

  /** The shared module makes an abc entry. */
  predicate MakesEntry(hsp: Hsp, appName: string) {
    hsp.nativeLibraryPath != "" && appName != ""
  }

  /** One of the shared modules makes the entry `p`, with value `key`. */
  predicate EntryBy(hsps: seq<Hsp>, appName: string, p: string, key: string) {
    exists h <- hsps :: MakesEntry(h, appName) && AbcPath(HspAbcName(h, appName)) == p && HspKey(h) == key
  }

  /** An own module and a module of another bundle share an abc path. */
  predicate Clash(hsps: seq<Hsp>, appName: string) {
    exists a <- hsps, b <- hsps ::
      && MakesEntry(a, appName) && MakesEntry(b, appName)
      && a.bundleName == appName && b.bundleName != appName
      && a.moduleName == HspKey(b)
  }

  lemma {:induction false} LibsKeepAbcs(t: Tables, key: string, paths: seq<string>)
    ensures After(t, LibWrites(key, paths)).abcs == t.abcs
  {
    if paths != [] {
      var n := |paths| - 1;
      LibsKeepAbcs(t, key, paths[..n]);
      assert LibWrites(key, paths)[..n] == LibWrites(key, paths[..n]);
    }
  }

  lemma HspEntry(t: Tables, hsp: Hsp, appName: string)
    ensures After(t, HspTurn(hsp, appName)).abcs
            == if MakesEntry(hsp, appName) then t.abcs[AbcPath(HspAbcName(hsp, appName)) := HspKey(hsp)] else t.abcs
  {
    hide HspLibPath, AbcPath;
    var paths := HspPaths(hsp, IsPreInstall(hsp.hapPath));
    LibsKeepAbcs(t, HspKey(hsp), paths);
    var w := Abc(AbcPath(HspAbcName(hsp, appName)), HspKey(hsp));
    AfterBoth(t, LibWrites(HspKey(hsp), paths), [w]);
    OneWrite(After(t, LibWrites(HspKey(hsp), paths)), w);
  }

  ghost predicate EntriesAt(t: Tables, hsps: seq<Hsp>, appName: string, p: string) {
    var abcs := After(t, HspsWrites(hsps, appName)).abcs;
    if p in abcs && EntryBy(hsps, appName, p, abcs[p]) then true
    else
      && (forall key :: !EntryBy(hsps, appName, p, key))
      && (p in abcs <==> p in t.abcs)
      && (p in abcs ==> abcs[p] == t.abcs[p])
  }

  /** After the shared modules an entry is one that they made, or as before when they made none. */
  lemma {:induction false} HspEntries(t: Tables, hsps: seq<Hsp>, appName: string, p: string)
    ensures EntriesAt(t, hsps, appName, p)
  {
    hide EntriesAt;
    if hsps == [] {
      NoEntries(t, appName, p);
    } else {
      var n := |hsps| - 1;
      HspEntries(t, hsps[..n], appName, p);
      EntriesStep(t, hsps[..n], hsps[n], appName, p);
      assert hsps == hsps[..n] + [hsps[n]];
    }
  }

  lemma NoEntries(t: Tables, appName: string, p: string)
    ensures EntriesAt(t, [], appName, p)
  {
    hide AbcPath;
    NoWrites(t);
    assert forall key :: !EntryBy([], appName, p, key);
  }

  lemma EntriesStep(t: Tables, before: seq<Hsp>, last: Hsp, appName: string, p: string)
    requires EntriesAt(t, before, appName, p)
    ensures EntriesAt(t, before + [last], appName, p)
  {
    hide HspTurn, EntryBy, After, MakesEntry, HspAbcName, AbcPath, HspKey;
    var u := After(t, HspsWrites(before, appName));
    assert (before + [last])[..|before|] == before;
    assert HspsWrites(before + [last], appName) == HspsWrites(before, appName) + HspTurn(last, appName);
    AfterBoth(t, HspsWrites(before, appName), HspTurn(last, appName));
    HspEntry(u, last, appName);
    forall key {
      EntryByLast(before, last, appName, p, key);
    }
  }

  lemma EntryByLast(before: seq<Hsp>, last: Hsp, appName: string, p: string, key: string)
    ensures EntryBy(before + [last], appName, p, key)
            <==> EntryBy(before, appName, p, key)
                 || (MakesEntry(last, appName) && AbcPath(HspAbcName(last, appName)) == p && HspKey(last) == key)
  {
    hide AbcPath;
    assert last in before + [last];
    assert forall h :: h in before + [last] <==> h in before || h == last;
  }

  lemma AbcPathInjective(a: string, b: string)
    ensures AbcPath(a) == AbcPath(b) <==> a == b
  {
    var p, q := AbcPath(a), AbcPath(b);
    assert p[|ABC_PREFIX|..|p| - |ABC_SUFFIX|] == a;
    assert q[|ABC_PREFIX|..|q| - |ABC_SUFFIX|] == b;
  }

  /** Without a clash the entries made under one path agree. */
  lemma EntriesAgree(hsps: seq<Hsp>, appName: string, p: string, x: string, y: string)
    requires !Clash(hsps, appName) && EntryBy(hsps, appName, p, x) && EntryBy(hsps, appName, p, y)
    ensures x == y
  {
    hide AbcPath;
    var a :| a in hsps && MakesEntry(a, appName) && AbcPath(HspAbcName(a, appName)) == p && HspKey(a) == x;
    var b :| b in hsps && MakesEntry(b, appName) && AbcPath(HspAbcName(b, appName)) == p && HspKey(b) == y;
    AbcPathInjective(HspAbcName(a, appName), HspAbcName(b, appName));
  }

  lemma SameEntries(t: Tables, hsps: seq<Hsp>, other: seq<Hsp>, appName: string)
    requires !Clash(hsps, appName) && multiset(other) == multiset(hsps)
    ensures After(t, HspsWrites(other, appName)).abcs == After(t, HspsWrites(hsps, appName)).abcs
  {
    hide HspsWrites, After, AbcPath, Clash;
    assert forall h :: h in other <==> h in hsps by {
      assert forall h :: h in other <==> h in multiset(other);
      assert forall h :: h in hsps <==> h in multiset(hsps);
    }
    assert forall p, key :: EntryBy(other, appName, p, key) <==> EntryBy(hsps, appName, p, key);
    hide EntryBy;
    var x, y := After(t, HspsWrites(other, appName)).abcs, After(t, HspsWrites(hsps, appName)).abcs;
    forall p ensures (p in x <==> p in y) && (p in x ==> x[p] == y[p]) {
      HspEntries(t, other, appName, p);
      HspEntries(t, hsps, appName, p);
      if p in x && EntryBy(hsps, appName, p, x[p]) {
        EntriesAgree(hsps, appName, p, x[p], y[p]);
      }
    }
  }

  /** The list with its `i`-th element moved to the end. */
  function MovedLast(hsps: seq<Hsp>, i: nat): seq<Hsp>
    requires i < |hsps|
  {
    hsps[..i] + hsps[i + 1..] + [hsps[i]]
  }

  lemma MovedLastPermutes(hsps: seq<Hsp>, i: nat)
    requires i < |hsps|
    ensures multiset(MovedLast(hsps, i)) == multiset(hsps)
  {
    assert hsps == hsps[..i] + [hsps[i]] + hsps[i + 1..];
  }

  /** The last of the shared modules decides its entry. */
  lemma LastDecides(t: Tables, hsps: seq<Hsp>, i: nat, appName: string)
    requires i < |hsps| && MakesEntry(hsps[i], appName)
    ensures var abcs := After(t, HspsWrites(MovedLast(hsps, i), appName)).abcs;
            var p := AbcPath(HspAbcName(hsps[i], appName));
            p in abcs && abcs[p] == HspKey(hsps[i])
  {
    hide HspTurn, After, AbcPath;
    var moved := MovedLast(hsps, i);
    var before := moved[..|moved| - 1];
    AfterBoth(t, HspsWrites(before, appName), HspTurn(hsps[i], appName));
    HspEntry(After(t, HspsWrites(before, appName)), hsps[i], appName);
  }

  /** The abc entries are the same for every order of the shared modules. */
  ghost predicate OrderIrrelevant(t: Tables, bundle: Bundle, hsps: seq<Hsp>) {
    forall other: seq<Hsp> :: multiset(other) == multiset(hsps) ==>
      After(t, AllWrites(bundle, other)).abcs == After(t, AllWrites(bundle, hsps)).abcs
  }

  lemma ClashMatters(t: Tables, hsps: seq<Hsp>, appName: string)
    requires Clash(hsps, appName)
    ensures exists i, j :: 0 <= i < |hsps| && 0 <= j < |hsps|
              && After(t, HspsWrites(MovedLast(hsps, i), appName)).abcs
                 != After(t, HspsWrites(MovedLast(hsps, j), appName)).abcs
  {
    hide After, AbcPath;
    var a, b :| && a in hsps && b in hsps && MakesEntry(a, appName) && MakesEntry(b, appName)
                && a.bundleName == appName && b.bundleName != appName && a.moduleName == HspKey(b);
    var i :| 0 <= i < |hsps| && hsps[i] == a;
    var j :| 0 <= j < |hsps| && hsps[j] == b;
    LastDecides(t, hsps, i, appName);
    LastDecides(t, hsps, j, appName);
    assert HspAbcName(a, appName) == HspAbcName(b, appName);
    assert |HspKey(a)| > |HspKey(b)|;
  }

  lemma HspsLast(t: Tables, bundle: Bundle, hsps: seq<Hsp>)
    ensures After(t, AllWrites(bundle, hsps))
            == After(After(t, DefaultWrites(bundle) + HapsWrites(bundle.haps, |bundle.haps|, bundle.quickFixPath)),
                     HspsWrites(hsps, bundle.name))
  {
    hide After, DefaultWrites, HapsWrites, HspsWrites;
    AfterBoth(t, DefaultWrites(bundle) + HapsWrites(bundle.haps, |bundle.haps|, bundle.quickFixPath),
              HspsWrites(hsps, bundle.name));
  }

  /**
    Whatever the tables held before, the abc entries do not depend on the order of the shared modules
    exactly when no own module is named like the key of a module of another bundle.
  */
  lemma OrderIrrelevantIffNoClash(t: Tables, bundle: Bundle, hsps: seq<Hsp>)
    ensures OrderIrrelevant(t, bundle, hsps) <==> !Clash(hsps, bundle.name)
  {
    hide After, DefaultWrites, HapsWrites, HspsWrites, AllWrites, Clash;
    var u := After(t, DefaultWrites(bundle) + HapsWrites(bundle.haps, |bundle.haps|, bundle.quickFixPath));
    HspsLast(t, bundle, hsps);
    if Clash(hsps, bundle.name) {
      ClashMatters(u, hsps, bundle.name);
      var i, j :| 0 <= i < |hsps| && 0 <= j < |hsps|
                  && After(u, HspsWrites(MovedLast(hsps, i), bundle.name)).abcs
                     != After(u, HspsWrites(MovedLast(hsps, j), bundle.name)).abcs;
      MovedLastPermutes(hsps, i);
      MovedLastPermutes(hsps, j);
      HspsLast(t, bundle, MovedLast(hsps, i));
      HspsLast(t, bundle, MovedLast(hsps, j));
    } else {
      forall other: seq<Hsp> | multiset(other) == multiset(hsps)
        ensures After(t, AllWrites(bundle, other)).abcs == After(t, AllWrites(bundle, hsps)).abcs
      {
        HspsLast(t, bundle, other);
        SameEntries(u, hsps, other, bundle.name);
      }
    }
  }

  /** Slash-free names of the own modules rule a clash out. */
  lemma SlashFreeMeansNoClash(bundle: Bundle, hsps: seq<Hsp>)
    requires OwnNamesSlashFree(bundle, hsps)
    ensures !Clash(hsps, bundle.name)
  {
    forall a <- hsps, b <- hsps | a.bundleName == bundle.name && SlashFree(a.moduleName) ensures a.moduleName != HspKey(b) {
      assert HspKey(b)[|b.bundleName|] == '/';
    }
  }

  /** An own module "lib/core" and the module "core" of the bundle "lib" are such a clash. */
  lemma ClashExample(t: Tables, haps: seq<Hap>)
    ensures var own := Hsp("app", "lib/core", "", "libs", true, []);
            var other := Hsp("lib", "core", "", "libs", true, []);
            !OrderIrrelevant(t, Bundle("app", "", "", haps), [own, other])
  {
    var own := Hsp("app", "lib/core", "", "libs", true, []);
    var other := Hsp("lib", "core", "", "libs", true, []);
    assert own.moduleName == HspKey(other);
    assert own in [own, other] && other in [own, other];
    assert Clash([own, other], "app");
    OrderIrrelevantIffNoClash(t, Bundle("app", "", "", haps), [own, other]);
  }
}
