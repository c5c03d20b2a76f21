/** The names, paths and packages of `ModuleReaders`, written out from the import and the answers. */
module ModuleValues {
  import opened Text
  import opened Wrappers
  import opened ModuleReaders

  // ---------------------------------------------------------------------------------------------
  // The parts of an import

  lemma FindsFirst(head: string, tail: string)
    requires '/' !in head
    ensures var s := head + ['/'] + tail; Find(s, '/') == |head| && s[|head| + 1..] == tail && s[..|head|] == head
  {
    hide Find;
    var s := head + ['/'] + tail;
    assert s[|head|] == '/' && forall k :: 0 <= k < |head| ==> s[k] == head[k];
  }

  lemma FindsLast(head: string, tail: string)
    requires '/' !in tail
    ensures var s := head + ['/'] + tail; RFind(s, '/') == |head| && s[|head| + 1..] == tail
  {
    hide RFind;
    var s := head + ['/'] + tail;
    assert s[|head|] == '/' && forall k :: |head| < k < |s| ==> s[k] == tail[k - |head| - 1];
  }

  /** The module is the last segment. */
  lemma ModuleNameIs(head: string, name: string)
    requires '/' !in name
    ensures ModuleName(head + ['/'] + name) == name && ModuleName(name) == name
  {
    FindsLast(head, name);
    hide RFind;
  }

  /** The bundle is the second segment; without a slash it is the whole import. */
  lemma SharedBundleNameIs(first: string, bundle: string, rest: string)
    requires '/' !in first && '/' !in bundle
    ensures SharedBundleName(first + ['/'] + (bundle + ['/'] + rest)) == bundle
    ensures SharedBundleName(first + ['/'] + bundle) == bundle
    ensures SharedBundleName(first) == first
  {
    FindsFirst(first, bundle + ['/'] + rest);
    FindsFirst(first, bundle);
    FindsFirst(bundle, rest);
    hide Find;
  }

  /** An import of the application itself has at most one slash. */
  lemma InAppIs(inputPath: string)
    ensures InApp(inputPath) <==> forall i, k :: 0 <= i < k < |inputPath| ==> !(inputPath[i] == '/' && inputPath[k] == '/')
  {
    hide Find, RFind;
    var i, k := Find(inputPath, '/'), RFind(inputPath, '/');
    if i != -1 { assert inputPath[i] == '/' && inputPath[k] == '/'; }
  }

  lemma StartsIs(s: string, prefix: string)
    ensures StartsWith(s, prefix) <==> prefix <= s
  {
    if prefix <= s { assert s[0..|prefix|] == prefix; }
    assert StartsWith(s, prefix) ==> s[0..|prefix|] == prefix;
  }

  // ---------------------------------------------------------------------------------------------
  // The package that is opened first

  /** A package under the public code path, or named like the import, is looked for in the sandbox. */
  lemma SandboxedIs(path: string, inputPath: string, suffix: string)
    ensures Sandboxed(path, inputPath, suffix)
            == if "/data/app/el1/bundle/public/" <= path || path == inputPath then "/data/storage/el1/" + inputPath + suffix
               else path
  {
    StartsIs(path, "/data/app/el1/bundle/public/");
    hide StartsWith;
  }

  /** Which installed package serves an import of the application: none without a module or a bundle manager. */
  lemma OwnPackageIs(bm: BundleManager, inputPath: string)
    ensures ModuleName(inputPath) == "" || !bm.present ==>
              PlainPackage(bm, inputPath) == None && HybridPackage(bm, inputPath) == None
    ensures ModuleName(inputPath) != "" && bm.present && InApp(inputPath) ==>
              && PlainPackage(bm, inputPath) == bm.hapModule(ModuleName(inputPath))
              && (bm.self.None? ==> HybridPackage(bm, inputPath) == None)
              && (bm.self.Some? ==> HybridPackage(bm, inputPath) == FirstModule(bm.self.value, ModuleName(inputPath)))
  {
    hide ModuleName, FirstModule, InApp, OtherPackage;
  }

  /** An import of another bundle is served by nobody when the shared bundles cannot be asked. */
  lemma OtherPackageIs(bm: BundleManager, inputPath: string)
    requires !InApp(inputPath)
    ensures PlainPackage(bm, inputPath) == HybridPackage(bm, inputPath)
    ensures bm.shared.None? ==> HybridPackage(bm, inputPath) == None
  {
    hide ModuleName, InApp, SharedBundleName, FirstModule, FirstShared;
  }

  /** The plugin's package, rewritten, or nothing. */
  lemma PluginPathIs(bm: BundleManager, inputPath: string, replaced: string -> string)
    ensures var bundle, name := SharedBundleName(inputPath), ModuleName(inputPath);
            var path := PluginPath(bm, inputPath, replaced);
            && (!bm.present || name == "" || bundle == "" || bm.plugins.None? ==> path == "")
            && (bm.present && name != "" && bundle != "" && bm.plugins.Some? ==>
                  && (forall i: nat, k: nat ::
                        IsFirstPlugin(bm.plugins.value, bundle, name, i) && IsFirstModule(bm.plugins.value[i].modules, name, k) ==>
                          path == replaced(bm.plugins.value[i].modules[k].hapPath))
                  && ((forall i :: 0 <= i < |bm.plugins.value| ==> !Provides(bm.plugins.value[i], bundle, name)) ==> path == ""))
  {
    hide SharedBundleName, ModuleName, FirstPlugin, FirstModule, Provides;
    var bundle, name := SharedBundleName(inputPath), ModuleName(inputPath);
    if bm.plugins.Some? {
      forall i: nat, k: nat |
        IsFirstPlugin(bm.plugins.value, bundle, name, i) && IsFirstModule(bm.plugins.value[i].modules, name, k)
        ensures FirstPlugin(bm.plugins.value, bundle, name) == Some(bm.plugins.value[i].modules[k].hapPath)
      {
        FirstPluginIs(bm.plugins.value, bundle, name, i, k);
      }
      if forall i :: 0 <= i < |bm.plugins.value| ==> !Provides(bm.plugins.value[i], bundle, name) {
        NoPlugin(bm.plugins.value, bundle, name);
      }
    }
  }

  predicate IsFirstModule(modules: seq<Module>, name: string, k: nat) {
    k < |modules| && modules[k].name == name && forall j :: 0 <= j < k ==> modules[j].name != name
  }

  lemma FirstModuleIs(modules: seq<Module>, name: string, k: nat)
    requires IsFirstModule(modules, name, k)
    ensures FirstModule(modules, name) == Some(modules[k].hapPath)
  {
    hide FirstModule;
    var r := FirstModule(modules, name);
    assert r.Some?;
    var i :| 0 <= i < |modules| && modules[i] == Module(name, r.value) && forall j :: 0 <= j < i ==> modules[j].name != name;
    assert i == k;
  }

  lemma FirstPluginIs(plugins: seq<Plugin>, bundle: string, name: string, i: nat, k: nat)
    requires IsFirstPlugin(plugins, bundle, name, i) && IsFirstModule(plugins[i].modules, name, k)
    ensures FirstPlugin(plugins, bundle, name) == Some(plugins[i].modules[k].hapPath)
  {
    hide FirstPlugin, FirstModule, Provides;
    var r := FirstPlugin(plugins, bundle, name);
    FirstModuleIs(plugins[i].modules, name, k);
    assert r.Some?;
    var m :| 0 <= m < |plugins| && IsFirstPlugin(plugins, bundle, name, m) && FirstModule(plugins[m].modules, name) == r;
    assert m == i;
  }

  lemma NoPlugin(plugins: seq<Plugin>, bundle: string, name: string)
    requires forall i :: 0 <= i < |plugins| ==> !Provides(plugins[i], bundle, name)
    ensures FirstPlugin(plugins, bundle, name) == None
  {
    hide FirstPlugin, FirstModule, Provides;
  }

  /**
    The package opened first: in a form the shared package of the module in the bundle's directory; outside,
    the installed package, in the sandbox when it is under the public code path or is the import itself; with
    none installed, the plugin's.
  */
  lemma FirstOpenedIs(bm: BundleManager, isFormRender: bool, bundleName: string, inputPath: string,
                      package: Option<string>, replaced: string -> string)
    requires inputPath != ""
    ensures FirstOpened(bm, isFormRender, bundleName, inputPath, package, replaced)
            == if isFormRender then "/data/bundles/" + bundleName + "/" + ModuleName(inputPath) + ".hsp"
               else if package.None? then PluginPath(bm, inputPath, replaced)
               else if "/data/app/el1/bundle/public/" <= package.value || package.value == inputPath
                 then "/data/storage/el1/" + inputPath + ".hsp"
               else package.value
  {
    hide ModuleName, PluginPath, Sandboxed;
    if package.Some? { SandboxedIs(package.value, inputPath, ".hsp"); }
  }

  // ---------------------------------------------------------------------------------------------
  // What is read

  /** The plain reader reads the module file of that package, when both are there. */
  lemma PlainDataIs(packages: Packages, first: string, data: seq<int>)
    ensures PlainData(packages, first) == Some(data) <==> first != "" && packages(first) == Some(Some(data))
  {
  }

  /** So does the hybrid one; when the first package has no extractor it reads the second. */
  lemma HybridDataIs(packages: Packages, first: string, second: string, data: seq<int>)
    ensures HybridData(packages, first, second) == Some(data) <==>
              first != "" && (packages(first) == Some(Some(data)) ||
                              (packages(first) == None && second != "" && packages(second) == Some(Some(data))))
  {
  }

  /** The second package: the same in a form; outside, the installed one again, or the sandbox's with the other suffix. */
  lemma SecondIs(bm: BundleManager, isFormRender: bool, bundleName: string, inputPath: string)
    ensures var package := HybridPackage(bm, inputPath);
            AppPath(bm, isFormRender, bundleName, inputPath, ".hap")
            == if isFormRender then "/data/bundles/" + bundleName + "/" + ModuleName(inputPath) + ".hsp"
               else if package.Some? && !("/data/app/el1/bundle/public/" <= package.value) && package.value != inputPath
                 then package.value
               else "/data/storage/el1/" + inputPath + ".hap"
  {
    hide ModuleName, HybridPackage, Sandboxed;
    var package := HybridPackage(bm, inputPath);
    SandboxedIs(if package.Some? then package.value else inputPath, inputPath, ".hap");
  }

  /** The message of the plain reader's search: about the path it found, else the caller's, else about what it looked for. */
  lemma SearchMessageIs(inputPath: string, package: Option<string>, errorMsg: string)
    ensures var path := if package.Some? && !("/data/app/el1/bundle/public/" <= package.value) && package.value != inputPath
                        then package.value
                        else "/data/storage/el1/" + inputPath + ".hsp";
            SearchMessage(inputPath, package, errorMsg)
            == if |path| < 4 || path[|path| - 4..] != ".hsp" then "Get HspPath failed: invalid path or suffix"
               else if package.Some? || errorMsg != "" then errorMsg
               else if InApp(inputPath) then "Get in-app HspPath failed, please check the module is correct"
               else "Get shared HspPath failed, please check the module is correct"
  {
    hide InApp, Sandboxed;
    SandboxedIs(if package.Some? then package.value else inputPath, inputPath, ".hsp");
  }
}
