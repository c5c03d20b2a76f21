/**
  `JsModuleReader` and `HybridJsModuleReader`: from the path named in an import to the bytes of the
  module.  The bundle manager and the extractors are answers that stay the same during one call.
*/
module ModuleReaders {
  import opened Text
  import opened Wrappers

  const ABS_CODE_PATH: string := "/data/storage/el1/"
  const ABS_DATA_CODE_PATH: string := "/data/app/el1/bundle/public/"
  const SHARED_FILE_SUFFIX: string := ".hsp"
  const ABILITY_FILE_SUFFIX: string := ".hap"

  datatype Module = Module(name: string, hapPath: string)
  datatype Shared = Shared(bundleName: string, moduleName: string, hapPath: string)
  datatype Plugin = Plugin(bundleName: string, modules: seq<Module>)

  /** What the bundle manager answers; `None` is a failed call. */
  datatype BundleManager = BundleManager(
    present: bool,
    self: Option<seq<Module>>,
    hapModule: string -> Option<string>,
    shared: Option<seq<Shared>>,
    dependent: string -> Option<seq<Module>>,
    plugins: Option<seq<Plugin>>)

  /** Opening a package: `None` when it has no extractor, `Some(None)` when it holds no module file. */
  type Packages = string -> Option<Option<seq<int>>>

  // ---------------------------------------------------------------------------------------------
  // First matches

  /** The package of the first module of that name. */
  function FirstModule(modules: seq<Module>, name: string): (r: Option<string>)
    ensures r.None? ==> forall i :: 0 <= i < |modules| ==> modules[i].name != name
    ensures r.Some? ==> exists i :: 0 <= i < |modules| && modules[i] == Module(name, r.value)
                                    && forall j :: 0 <= j < i ==> modules[j].name != name
  {
    if modules == [] then None
    else if modules[0].name == name then Some(modules[0].hapPath)
    else
      var rest := modules[1..];
      var r := FirstModule(rest, name);
      assert forall i :: 0 < i < |modules| ==> modules[i] == rest[i - 1];
      assert r.Some? ==> exists i :: 0 < i < |modules| && modules[i] == Module(name, r.value)
                                     && forall j :: 0 <= j < i ==> modules[j].name != name by {
        if r.Some? {
          var k :| 0 <= k < |rest| && rest[k] == Module(name, r.value) && forall j :: 0 <= j < k ==> rest[j].name != name;
          assert modules[k + 1] == Module(name, r.value);
        }
      }
      r
  }

  predicate IsShared(info: Shared, bundleName: string, moduleName: string) {
    info.bundleName == bundleName && info.moduleName == moduleName
  }

  /** The package of the first shared module of that bundle and name. */
  function FirstShared(infos: seq<Shared>, bundleName: string, moduleName: string): (r: Option<string>)
    ensures r.None? ==> forall i :: 0 <= i < |infos| ==> !IsShared(infos[i], bundleName, moduleName)
    ensures r.Some? ==> exists i :: 0 <= i < |infos| && IsFirstShared(infos, bundleName, moduleName, i)
                                    && infos[i].hapPath == r.value
  {
    if infos == [] then None
    else if IsShared(infos[0], bundleName, moduleName) then
      assert IsFirstShared(infos, bundleName, moduleName, 0);
      Some(infos[0].hapPath)
    else
      var rest := infos[1..];
      var r := FirstShared(rest, bundleName, moduleName);
      assert forall i :: 0 < i < |infos| ==> infos[i] == rest[i - 1];
      assert r.Some? ==> exists i :: 0 <= i < |infos| && IsFirstShared(infos, bundleName, moduleName, i)
                                     && infos[i].hapPath == r.value by {
        if r.Some? {
          var k :| 0 <= k < |rest| && IsFirstShared(rest, bundleName, moduleName, k) && rest[k].hapPath == r.value;
          assert IsFirstShared(infos, bundleName, moduleName, k + 1);
        }
      }
      r
  }

  predicate IsFirstShared(infos: seq<Shared>, bundleName: string, moduleName: string, i: nat) {
    && i < |infos| && IsShared(infos[i], bundleName, moduleName)
    && (forall j :: 0 <= j < i ==> !IsShared(infos[j], bundleName, moduleName))
  }

  /** The plugin is of that bundle and has a module of that name. */
  predicate Provides(plugin: Plugin, bundleName: string, moduleName: string) {
    plugin.bundleName == bundleName && exists i :: 0 <= i < |plugin.modules| && plugin.modules[i].name == moduleName
  }

  predicate IsFirstPlugin(plugins: seq<Plugin>, bundleName: string, moduleName: string, i: nat) {
    && i < |plugins| && Provides(plugins[i], bundleName, moduleName)
    && (forall j :: 0 <= j < i ==> !Provides(plugins[j], bundleName, moduleName))
  }

  /** The first module of that name in the first plugin that provides it. */
  function FirstPlugin(plugins: seq<Plugin>, bundleName: string, moduleName: string): (r: Option<string>)
    ensures r.None? ==> forall i :: 0 <= i < |plugins| ==> !Provides(plugins[i], bundleName, moduleName)
    ensures r.Some? ==> exists i :: 0 <= i < |plugins| && IsFirstPlugin(plugins, bundleName, moduleName, i)
                                    && FirstModule(plugins[i].modules, moduleName) == r
  {
    if plugins == [] then None
    else
      var here := if plugins[0].bundleName == bundleName then FirstModule(plugins[0].modules, moduleName) else None;
      if here.Some? then
        assert IsFirstPlugin(plugins, bundleName, moduleName, 0);
        here
      else
        var rest := plugins[1..];
        var r := FirstPlugin(rest, bundleName, moduleName);
        assert !Provides(plugins[0], bundleName, moduleName);
        assert forall i :: 0 < i < |plugins| ==> plugins[i] == rest[i - 1];
        assert r.Some? ==> exists i :: 0 <= i < |plugins| && IsFirstPlugin(plugins, bundleName, moduleName, i)
                                       && FirstModule(plugins[i].modules, moduleName) == r by {
          if r.Some? {
            var k :| 0 <= k < |rest| && IsFirstPlugin(rest, bundleName, moduleName, k)
                     && FirstModule(rest[k].modules, moduleName) == r;
            assert IsFirstPlugin(plugins, bundleName, moduleName, k + 1);
          }
        }
        r
  }

  // ---------------------------------------------------------------------------------------------
  // Resolution as functions

  function ModuleName(inputPath: string): string {
    inputPath[RFind(inputPath, '/') + 1..]
  }

  function SharedBundleName(inputPath: string): string {
    var tmpPath := inputPath[Find(inputPath, '/') + 1..];
    if Find(tmpPath, '/') == -1 then tmpPath else tmpPath[..Find(tmpPath, '/')]
  }

  /** At most one slash: a module of the application itself. */
  predicate InApp(inputPath: string) {
    Find(inputPath, '/') == RFind(inputPath, '/')
  }

  /** A module of another bundle: an application service wins over a shared bundle. */
  function OtherPackage(bm: BundleManager, inputPath: string): Option<string> {
    if !bm.present || bm.shared.None? then None
    else
      var name, bundleName := ModuleName(inputPath), SharedBundleName(inputPath);
      var services := bm.dependent(bundleName);
      if services.Some? && FirstModule(services.value, name).Some? then FirstModule(services.value, name)
      else FirstShared(bm.shared.value, bundleName, name)
  }

  /** The installed package of a module, where `own` answers for the modules of the application. */
  function Package(bm: BundleManager, inputPath: string, own: Option<string>): Option<string> {
    if ModuleName(inputPath) == "" || !bm.present then None
    else if InApp(inputPath) then own
    else OtherPackage(bm, inputPath)
  }

  function PlainPackage(bm: BundleManager, inputPath: string): Option<string> {
    Package(bm, inputPath, bm.hapModule(ModuleName(inputPath)))
  }

  function HybridPackage(bm: BundleManager, inputPath: string): Option<string> {
    Package(bm, inputPath, if bm.self.None? then None else FirstModule(bm.self.value, ModuleName(inputPath)))
  }

  /** The plugin that provides the module, or the empty path. */
  function PluginPath(bm: BundleManager, inputPath: string, replaced: string -> string): string {
    if !bm.present || ModuleName(inputPath) == "" || SharedBundleName(inputPath) == "" || bm.plugins.None? then ""
    else
      var found := FirstPlugin(bm.plugins.value, SharedBundleName(inputPath), ModuleName(inputPath));
      if found.None? then "" else replaced(found.value)
  }

  /** A package under the public code path, or none, is looked for in the sandbox. */
  function Sandboxed(path: string, inputPath: string, suffix: string): string {
    if StartsWith(path, ABS_DATA_CODE_PATH) || path == inputPath then ABS_CODE_PATH + inputPath + suffix else path
  }

  function FormPath(bundleName: string, inputPath: string): string {
    "/data/bundles/" + bundleName + "/" + ModuleName(inputPath) + SHARED_FILE_SUFFIX
  }

  /**
    The package that a reader opens first, given the installed package it found; empty when the reader
    rejects the path before opening anything.
  */
  function FirstOpened(bm: BundleManager, isFormRender: bool, bundleName: string, inputPath: string,
                       package: Option<string>, replaced: string -> string): string
  {
    if inputPath == "" then ""
    else if isFormRender then FormPath(bundleName, inputPath)
    else if package.Some? then Sandboxed(package.value, inputPath, SHARED_FILE_SUFFIX)
    else PluginPath(bm, inputPath, replaced)
  }

  // ---------------------------------------------------------------------------------------------
  // The messages of the plain reader

  /** The message after the search, outside forms. */
  function SearchMessage(inputPath: string, package: Option<string>, errorMsg: string): string {
    var path := Sandboxed(if package.Some? then package.value else inputPath, inputPath, SHARED_FILE_SUFFIX);
    if path == "" || !EndsWith(path, SHARED_FILE_SUFFIX) then "Get HspPath failed: invalid path or suffix"
    else if package.Some? || errorMsg != "" then errorMsg
    else if InApp(inputPath) then "Get in-app HspPath failed, please check the module is correct"
    else "Get shared HspPath failed, please check the module is correct"
  }

  /** The message at the end, when `first` is the package opened, if one was. */
  function PlainMessage(packages: Packages, isFormRender: bool, inputPath: string, package: Option<string>,
                        first: string, errorMsg: string): string
  {
    var searched := if isFormRender then errorMsg else SearchMessage(inputPath, package, errorMsg);
    if first == "" then searched
    else if packages(first).None? then "GetExtractor failed, please check " + first
    else if packages(first).value.None? then "getData failed, please check " + first
    else searched
  }

  /** A search that found nothing leaves a message, whatever follows. */
  lemma NotFoundHasMessage(inputPath: string, errorMsg: string)
    ensures SearchMessage(inputPath, None, errorMsg) != ""
  {
    hide EndsWith, InApp, Sandboxed;
  }

  /**
    A failed read of a path leaves a message.  A module served by a plugin is read with the message of
    the failed search left behind.
  */
  lemma FailureHasMessage(bm: BundleManager, packages: Packages, isFormRender: bool, bundleName: string,
                          inputPath: string, replaced: string -> string, errorMsg: string)
    requires inputPath != ""
    ensures var package := PlainPackage(bm, inputPath);
            var first := FirstOpened(bm, isFormRender, bundleName, inputPath, package, replaced);
            var message := PlainMessage(packages, isFormRender, inputPath, package, first, errorMsg);
            && (PlainData(packages, first).None? ==> message != "")
            && (!isFormRender && package.None? ==> message != "")
  {
    hide Package, PluginPath, FormPath, SearchMessage;
    FormPathNotEmpty(bundleName, inputPath);
    NotFoundHasMessage(inputPath, errorMsg);
    var package := PlainPackage(bm, inputPath);
    if package.Some? { EmptyHasMessage(inputPath, package.value, errorMsg); }
  }

  lemma FormPathNotEmpty(bundleName: string, inputPath: string)
    ensures FormPath(bundleName, inputPath) != ""
  {
  }

  lemma EmptyHasMessage(inputPath: string, package: string, errorMsg: string)
    ensures Sandboxed(package, inputPath, SHARED_FILE_SUFFIX) == "" ==> SearchMessage(inputPath, Some(package), errorMsg) != ""
  {
  }

  // ---------------------------------------------------------------------------------------------
  // The loops

  method FindModule(modules: seq<Module>, name: string, path: string, needFindPluginHsp: bool)
      returns (found: string, need: bool)
    ensures FirstModule(modules, name).Some? ==> found == FirstModule(modules, name).value && !need
    ensures FirstModule(modules, name).None? ==> found == path && need == needFindPluginHsp
  {
    found, need := path, needFindPluginHsp;
    for i := 0 to |modules|
      invariant FirstModule(modules, name) == FirstModule(modules[i..], name)
      invariant found == path && need == needFindPluginHsp
    {
      if modules[i].name == name {
        found, need := modules[i].hapPath, false;
        return;
      }
    }
  }

  method FindShared(infos: seq<Shared>, bundleName: string, moduleName: string, path: string, needFindPluginHsp: bool)
      returns (found: string, need: bool)
    ensures FirstShared(infos, bundleName, moduleName).Some? ==> found == FirstShared(infos, bundleName, moduleName).value && !need
    ensures FirstShared(infos, bundleName, moduleName).None? ==> found == path && need == needFindPluginHsp
  {
    found, need := path, needFindPluginHsp;
    for i := 0 to |infos|
      invariant FirstShared(infos, bundleName, moduleName) == FirstShared(infos[i..], bundleName, moduleName)
      invariant found == path && need == needFindPluginHsp
    {
      if IsShared(infos[i], bundleName, moduleName) {
        found, need := infos[i].hapPath, false;
        return;
      }
    }
  }

  method FindPlugin(plugins: seq<Plugin>, bundleName: string, moduleName: string) returns (found: Option<string>)
    ensures found == FirstPlugin(plugins, bundleName, moduleName)
  {
    for i := 0 to |plugins|
      invariant FirstPlugin(plugins, bundleName, moduleName) == FirstPlugin(plugins[i..], bundleName, moduleName)
    {
      var modules := plugins[i].modules;
      for j := 0 to |modules|
        invariant plugins[i].bundleName == bundleName ==>
                    FirstModule(modules, moduleName) == FirstModule(modules[j..], moduleName)
      {
        if moduleName == modules[j].name && bundleName == plugins[i].bundleName {
          return Some(modules[j].hapPath);
        }
      }
    }
    return None;
  }

  /** `GetOtherHspPath`, the same in both readers. */
  method GetOtherHspPath(bm: BundleManager, moduleName: string, inputPath: string, needFindPluginHsp: bool)
      returns (path: string, need: bool)
    requires moduleName == ModuleName(inputPath)
    ensures var package := OtherPackage(bm, inputPath);
            if package.Some? then path == package.value && !need else path == inputPath && need == needFindPluginHsp
  {
    path, need := inputPath, needFindPluginHsp;
    if !bm.present {
      return;
    }
    if bm.shared.None? {
      return;
    }
    var sharedBundleName := SharedBundleName(inputPath);
    path, need := FindShared(bm.shared.value, sharedBundleName, moduleName, path, need);
    var bundleInfo := bm.dependent(sharedBundleName);
    if bundleInfo.None? {
      return;
    }
    path, need := FindModule(bundleInfo.value, moduleName, path, need);
  }

  /** `GetPluginHspPath`, the same in both readers. */
  method GetPluginHspPath(bm: BundleManager, inputPath: string, replaced: string -> string) returns (path: string)
    ensures path == PluginPath(bm, inputPath, replaced)
  {
    path := "";
    if !bm.present {
      return;
    }
    var moduleName := ModuleName(inputPath);
    var sharedBundleName := SharedBundleName(inputPath);
    if moduleName == "" || sharedBundleName == "" {
      return;
    }
    if bm.plugins.None? {
      return;
    }
    var found := FindPlugin(bm.plugins.value, sharedBundleName, moduleName);
    if found.Some? {
      path := replaced(found.value);
    }
  }

  // ---------------------------------------------------------------------------------------------
  // The plain reader

  class JsModuleReader {
    const bundleName: string
    const isFormRender: bool

    constructor (bundleName: string, isFormRender: bool)
      ensures this.bundleName == bundleName && this.isFormRender == isFormRender
    {
      this.bundleName := bundleName;
      this.isFormRender := isFormRender;
    }

    method GetPresetAppHapPath(bm: BundleManager, inputPath: string, needFindPluginHsp: bool)
        returns (path: string, need: bool)
      ensures var package := PlainPackage(bm, inputPath);
              if package.Some? then path == package.value && !need else path == inputPath && need == needFindPluginHsp
    {
      path, need := inputPath, needFindPluginHsp;
      var moduleName := ModuleName(inputPath);
      if moduleName == "" {
        return;
      }
      if !bm.present {
        return;
      }
      if InApp(inputPath) {
        var hapModuleInfo := bm.hapModule(moduleName);
        if hapModuleInfo.None? {
          return;
        }
        path, need := hapModuleInfo.value, false;
      } else {
        path, need := GetOtherHspPath(bm, moduleName, path, need);
      }
    }

    method GetCommonAppHspPath(bm: BundleManager, inputPath: string, errorMsg: string)
        returns (path: string, need: bool, msg: string)
      ensures need == PlainPackage(bm, inputPath).None?
      ensures path == Sandboxed(if need then inputPath else PlainPackage(bm, inputPath).value, inputPath, SHARED_FILE_SUFFIX)
      ensures msg == SearchMessage(inputPath, PlainPackage(bm, inputPath), errorMsg)
    {
      hide EndsWith, InApp, Package;
      msg := errorMsg;
      path, need := GetPresetAppHapPath(bm, inputPath, true);
      if need && msg == "" {
        msg := if InApp(inputPath) then "Get in-app HspPath failed, please check the module is correct"
               else "Get shared HspPath failed, please check the module is correct";
      }
      if FindText(path, ABS_DATA_CODE_PATH, 0) == 0 || path == inputPath {
        path := ABS_CODE_PATH + inputPath + SHARED_FILE_SUFFIX;
      }
      if path == "" || !EndsWith(path, SHARED_FILE_SUFFIX) {
        msg := "Get HspPath failed: invalid path or suffix";
      }
    }

    method GetFormAppHspPath(inputPath: string, errorMsg: string) returns (path: string, need: bool, msg: string)
      ensures path == FormPath(bundleName, inputPath) && path != "" && !need && msg == errorMsg
    {
      path := FormPath(bundleName, inputPath);
      need, msg := true, errorMsg;
      assert EndsWith(path, SHARED_FILE_SUFFIX);
      if path == "" || !EndsWith(path, SHARED_FILE_SUFFIX) {
        msg := "Get form HspPath failed: invalid path or suffix";
        return;
      }
      need := false;
    }

    /** The call operator, with buffers given; `first` is the package it opens, if it opens one. */
    method Read(bm: BundleManager, packages: Packages, replaced: string -> string, inputPath: string, errorMsg: string)
        returns (data: Option<seq<int>>, first: string, msg: string)
      ensures first == FirstOpened(bm, isFormRender, bundleName, inputPath, PlainPackage(bm, inputPath), replaced)
      ensures data == PlainData(packages, first)
      ensures msg == if inputPath == "" then errorMsg
                     else PlainMessage(packages, isFormRender, inputPath, PlainPackage(bm, inputPath), first, errorMsg)
    {
      hide SearchMessage, Package, PluginPath;
      NotFoundHasMessage(inputPath, errorMsg);
      data, first, msg := None, "", errorMsg;
      if inputPath == "" {
        return;
      }
      var realHapPath, need;
      if isFormRender {
        realHapPath, need, msg := GetFormAppHspPath(inputPath, msg);
      } else {
        realHapPath, need, msg := GetCommonAppHspPath(bm, inputPath, msg);
      }
      if realHapPath == "" {
        return;
      }
      if need {
        realHapPath := GetPluginHspPath(bm, inputPath, replaced);
        if realHapPath == "" {
          if msg == "" {
            msg := "get plugin hspPath failed, please check the module is correct";
          }
          return;
        }
      }
      first := realHapPath;
      var extractor := packages(realHapPath);
      if extractor.None? {
        msg := "GetExtractor failed, please check " + realHapPath;
        return;
      }
      if extractor.value.None? {
        msg := "getData failed, please check " + realHapPath;
        return;
      }
      data := extractor.value;
    }
  }

  /** The data of a package that was opened once. */
  function PlainData(packages: Packages, path: string): Option<seq<int>> {
    if path == "" || packages(path).None? then None else packages(path).value
  }

  // ---------------------------------------------------------------------------------------------
  // The hybrid reader

  class HybridJsModuleReader {
    const bundleName: string
    const isFormRender: bool

    constructor (bundleName: string, isFormRender: bool)
      ensures this.bundleName == bundleName && this.isFormRender == isFormRender
    {
      this.bundleName := bundleName;
      this.isFormRender := isFormRender;
    }

    method GetPresetAppHapPath(bm: BundleManager, inputPath: string, needFindPluginHsp: bool)
        returns (path: string, need: bool)
      ensures var package := HybridPackage(bm, inputPath);
              if package.Some? then path == package.value && !need else path == inputPath && need == needFindPluginHsp
    {
      path, need := inputPath, needFindPluginHsp;
      var moduleName := ModuleName(inputPath);
      if moduleName == "" {
        return;
      }
      if !bm.present {
        return;
      }
      if InApp(inputPath) {
        if bm.self.None? || bm.self.value == [] {
          return;
        }
        path, need := FindModule(bm.self.value, moduleName, path, need);
      } else {
        path, need := GetOtherHspPath(bm, moduleName, path, need);
      }
    }

    method GetCommonAppPath(bm: BundleManager, inputPath: string, suffix: string, needFindPluginHsp: bool)
        returns (path: string, need: bool)
      ensures path == CommonPath(bm, inputPath, suffix)
      ensures need == (needFindPluginHsp && HybridPackage(bm, inputPath).None?)
    {
      path, need := GetPresetAppHapPath(bm, inputPath, needFindPluginHsp);
      if FindText(path, ABS_DATA_CODE_PATH, 0) == 0 || path == inputPath {
        path := ABS_CODE_PATH + inputPath + suffix;
      }
    }

    method GetFormAppPath(inputPath: string, suffix: string, needFindPluginHsp: bool) returns (path: string, need: bool)
      ensures path == FormPath(bundleName, inputPath) && path != ""
      ensures need == (needFindPluginHsp && !EndsWith(path, suffix))
    {
      path := FormPath(bundleName, inputPath);
      need := needFindPluginHsp;
      if path == "" || !EndsWith(path, suffix) {
        return;
      }
      need := false;
    }

    method GetAppPath(bm: BundleManager, inputPath: string, suffix: string, needFindPluginHsp: bool)
        returns (path: string, need: bool)
      ensures path == AppPath(bm, isFormRender, bundleName, inputPath, suffix)
      ensures isFormRender ==> need == (needFindPluginHsp && !EndsWith(path, suffix))
      ensures !isFormRender ==> need == (needFindPluginHsp && HybridPackage(bm, inputPath).None?)
    {
      if isFormRender {
        path, need := GetFormAppPath(inputPath, suffix, needFindPluginHsp);
      } else {
        path, need := GetCommonAppPath(bm, inputPath, suffix, needFindPluginHsp);
      }
    }

    /** The package whose extractor is used, or `None`; `first` is the package opened first. */
    method GetExtractor(bm: BundleManager, packages: Packages, replaced: string -> string, inputPath: string, errorMsg: string)
        returns (extractor: Option<string>, first: string, msg: string)
      requires inputPath != ""
      ensures first == FirstOpened(bm, isFormRender, bundleName, inputPath, HybridPackage(bm, inputPath), replaced)
      ensures extractor == Used(packages, first, AppPath(bm, isFormRender, bundleName, inputPath, ABILITY_FILE_SUFFIX))
      ensures msg == HybridMessage(packages, inputPath, first,
                                   AppPath(bm, isFormRender, bundleName, inputPath, ABILITY_FILE_SUFFIX), errorMsg)
    {
      extractor, first, msg := None, "", errorMsg;
      var realHapPath, need := GetAppPath(bm, inputPath, SHARED_FILE_SUFFIX, true);
      assert isFormRender ==> EndsWith(realHapPath, SHARED_FILE_SUFFIX);
      if realHapPath == "" {
        return;
      }
      if need {
        realHapPath := GetPluginHspPath(bm, inputPath, replaced);
        if realHapPath == "" {
          return;
        }
        need := true;
      }
      first := realHapPath;
      if packages(realHapPath).Some? {
        return Some(realHapPath), first, msg;
      }
      realHapPath, need := GetAppPath(bm, inputPath, ABILITY_FILE_SUFFIX, need);
      if realHapPath == "" {
        return;
      }
      if packages(realHapPath).None? {
        msg := "hap path error: " + inputPath;
        return;
      }
      extractor := Some(realHapPath);
    }

    /** The call operator, with buffers given. */
    method Read(bm: BundleManager, packages: Packages, replaced: string -> string, inputPath: string, errorMsg: string)
        returns (data: Option<seq<int>>, first: string, msg: string)
      ensures first == FirstOpened(bm, isFormRender, bundleName, inputPath, HybridPackage(bm, inputPath), replaced)
      ensures data == HybridData(packages, first, AppPath(bm, isFormRender, bundleName, inputPath, ABILITY_FILE_SUFFIX))
      ensures msg == HybridMessage(packages, inputPath, first,
                                   AppPath(bm, isFormRender, bundleName, inputPath, ABILITY_FILE_SUFFIX), errorMsg)
    {
      data, first, msg := None, "", errorMsg;
      if inputPath == "" {
        return;
      }
      var extractor;
      extractor, first, msg := GetExtractor(bm, packages, replaced, inputPath, errorMsg);
      if extractor.None? {
        return;
      }
      data := packages(extractor.value).value;
    }
  }

  function CommonPath(bm: BundleManager, inputPath: string, suffix: string): string {
    var package := HybridPackage(bm, inputPath);
    Sandboxed(if package.Some? then package.value else inputPath, inputPath, suffix)
  }

  function AppPath(bm: BundleManager, isFormRender: bool, bundleName: string, inputPath: string, suffix: string): string {
    if isFormRender then FormPath(bundleName, inputPath) else CommonPath(bm, inputPath, suffix)
  }

  /** The first of the two packages that has an extractor; the second is tried only after the first. */
  function Used(packages: Packages, first: string, second: string): (r: Option<string>)
    ensures r.Some? ==> packages(r.value).Some?
  {
    if first == "" then None
    else if packages(first).Some? then Some(first)
    else if second == "" || packages(second).None? then None
    else Some(second)
  }

  /** Only when both packages fail to open is there a message. */
  function HybridMessage(packages: Packages, inputPath: string, first: string, second: string, errorMsg: string): string {
    if first != "" && packages(first).None? && second != "" && packages(second).None? then "hap path error: " + inputPath
    else errorMsg
  }

  function HybridData(packages: Packages, first: string, second: string): Option<seq<int>> {
    var used := Used(packages, first, second);
    if used.None? then None else packages(used.value).value
  }

  // ---------------------------------------------------------------------------------------------
  // The two readers side by side

  /** Asked for one module of the application or for all of them, the bundle manager says the same. */
  ghost predicate Agreeing(bm: BundleManager) {
    forall name: string :: bm.hapModule(name) == if bm.self.None? then None else FirstModule(bm.self.value, name)
  }

  /** One call of both readers on the same path and answers. */
  method ReadBoth(bm: BundleManager, packages: Packages, replaced: string -> string,
                  bundleName: string, isFormRender: bool, inputPath: string)
      returns (plain: Option<seq<int>>, hybrid: Option<seq<int>>, plainFirst: string, hybridFirst: string)
    requires Agreeing(bm)
    ensures plainFirst == hybridFirst
    ensures plain.Some? ==> hybrid == plain
    ensures isFormRender ==> hybrid == plain
    ensures plain != hybrid <==>
            && plainFirst != "" && packages(plainFirst).None?
            && !isFormRender && InSandbox(bm, inputPath)
            && PlainData(packages, ABS_CODE_PATH + inputPath + ABILITY_FILE_SUFFIX).Some?
  {
    var plainReader := new JsModuleReader(bundleName, isFormRender);
    var hybridReader := new HybridJsModuleReader(bundleName, isFormRender);
    var plainMsg, hybridMsg;
    plain, plainFirst, plainMsg := plainReader.Read(bm, packages, replaced, inputPath, "");
    hybrid, hybridFirst, hybridMsg := hybridReader.Read(bm, packages, replaced, inputPath, "");
    SameFirstPackage(bm, isFormRender, bundleName, inputPath, replaced);
    DifferOnlyByRetry(bm, packages, isFormRender, bundleName, inputPath, replaced);
  }

  /** The module has no package, or one under the public code path. */
  predicate InSandbox(bm: BundleManager, inputPath: string) {
    var package := HybridPackage(bm, inputPath);
    package.None? || package.value == inputPath || StartsWith(package.value, ABS_DATA_CODE_PATH)
  }

  /** Both readers open the same package first, and reject the same paths before opening any. */
  lemma SameFirstPackage(bm: BundleManager, isFormRender: bool, bundleName: string, inputPath: string,
                         replaced: string -> string)
    requires Agreeing(bm)
    ensures PlainPackage(bm, inputPath) == HybridPackage(bm, inputPath)
    ensures FirstOpened(bm, isFormRender, bundleName, inputPath, PlainPackage(bm, inputPath), replaced)
            == FirstOpened(bm, isFormRender, bundleName, inputPath, HybridPackage(bm, inputPath), replaced)
  {
  }

  /**
    What the plain reader reads the hybrid one reads too; it reads more exactly when the first package
    has no extractor and the package of the other suffix in the sandbox has the module file.
  */
  lemma DifferOnlyByRetry(bm: BundleManager, packages: Packages, isFormRender: bool, bundleName: string,
                          inputPath: string, replaced: string -> string)
    requires Agreeing(bm)
    ensures var first := FirstOpened(bm, isFormRender, bundleName, inputPath, PlainPackage(bm, inputPath), replaced);
            var hybrid := HybridData(packages, first, AppPath(bm, isFormRender, bundleName, inputPath, ABILITY_FILE_SUFFIX));
            && (PlainData(packages, first).Some? ==> hybrid == PlainData(packages, first))
            && (PlainData(packages, first) != hybrid <==>
                && first != "" && packages(first).None?
                && !isFormRender && InSandbox(bm, inputPath)
                && PlainData(packages, ABS_CODE_PATH + inputPath + ABILITY_FILE_SUFFIX).Some?)
  {
    SameFirstPackage(bm, isFormRender, bundleName, inputPath, replaced);
    if !isFormRender && !InSandbox(bm, inputPath) {
      assert CommonPath(bm, inputPath, ABILITY_FILE_SUFFIX) == CommonPath(bm, inputPath, SHARED_FILE_SUFFIX);
    }
  }

  /** Which package serves an import: a matching application service, else the first matching shared module. */
  lemma PackageServes(bm: BundleManager, inputPath: string)
    requires bm.present && ModuleName(inputPath) != "" && !InApp(inputPath) && bm.shared.Some?
    ensures var services := bm.dependent(SharedBundleName(inputPath));
            var package := HybridPackage(bm, inputPath);
            && (forall i :: services.Some? && 0 <= i < |services.value| && services.value[i].name == ModuleName(inputPath) ==>
                  exists k :: 0 <= k <= i && services.value[k].name == ModuleName(inputPath)
                              && package == Some(services.value[k].hapPath))
            && (services.None? || (forall i :: 0 <= i < |services.value| ==> services.value[i].name != ModuleName(inputPath)) ==>
                  && (package.None? <==> forall i :: 0 <= i < |bm.shared.value| ==>
                        !IsShared(bm.shared.value[i], SharedBundleName(inputPath), ModuleName(inputPath)))
                  && (forall i: nat :: IsFirstShared(bm.shared.value, SharedBundleName(inputPath), ModuleName(inputPath), i) ==>
                        package == Some(bm.shared.value[i].hapPath)))
  {
    hide FirstModule, FirstShared, ModuleName, SharedBundleName;
  }
}
