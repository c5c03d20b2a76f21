/**
  `AssetHelper`: how a worker finds and reads its script.  The file system, the bundle manager and the
  extractors are answers that stay the same during one call; the buffers of the caller are given.
*/
module AssetReader {
  import opened Text
  import opened Wrappers
  import opened PathWalk

  type Bytes = seq<int>

  const ASSET_FILE_MAX_SIZE: int := 32 * 1024 * 1024
  const API8: int := 8
  const API12: int := 12
  const BUNDLE_NAME_FLAG: string := "@bundle:"
  const CACHE_DIRECTORY: string := "el2"
  const RESTRICTED_PREFIX_PATH: string := "abcs/"

  datatype WorkerInfo = WorkerInfo(
    codePath: string,
    isDebugVersion: bool,
    isBundle: bool,
    assetBasePaths: seq<string>,
    hapPath: string,
    isStageModel: bool,
    moduleName: string,
    apiTargetVersion: int)

  datatype Hap = Hap(moduleName: string, hapPath: string)

  datatype Extractor = Extractor(
    isCompressed: string -> bool,
    safeData: string -> Option<Bytes>,
    extract: string -> Option<Bytes>,
    dirExists: string -> bool,
    fileList: string -> Option<seq<string>>,
    hasEntry: string -> bool)

  /** Where mapping a file ends. */
  datatype Mapping = NoPath | NotOpened | NoStat | NotMapped | Mapped(data: Bytes)

  datatype World = World(
    mapFile: string -> Mapping,
    readFile: string -> Option<Bytes>,
    haps: Option<seq<Hap>>,
    loadPath: string -> string,
    extractor: string -> Option<Extractor>)

  /** What one read fills; `fromFile` tells a mapping of an opened file from one of an extractor. */
  datatype Outcome = Outcome(ok: bool, mapped: Option<Bytes>, content: Option<Bytes>, useSecureMem: bool, fromFile: bool)

  function Failed(useSecureMem: bool): Outcome {
    Outcome(false, None, None, useSecureMem, false)
  }

  function InBuffer(data: Bytes, fromFile: bool): Outcome {
    Outcome(true, Some(data), None, true, fromFile)
  }

  function InContent(data: Bytes): Outcome {
    Outcome(true, None, Some(data), false, false)
  }

  // ---------------------------------------------------------------------------------------------
  // Names

  function NormalizedFileName(fileName: string): string {
    var index := RFind(fileName, '.');
    if index == -1 then fileName + ".abc" else fileName[..index] + ".abc"
  }

  /** The path of an asset of a JS bundle, before normalisation. */
  function BundlePath(info: WorkerInfo, uri: string): string {
    if Find(uri, '/') == 0 then uri[1..]
    else if FindText(uri, "../", 0) == 0 && !info.isStageModel then uri[3..]
    else if Find(uri, '@') == 0 then uri[Find(uri, '/') + 1..]
    else uri
  }

  /** The path of an asset of an ES module, before normalisation. */
  function ModulePath(info: WorkerInfo, uri: string): string {
    if Find(uri, '/') == 0 then uri[1..]
    else if Find(uri, '@') == 0 then info.moduleName + uri
    else uri
  }

  function FilePath(info: WorkerInfo, uri: string, isRestricted: bool): string {
    if info.isBundle then NormalizedFileName(BundlePath(info, uri))
    else
      var filePath := NormalizedFileName(ModulePath(info, uri));
      if isRestricted && FindText(filePath, RESTRICTED_PREFIX_PATH, 0) != 0 && info.apiTargetVersion >= API12
      then RESTRICTED_PREFIX_PATH + filePath
      else filePath
  }

  function Slashed(codePath: string): string {
    if codePath != "" && !EndsWith(codePath, "/") then codePath + "/" else codePath
  }

  /** A file of that name is listed in one of the asset directories. */
  predicate IsListed(files: seq<string>, fileName: string) {
    exists i :: 0 <= i < |files| && RFind(files[i], '/') != -1 && files[i][RFind(files[i], '/') + 1..] == fileName
  }

  /** The directory exists, can be listed, and lists the file. */
  predicate Lists(extractor: Extractor, directory: string, file: string) {
    extractor.dirExists(directory) && extractor.fileList(directory).Some? && file in extractor.fileList(directory).value
  }

  function FilesOf(extractor: Extractor, basePaths: seq<string>, path: string): (files: seq<string>)
    ensures forall file :: file in files <==> exists i :: 0 <= i < |basePaths| && Lists(extractor, basePaths[i] + path, file)
  {
    if basePaths == [] then []
    else
      var before := basePaths[..|basePaths| - 1];
      var assetPath := basePaths[|basePaths| - 1] + path;
      assert forall i :: 0 <= i < |before| ==> before[i] == basePaths[i];
      FilesOf(extractor, before, path)
      + if extractor.dirExists(assetPath) && extractor.fileList(assetPath).Some? then extractor.fileList(assetPath).value else []
  }

  /** The first base path under which the extractor has the entry. */
  function FirstEntry(extractor: Extractor, basePaths: seq<string>, filePath: string): (entry: Option<string>)
    ensures entry.None? ==> forall i :: 0 <= i < |basePaths| ==> !extractor.hasEntry(basePaths[i] + filePath)
    ensures entry.Some? ==> exists i :: 0 <= i < |basePaths| && entry.value == basePaths[i] + filePath
                                        && extractor.hasEntry(entry.value)
                                        && forall j :: 0 <= j < i ==> !extractor.hasEntry(basePaths[j] + filePath)
  {
    if basePaths == [] then None
    else if extractor.hasEntry(basePaths[0] + filePath) then Some(basePaths[0] + filePath)
    else
      var rest := basePaths[1..];
      var entry := FirstEntry(extractor, rest, filePath);
      assert forall i :: 0 < i < |basePaths| ==> basePaths[i] == rest[i - 1];
      assert entry.Some? ==> exists i :: 0 <= i < |basePaths| && entry.value == basePaths[i] + filePath
                                         && extractor.hasEntry(entry.value)
                                         && forall j :: 0 <= j < i ==> !extractor.hasEntry(basePaths[j] + filePath) by {
        if entry.Some? {
          var k :| 0 <= k < |rest| && entry.value == rest[k] + filePath && extractor.hasEntry(entry.value)
                   && forall j :: 0 <= j < k ==> !extractor.hasEntry(rest[j] + filePath);
          assert basePaths[k + 1] == rest[k];
        }
      }
      entry
  }

  /** The asset path outside the stage model; without a matching entry the caller's value stays. */
  function FaAmi(info: WorkerInfo, w: World, filePath: string, ami: string): string {
    var slashPos := RFind(filePath, '/');
    var extractor := w.extractor(w.loadPath(info.hapPath));
    if extractor.None? then ami
    else if !IsListed(FilesOf(extractor.value, info.assetBasePaths, filePath[..slashPos + 1]), filePath[slashPos + 1..]) then ami
    else
      var entry := FirstEntry(extractor.value, info.assetBasePaths, filePath);
      if entry.None? then ami else info.hapPath + "/" + entry.value
  }

  function Ami(info: WorkerInfo, w: World, filePath: string, ami: string): string {
    if info.isBundle && !info.isStageModel then FaAmi(info, w, filePath, ami) else info.codePath + filePath
  }

  // ---------------------------------------------------------------------------------------------
  // Reading

  predicate ApiSatisfied(info: WorkerInfo) {
    info.apiTargetVersion == 0 || info.apiTargetVersion > API8
  }

  function Sized(info: WorkerInfo, data: Bytes): Outcome {
    if !info.isDebugVersion && |data| > ASSET_FILE_MAX_SIZE then Failed(false) else InContent(data)
  }

  function ReadPlain(info: WorkerInfo, w: World, ami: string): Outcome {
    var file := w.readFile(ami);
    if file.None? || file.value == [] then Failed(false) else Sized(info, file.value)
  }

  function ReadAmi(info: WorkerInfo, w: World, ami: string, isRestricted: bool): Outcome {
    if info.isStageModel && !isRestricted && ApiSatisfied(info) && w.mapFile(ami).Mapped? then InBuffer(w.mapFile(ami).data, true)
    else if info.isStageModel && !isRestricted && info.apiTargetVersion >= API12 then Failed(true)
    else ReadPlain(info, w, ami)
  }

  /** The package of the first hap of that module, or the empty path. */
  function HapOf(haps: seq<Hap>, moduleName: string): (hapPath: string)
    ensures forall i: nat :: IsFirstHap(haps, moduleName, i) ==> hapPath == haps[i].hapPath
    ensures (forall i :: 0 <= i < |haps| ==> haps[i].moduleName != moduleName) ==> hapPath == ""
  {
    if haps == [] then ""
    else if haps[0].moduleName == moduleName then haps[0].hapPath
    else
      var rest := haps[1..];
      assert forall i :: 0 < i < |haps| ==> haps[i] == rest[i - 1];
      assert forall i: nat :: IsFirstHap(haps, moduleName, i) ==> i > 0 && IsFirstHap(rest, moduleName, i - 1);
      HapOf(rest, moduleName)
  }

  predicate IsFirstHap(haps: seq<Hap>, moduleName: string, i: nat) {
    i < |haps| && haps[i].moduleName == moduleName && forall j :: 0 <= j < i ==> haps[j].moduleName != moduleName
  }

  /** The data of the first base path under which the extractor has any. */
  function FirstExtracted(extractor: Extractor, basePaths: seq<string>, filePath: string): (data: Option<Bytes>)
    ensures data.None? ==> forall i :: 0 <= i < |basePaths| ==> extractor.extract(basePaths[i] + filePath).None?
    ensures data.Some? ==> exists i :: 0 <= i < |basePaths| && extractor.extract(basePaths[i] + filePath) == data
                                       && forall j :: 0 <= j < i ==> extractor.extract(basePaths[j] + filePath).None?
  {
    if basePaths == [] then None
    else if extractor.extract(basePaths[0] + filePath).Some? then extractor.extract(basePaths[0] + filePath)
    else
      var rest := basePaths[1..];
      var data := FirstExtracted(extractor, rest, filePath);
      assert forall i :: 0 < i < |basePaths| ==> basePaths[i] == rest[i - 1];
      assert data.Some? ==> exists i :: 0 <= i < |basePaths| && extractor.extract(basePaths[i] + filePath) == data
                                        && forall j :: 0 <= j < i ==> extractor.extract(basePaths[j] + filePath).None? by {
        if data.Some? {
          var k :| 0 <= k < |rest| && extractor.extract(rest[k] + filePath) == data
                   && forall j :: 0 <= j < k ==> extractor.extract(rest[j] + filePath).None?;
          assert basePaths[k + 1] == rest[k];
        }
      }
      data
  }

  function ModuleOf(filePath: string): string {
    if Find(filePath, '/') == -1 then filePath else filePath[..Find(filePath, '/')]
  }

  function PathInHap(filePath: string): string {
    filePath[Find(filePath, '/') + 1..]
  }

  function PackageOf(info: WorkerInfo, haps: seq<Hap>, filePath: string): string {
    if info.isStageModel then HapOf(haps, ModuleOf(filePath)) else info.hapPath
  }

  function ReadStage(info: WorkerInfo, extractor: Extractor, filePath: string, isRestricted: bool): Outcome {
    var path := PathInHap(filePath);
    var secure := !isRestricted && ApiSatisfied(info) && !extractor.isCompressed(path);
    if secure && extractor.safeData(path).Some? then InBuffer(extractor.safeData(path).value, false)
    else if secure && info.apiTargetVersion >= API12 then Failed(true)
    else if extractor.extract(path).None? then Failed(false)
    else Sized(info, extractor.extract(path).value)
  }

  function ReadFilePath(info: WorkerInfo, w: World, filePath: string, isRestricted: bool): Outcome {
    if w.haps.None? || w.haps.value == [] then Failed(false)
    else
      var extractor := w.extractor(w.loadPath(PackageOf(info, w.haps.value, filePath)));
      if extractor.None? then Failed(false)
      else if info.isStageModel then ReadStage(info, extractor.value, filePath, isRestricted)
      else
        var data := FirstExtracted(extractor.value, info.assetBasePaths, filePath);
        if data.None? then Failed(false) else Sized(info, data.value)
  }

  predicate InCache(ami: string) {
    FindText(ami, CACHE_DIRECTORY, 0) != -1
  }

  /** The uri only names the asset: nothing is read. */
  predicate OnlyNamed(info: WorkerInfo, uri: string) {
    uri == "" || (!info.isBundle && FindText(uri, BUNDLE_NAME_FLAG, 0) == 0)
  }

  /** The asset name for a uri of another bundle. */
  function NamedUri(uri: string): string {
    var realPath := uri[RFind(uri, '/') + 1..];
    if RFind(realPath, '.') != -1 then NormalizedFileName(uri) else uri
  }

  function ReadAsset(info: WorkerInfo, w: World, uri: string, ami: string, isRestricted: bool): Outcome {
    if OnlyNamed(info, uri) then Failed(false)
    else
      var filePath := FilePath(info, uri, isRestricted);
      var path := Ami(info, w, filePath, ami);
      if InCache(path) then ReadAmi(info, w, path, isRestricted) else ReadFilePath(info, w, filePath, isRestricted)
  }

  // ---------------------------------------------------------------------------------------------
  // The helper

  /** The call that mapped last, if any. */
  predicate IsLastMapped(history: seq<bool>, file: Option<nat>) {
    if file.None? then forall i :: 0 <= i < |history| ==> !history[i]
    else file.value < |history| && history[file.value] && forall i :: file.value < i < |history| ==> !history[i]
  }

  /** The buffers and the flag that the caller passes by reference. */
  class Target {
    var mapped: Option<Bytes>
    var content: Option<Bytes>
    var useSecureMem: bool

    constructor ()
      ensures mapped == None && content == None && !useSecureMem
    {
      mapped, content, useSecureMem := None, None, false;
    }

    /** The read filled what its outcome says and left the other buffer as it was. */
    twostate predicate Filled(o: Outcome)
      reads this
    {
      && mapped == (if o.mapped.Some? then o.mapped else old(mapped))
      && content == (if o.content.Some? then o.content else old(content))
      && useSecureMem == o.useSecureMem
    }
  }

  class AssetHelper {
    var info: WorkerInfo
    /** The file kept open, named by the call that opened it. */
    var file: Option<nat>
    /** How many calls have begun; names the file that the running call opens. */
    var calls: nat
    /** Every file this helper opened and has not closed. */
    ghost var open: set<nat>
    /** Of every finished call, whether it mapped a file. */
    ghost var history: seq<bool>

    ghost predicate Valid()
      reads this
    {
      && calls == |history|
      && IsLastMapped(history, file)
      && open == (if file.Some? then {file.value} else {})
    }

    constructor (info: WorkerInfo)
      ensures Valid() && history == []
      ensures this.info == info.(codePath := Slashed(info.codePath))
      ensures this.info.codePath == if info.codePath == "" || info.codePath[|info.codePath| - 1] == '/' then info.codePath
                                    else info.codePath + "/"
    {
      assert info.codePath != "" ==> info.codePath[|info.codePath| - 1..] == [info.codePath[|info.codePath| - 1]];
      this.info := info.(codePath := Slashed(info.codePath));
      file := None;
      calls := 0;
      open := {};
      history := [];
    }

    /** The destructor. */
    method Destroy()
      requires Valid()
      modifies this
      ensures open == {}
    {
      if file.Some? {
        open := open - {file.value};
        file := None;
      }
    }

    method GetSafeData(w: World, ami: string, target: Target) returns (ok: bool)
      requires Valid()
      modifies this`file, this`open, target`mapped
      ensures ok == w.mapFile(ami).Mapped?
      ensures target.mapped == if ok then Some(w.mapFile(ami).data) else old(target.mapped)
      ensures KeepsOpen(ok)
    {
      var mapping := w.mapFile(ami);
      if mapping.NoPath? {
        return false;
      }
      if mapping.NotOpened? {
        return false;
      }
      var fileF := calls;
      open := open + {fileF};
      if mapping.NoStat? {
        open := open - {fileF};
        return false;
      }
      if mapping.NotMapped? {
        open := open - {fileF};
        return false;
      }
      target.mapped := Some(mapping.data);
      if file.Some? {
        open := open - {file.value};
        file := None;
      }
      file := Some(fileF);
      return true;
    }

    /** What a call leaves open: its own file if it mapped one, otherwise what was open before. */
    twostate predicate KeepsOpen(fromFile: bool)
      reads this
    {
      && file == (if fromFile then Some(calls) else old(file))
      && open == (if fromFile then {calls} else old(open))
    }

    /** The caller has cleared the flag. */
    method ReadAmiData(w: World, ami: string, isRestricted: bool, target: Target) returns (ok: bool)
      requires Valid() && !target.useSecureMem
      modifies this`file, this`open, target
      ensures ok == ReadAmi(info, w, ami, isRestricted).ok
      ensures target.Filled(ReadAmi(info, w, ami, isRestricted))
      ensures KeepsOpen(ReadAmi(info, w, ami, isRestricted).fromFile)
    {
      var apiTargetVersion := info.apiTargetVersion;
      var apiSatisfy := apiTargetVersion == 0 || apiTargetVersion > API8;
      if info.isStageModel && !isRestricted && apiSatisfy {
        if apiTargetVersion >= API12 {
          target.useSecureMem := true;
          ok := GetSafeData(w, ami, target);
          return;
        }
        ok := GetSafeData(w, ami, target);
        if ok {
          target.useSecureMem := true;
          return;
        }
      }
      var stream := w.readFile(ami);
      if stream.None? {
        return false;
      }
      var fileLen := |stream.value|;
      if !info.isDebugVersion && fileLen > ASSET_FILE_MAX_SIZE {
        return false;
      }
      if fileLen <= 0 {
        return false;
      }
      target.content := stream;
      return true;
    }

    method FindHap(haps: seq<Hap>, moduleName: string) returns (hapPath: string)
      ensures hapPath == HapOf(haps, moduleName)
    {
      for i := 0 to |haps|
        invariant HapOf(haps, moduleName) == HapOf(haps[i..], moduleName)
      {
        if haps[i].moduleName == moduleName {
          return haps[i].hapPath;
        }
      }
      return "";
    }

    method ExtractFromBase(extractor: Extractor, filePath: string) returns (data: Option<Bytes>)
      ensures data == FirstExtracted(extractor, info.assetBasePaths, filePath)
    {
      for i := 0 to |info.assetBasePaths|
        invariant FirstExtracted(extractor, info.assetBasePaths, filePath)
                  == FirstExtracted(extractor, info.assetBasePaths[i..], filePath)
      {
        data := extractor.extract(info.assetBasePaths[i] + filePath);
        if data.Some? {
          return;
        }
      }
      data := None;
    }

    method ReadFilePathData(w: World, filePath: string, isRestricted: bool, target: Target) returns (ok: bool)
      requires !target.useSecureMem
      modifies target
      ensures ok == ReadFilePath(info, w, filePath, isRestricted).ok
      ensures target.Filled(ReadFilePath(info, w, filePath, isRestricted))
    {
      hide HapOf, FirstExtracted, ReadStage;
      if w.haps.None? {
        return false;
      }
      if w.haps.value == [] {
        return false;
      }
      var newHapPath := info.hapPath;
      var pos := Find(filePath, '/');
      if info.isStageModel {
        newHapPath := FindHap(w.haps.value, if pos == -1 then filePath else filePath[..pos]);
      }
      var loaded := w.extractor(w.loadPath(newHapPath));
      if loaded.None? {
        return false;
      }
      if info.isStageModel {
        ok := ReadStageData(loaded.value, filePath, isRestricted, target);
        return;
      }
      var data := ExtractFromBase(loaded.value, filePath);
      if data.None? {
        return false;
      }
      ok := Assign(data.value, target);
    }

    /** The end of it: the data goes into the content if its size allows. */
    method Assign(data: Bytes, target: Target) returns (ok: bool)
      requires !target.useSecureMem
      modifies target`content
      ensures ok == Sized(info, data).ok
      ensures target.Filled(Sized(info, data))
    {
      if !info.isDebugVersion && |data| > ASSET_FILE_MAX_SIZE {
        return false;
      }
      target.content := Some(data);
      return true;
    }

    /** The part of it for the stage model. */
    method ReadStageData(extractor: Extractor, filePath: string, isRestricted: bool, target: Target) returns (ok: bool)
      requires !target.useSecureMem
      modifies target
      ensures ok == ReadStage(info, extractor, filePath, isRestricted).ok
      ensures target.Filled(ReadStage(info, extractor, filePath, isRestricted))
    {
      hide Sized, PathInHap;
      var realFilePath := PathInHap(filePath);
      var apiTargetVersion := info.apiTargetVersion;
      var apiSatisfy := apiTargetVersion == 0 || apiTargetVersion > API8;
      if !isRestricted && apiSatisfy && !extractor.isCompressed(realFilePath) {
        var safeData := extractor.safeData(realFilePath);
        if apiTargetVersion >= API12 {
          target.useSecureMem := true;
          if safeData.None? {
            return false;
          }
          target.mapped := safeData;
          return true;
        } else if safeData.Some? {
          target.useSecureMem := true;
          target.mapped := safeData;
          return true;
        }
      }
      var data := extractor.extract(realFilePath);
      if data.None? {
        return false;
      }
      ok := Assign(data.value, target);
    }

    method ListFiles(extractor: Extractor, path: string) returns (files: seq<string>)
      ensures files == FilesOf(extractor, info.assetBasePaths, path)
    {
      files := [];
      var bases := info.assetBasePaths;
      for i := 0 to |bases|
        invariant files == FilesOf(extractor, bases[..i], path)
      {
        assert bases[..i + 1][..i] == bases[..i];
        var assetPath := bases[i] + path;
        if !extractor.dirExists(assetPath) {
          continue;
        }
        var listed := extractor.fileList(assetPath);
        if listed.None? {
          continue;
        }
        files := files + listed.value;
      }
      assert bases[..|bases|] == bases;
    }

    method FindListed(files: seq<string>, fileName: string) returns (flag: bool)
      ensures flag == IsListed(files, fileName)
    {
      for i := 0 to |files|
        invariant !IsListed(files[..i], fileName)
      {
        var filePos := RFind(files[i], '/');
        if filePos != -1 && files[i][filePos + 1..] == fileName {
          return true;
        }
        assert forall k :: 0 <= k < i ==> files[..i + 1][k] == files[..i][k];
      }
      assert files[..|files|] == files;
      return false;
    }

    method FindEntry(extractor: Extractor, targetFilePath: string) returns (entry: Option<string>)
      ensures entry == FirstEntry(extractor, info.assetBasePaths, targetFilePath)
    {
      var bases := info.assetBasePaths;
      for i := 0 to |bases|
        invariant FirstEntry(extractor, bases, targetFilePath) == FirstEntry(extractor, bases[i..], targetFilePath)
      {
        var filePathName := bases[i] + targetFilePath;
        if extractor.hasEntry(filePathName) {
          return Some(filePathName);
        }
      }
      return None;
    }

    method GetAmi(w: World, filePath: string, given: string) returns (ami: string)
      ensures ami == FaAmi(info, w, filePath, given)
    {
      ami := given;
      var slashPos := RFind(filePath, '/');
      var fileName, path := filePath[slashPos + 1..], filePath[..slashPos + 1];
      assert path + fileName == filePath;
      var loaded := w.extractor(w.loadPath(info.hapPath));
      if loaded.None? {
        return;
      }
      var extractor := loaded.value;
      var files := ListFiles(extractor, path);
      var flag := FindListed(files, fileName);
      if !flag {
        return;
      }
      var entry := FindEntry(extractor, path + fileName);
      if entry.Some? {
        ami := info.hapPath + "/" + entry.value;
      }
    }

    /**
      The call operator; `named` is the asset path it leaves with the caller.  With empty buffers at most
      one is filled, and the flag tells which.
    */
    method Read(w: World, uri: string, ami: string, isRestricted: bool, target: Target) returns (named: string)
      requires Valid()
      modifies this, target
      ensures Valid() && info == old(info)
      ensures uri != "" ==> target.Filled(ReadAsset(info, w, uri, ami, isRestricted))
      ensures uri == "" ==> unchanged(target)
      ensures uri != "" && old(target.mapped).None? && old(target.content).None? ==>
                && (target.mapped.None? || target.content.None?)
                && (target.mapped.Some? ==> target.useSecureMem) && (target.content.Some? ==> !target.useSecureMem)
      ensures uri == "" ==> named == ami
      ensures uri != "" && OnlyNamed(info, uri) ==> named == NamedUri(uri)
      ensures !OnlyNamed(info, uri) ==> named == Ami(info, w, FilePath(info, uri, isRestricted), ami)
      ensures history == old(history) + [ReadAsset(info, w, uri, ami, isRestricted).fromFile]
      ensures file == if ReadAsset(info, w, uri, ami, isRestricted).fromFile then Some(|old(history)|) else old(file)
    {
      hide FilePath, FaAmi, ReadAmi, ReadFilePath, NormalizedFileName, NamedUri, InCache;
      hide Mappable, MapsRightly, WithinLimit;
      ReadGuarantees(info, w, uri, ami, isRestricted);
      named := ami;
      if uri != "" {
        target.useSecureMem := false;
        if OnlyNamed(info, uri) {
          named := NamedUri(uri);
        } else {
          var filePath := FilePath(info, uri, isRestricted);
          if info.isBundle && !info.isStageModel {
            named := GetAmi(w, filePath, ami);
          } else {
            named := info.codePath + filePath;
          }
          var ok;
          if InCache(named) {
            ok := ReadAmiData(w, named, isRestricted, target);
          } else {
            ok := ReadFilePathData(w, filePath, isRestricted, target);
            FilePathRead(info, w, filePath, isRestricted);
          }
        }
      }
      history := history + [ReadAsset(info, w, uri, ami, isRestricted).fromFile];
      calls := calls + 1;
    }
  }

  // ---------------------------------------------------------------------------------------------
  // What a read guarantees

  /** Success fills exactly one of the two buffers and says which; failure fills none. */
  predicate FillsOne(o: Outcome) {
    && (o.ok ==> o.mapped.Some? != o.content.Some? && o.useSecureMem == o.mapped.Some?)
    && (!o.ok ==> o.mapped.None? && o.content.None?)
    && (o.fromFile ==> o.mapped.Some?)
  }

  /** Nothing above the limit is copied outside debug versions. */
  predicate WithinLimit(info: WorkerInfo, o: Outcome) {
    o.content.Some? && !info.isDebugVersion ==> |o.content.value| <= ASSET_FILE_MAX_SIZE
  }

  /** A mapped buffer comes from a place that can be mapped; from API 12 on such a place is never copied. */
  predicate MapsRightly(info: WorkerInfo, o: Outcome, mappable: bool) {
    && (o.mapped.Some? ==> mappable)
    && (mappable && info.apiTargetVersion >= API12 ==> o.content.None?)
  }

  predicate Unrestricted(info: WorkerInfo, isRestricted: bool) {
    info.isStageModel && !isRestricted && ApiSatisfied(info)
  }

  /** The stage model can map this asset: always in the cache, elsewhere unless it is compressed. */
  predicate Mappable(info: WorkerInfo, w: World, uri: string, ami: string, isRestricted: bool) {
    var filePath := FilePath(info, uri, isRestricted);
    && Unrestricted(info, isRestricted)
    && (InCache(Ami(info, w, filePath, ami)) || Uncompressed(info, w, filePath))
  }

  predicate Uncompressed(info: WorkerInfo, w: World, filePath: string) {
    w.haps.Some?
    && var extractor := w.extractor(w.loadPath(PackageOf(info, w.haps.value, filePath)));
       extractor.Some? && !extractor.value.isCompressed(PathInHap(filePath))
  }

  lemma AmiRead(info: WorkerInfo, w: World, ami: string, isRestricted: bool)
    ensures var o := ReadAmi(info, w, ami, isRestricted);
            FillsOne(o) && WithinLimit(info, o) && MapsRightly(info, o, Unrestricted(info, isRestricted))
  {
  }

  lemma StageRead(info: WorkerInfo, extractor: Extractor, filePath: string, isRestricted: bool)
    requires info.isStageModel
    ensures var o := ReadStage(info, extractor, filePath, isRestricted);
            && FillsOne(o) && WithinLimit(info, o) && !o.fromFile
            && MapsRightly(info, o, Unrestricted(info, isRestricted) && !extractor.isCompressed(PathInHap(filePath)))
  {
    hide PathInHap;
  }

  lemma FilePathRead(info: WorkerInfo, w: World, filePath: string, isRestricted: bool)
    ensures var o := ReadFilePath(info, w, filePath, isRestricted);
            && FillsOne(o) && WithinLimit(info, o) && !o.fromFile
            && MapsRightly(info, o, Unrestricted(info, isRestricted) && Uncompressed(info, w, filePath))
  {
    hide PackageOf, PathInHap, ReadStage;
    if w.haps.Some? {
      var extractor := w.extractor(w.loadPath(PackageOf(info, w.haps.value, filePath)));
      if extractor.Some? && info.isStageModel {
        StageRead(info, extractor.value, filePath, isRestricted);
      }
    }
  }

  /**
    Every read, whatever the setting, the uri and the answers, fills exactly one buffer or none, keeps
    the limit, maps only what can be mapped and never copies that from API 12 on.  A file of its own is
    mapped only for a path in the cache.
  */
  lemma ReadGuarantees(info: WorkerInfo, w: World, uri: string, ami: string, isRestricted: bool)
    ensures var o := ReadAsset(info, w, uri, ami, isRestricted);
            && FillsOne(o) && WithinLimit(info, o)
            && MapsRightly(info, o, !OnlyNamed(info, uri) && Mappable(info, w, uri, ami, isRestricted))
            && (o.fromFile ==> InCache(Ami(info, w, FilePath(info, uri, isRestricted), ami)))
  {
    hide FilePath, Ami, ReadAmi, ReadFilePath, Unrestricted, Uncompressed, InCache, OnlyNamed;
    var filePath := FilePath(info, uri, isRestricted);
    var path := Ami(info, w, filePath, ami);
    AmiRead(info, w, path, isRestricted);
    FilePathRead(info, w, filePath, isRestricted);
  }

  /** Normalised names end in ".abc", and normalising again changes nothing. */
  lemma NormalizedIsStable(fileName: string)
    ensures EndsWith(NormalizedFileName(fileName), ".abc")
    ensures NormalizedFileName(NormalizedFileName(fileName)) == NormalizedFileName(fileName)
  {
    var name := NormalizedFileName(fileName);
    var n := |name| - 4;
    assert name[n..] == ".abc";
    assert name[n] == '.' && name[n + 1] == 'a' && name[n + 2] == 'b' && name[n + 3] == 'c';
    assert RFind(name, '.') == n;
  }

  /** The directory of a name survives unless the last dot stands before the last slash. */
  lemma DirectoryKeptIff(fileName: string)
    ensures StartsWith(NormalizedFileName(fileName), fileName[..RFind(fileName, '/') + 1])
            <==> RFind(fileName, '.') == -1 || RFind(fileName, '/') < RFind(fileName, '.')
  {
    hide RFind, StartsWith, NormalizedFileName;
    var dot, slash := RFind(fileName, '.'), RFind(fileName, '/');
    if dot == -1 || slash < dot { DirectoryKept(fileName); } else { DirectoryCut(fileName); }
  }

  lemma DirectoryKept(fileName: string)
    requires RFind(fileName, '.') == -1 || RFind(fileName, '/') < RFind(fileName, '.')
    ensures StartsWith(NormalizedFileName(fileName), fileName[..RFind(fileName, '/') + 1])
  {
    hide RFind;
    var slash := RFind(fileName, '/');
    assert NormalizedFileName(fileName)[..slash + 1] == fileName[..slash + 1];
  }

  lemma DirectoryCut(fileName: string)
    requires RFind(fileName, '.') != -1 && RFind(fileName, '.') <= RFind(fileName, '/')
    ensures !StartsWith(NormalizedFileName(fileName), fileName[..RFind(fileName, '/') + 1])
  {
    hide RFind, StartsWith;
    var dot, slash := RFind(fileName, '.'), RFind(fileName, '/');
    PrefixEnds(NormalizedFileName(fileName), fileName[..slash + 1]);
    SuffixHasNoSlash(fileName[..dot]);
  }

  lemma PrefixEnds(s: string, prefix: string)
    requires prefix != ""
    ensures StartsWith(s, prefix) ==> |prefix| <= |s| && s[|prefix| - 1] == prefix[|prefix| - 1]
  {
    assert StartsWith(s, prefix) ==> s[0..|prefix|] == prefix;
  }

  lemma SuffixHasNoSlash(stem: string)
    ensures var name := stem + ".abc"; forall i :: |stem| <= i < |name| ==> name[i] != '/'
  {
  }

  /** The last dot before the last slash: a name is cut, with its directory. */
  lemma DirectoryCutExample()
    ensures NormalizedFileName("lib.v2/worker") == "lib.abc"
  {
    var fileName := "lib.v2/worker";
    assert fileName[3] == '.';
    assert RFind(fileName, '.') == 3;
    assert fileName[..3] == "lib";
  }

  // ---------------------------------------------------------------------------------------------
  // Restricted workers

  /** From API 12 on the file path of an ES module of a restricted worker begins with "abcs/". */
  lemma RestrictedHasPrefix(info: WorkerInfo, uri: string)
    requires !info.isBundle && info.apiTargetVersion >= API12
    ensures StartsWith(FilePath(info, uri, true), RESTRICTED_PREFIX_PATH)
    ensures EndsWith(FilePath(info, uri, true), ".abc")
  {
    hide NormalizedFileName, ModulePath;
    var filePath := NormalizedFileName(ModulePath(info, uri));
    NormalizedIsStable(ModulePath(info, uri));
    var prefixed := RESTRICTED_PREFIX_PATH + filePath;
    assert prefixed[0..5] == RESTRICTED_PREFIX_PATH;
    assert prefixed[|prefixed| - 4..] == filePath[|filePath| - 4..];
  }

  /** Where an asset path leads, walked from `from`: the root, or the working directory of a relative path. */
  function Reached(from: seq<string>, ami: string): seq<string> {
    Walk(from, Segments(ami))
  }

  lemma ReachedAbcs(from: seq<string>, codePath: string, rest: string)
    requires codePath == "" || EndsWith(codePath, "/")
    ensures Reached(from, codePath + (RESTRICTED_PREFIX_PATH + rest))
            == Walk(Reached(from, codePath) + ["abcs"], Segments(rest))
  {
    hide Segments, Walk, EndsWith;
    var prefix := RESTRICTED_PREFIX_PATH;
    assert EndsWith(prefix, "/") by { EndsInSlash(); }
    WalkJoined(from, codePath, prefix + rest);
    WalkJoined(Reached(from, codePath), prefix, rest);
    IntoAbcs(Reached(from, codePath));
  }

  lemma EndsInSlash()
    ensures EndsWith(RESTRICTED_PREFIX_PATH, "/")
  {
  }

  lemma IntoAbcs(at: seq<string>)
    ensures Walk(at, Segments(RESTRICTED_PREFIX_PATH)) == at + ["abcs"]
  {
    hide Segments, Walk, Into;
    var prefix := RESTRICTED_PREFIX_PATH;
    assert prefix[4] == '/' && prefix[..4] == "abcs" && prefix[5..] == "";
    assert '/' !in "abcs";
    TwoSegments(prefix, 4);
    WalkTwo(at, "abcs", "");
    IntoName(at, "abcs");
    IntoNowhere(at + ["abcs"]);
  }

  lemma IntoNowhere(at: seq<string>)
    ensures Into(at, "") == at
  {
  }

  /**
    From API 12 on, the walk along an ES module's path of a restricted worker stays below the directory
    "abcs" of the code path, if and only if no part of the path after "abcs/" climbs more often than it
    names.
  */
  lemma RestrictedStaysInAbcsIff(info: WorkerInfo, uri: string, from: seq<string>)
    requires !info.isBundle && info.apiTargetVersion >= API12
    requires info.codePath == "" || EndsWith(info.codePath, "/")
    ensures var path := FilePath(info, uri, true);
            var abcs := Reached(from, info.codePath) + ["abcs"];
            && |path| >= 5
            && Reached(from, info.codePath + path) == Walk(abcs, Segments(path[5..]))
            && (StaysBelow(abcs, Segments(path[5..])) <==> NeverClimbsOut(Segments(path[5..])))
            && (NeverClimbsOut(Segments(path[5..])) ==> abcs <= Reached(from, info.codePath + path))
  {
    hide FilePath, Segments, Walk, StaysBelow, NeverClimbsOut, EndsWith;
    var path := FilePath(info, uri, true);
    RestrictedHasPrefix(info, uri);
    var rest := path[5..];
    assert path == RESTRICTED_PREFIX_PATH + rest;
    var abcs := Reached(from, info.codePath) + ["abcs"];
    ReachedAbcs(from, info.codePath, rest);
    StaysBelowIff(abcs, Segments(rest));
    if NeverClimbsOut(Segments(rest)) { WalkDepth(abcs, Segments(rest)); }
  }

  /** The uri "abcs/../secret.ets" leads to a file beside the directory. */
  lemma RestrictedEscapes(info: WorkerInfo, from: seq<string>)
    requires !info.isBundle && info.apiTargetVersion >= API12
    requires info.codePath == "" || EndsWith(info.codePath, "/")
    ensures var path := FilePath(info, "abcs/../secret.ets", true);
            && path == "abcs/../secret.abc"
            && Reached(from, info.codePath + path) == Reached(from, info.codePath) + ["secret.abc"]
  {
    hide FilePath, Segments, Walk, Into, EndsWith;
    EscapePath(info);
    var rest := "../secret.abc";
    var at := Reached(from, info.codePath);
    assert RESTRICTED_PREFIX_PATH + rest == "abcs/../secret.abc";
    ReachedAbcs(from, info.codePath, rest);
    assert rest[2] == '/' && rest[..2] == ".." && rest[3..] == "secret.abc";
    assert '/' !in ".." && '/' !in "secret.abc";
    TwoSegments(rest, 2);
    WalkTwo(at + ["abcs"], "..", "secret.abc");
    ClimbOnce(at, "abcs");
    IntoName(at, "secret.abc");
  }

  lemma ClimbOnce(at: seq<string>, name: string)
    ensures Into(at + [name], "..") == at
  {
  }

  lemma EscapePath(info: WorkerInfo)
    requires !info.isBundle
    ensures FilePath(info, "abcs/../secret.ets", true) == "abcs/../secret.abc"
  {
    hide Find, RFind, FindText;
    var uri, path := "abcs/../secret.ets", "abcs/../secret.abc";
    assert uri[0] == 'a' && uri[14] == '.';
    assert RFind(uri, '.') == 14;
    assert uri[..14] + ".abc" == path;
    assert OccursAt(path, RESTRICTED_PREFIX_PATH, 0);
    assert FindText(path, RESTRICTED_PREFIX_PATH, 0) == 0;
    assert NormalizedFileName(uri) == path;
    assert ModulePath(info, uri) == uri;
  }
}
