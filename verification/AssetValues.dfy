/** The names, paths and outcomes of `AssetReader`, written out from the uri, the settings and the answers. */
module AssetValues {
  import opened Text
  import opened Wrappers
  import opened AssetReader

  // ---------------------------------------------------------------------------------------------
  // Searches in joined text

  lemma FindsFirst(head: string, c: char, tail: string)
    requires c !in head
    ensures Find(head + [c] + tail, c) == |head|
    ensures (head + [c] + tail)[|head| + 1..] == tail && (head + [c] + tail)[..|head|] == head
  {
    hide Find;
    var s := head + [c] + tail;
    assert s[|head|] == c && forall k :: 0 <= k < |head| ==> s[k] == head[k];
  }

  lemma FindsLast(head: string, c: char, tail: string)
    requires c !in tail
    ensures RFind(head + [c] + tail, c) == |head|
    ensures (head + [c] + tail)[|head| + 1..] == tail && (head + [c] + tail)[..|head|] == head
  {
    hide RFind;
    var s := head + [c] + tail;
    assert s[|head|] == c && forall k :: |head| < k < |s| ==> s[k] == tail[k - |head| - 1];
  }

  lemma StartsIs(s: string, prefix: string)
    ensures FindText(s, prefix, 0) == 0 <==> prefix <= s
  {
    hide FindText;
    if prefix <= s {
      assert s[0..|prefix|] == prefix;
      assert OccursAt(s, prefix, 0);
    }
    assert FindText(s, prefix, 0) == 0 ==> s[0..|prefix|] == prefix;
  }

  lemma FirstCharIs(s: string, c: char)
    requires s != ""
    ensures Find(s, c) == 0 <==> s[0] == c
  {
    hide Find;
  }

  // ---------------------------------------------------------------------------------------------
  // Names

  /** The file type becomes ".abc"; a name without one gets it. */
  lemma NormalizedIs(stem: string, fileType: string)
    requires '.' !in fileType
    ensures NormalizedFileName(stem + "." + fileType) == stem + ".abc"
    ensures '.' !in stem ==> NormalizedFileName(stem) == stem + ".abc"
  {
    FindsLast(stem, '.', fileType);
    hide RFind;
  }

  /** In an ES module a leading slash goes, a namespace is put behind the module, and any other uri is the path. */
  lemma ModulePathIs(info: WorkerInfo, uri: string)
    requires uri != ""
    ensures ModulePath(info, uri)
            == if uri[0] == '/' then uri[1..] else if uri[0] == '@' then info.moduleName + uri else uri
  {
    FirstCharIs(uri, '/');
    FirstCharIs(uri, '@');
    hide Find;
  }

  /** In a JS bundle a leading slash goes, outside the stage model "../" too, and of a namespace all up to its slash. */
  lemma BundlePathIs(info: WorkerInfo, uri: string, namespace: string, rest: string)
    requires uri != ""
    ensures uri[0] == '/' ==> BundlePath(info, uri) == uri[1..]
    ensures !info.isStageModel && "../" <= uri ==> BundlePath(info, uri) == uri[3..]
    ensures uri[0] == '@' && '/' !in namespace && uri == namespace + ['/'] + rest ==> BundlePath(info, uri) == rest
    ensures uri[0] == '@' && '/' !in uri ==> BundlePath(info, uri) == uri
    ensures uri[0] != '/' && uri[0] != '@' && !(!info.isStageModel && "../" <= uri) ==> BundlePath(info, uri) == uri
  {
    FirstCharIs(uri, '/');
    FirstCharIs(uri, '@');
    StartsIs(uri, "../");
    if '/' !in namespace && uri == namespace + ['/'] + rest { FindsFirst(namespace, '/', rest); }
    hide Find, FindText;
  }

  /** The file path: the normalised path, under "abcs/" for a restricted ES module from API 12 on if it is not already. */
  lemma FilePathIs(info: WorkerInfo, uri: string, isRestricted: bool)
    ensures var path := NormalizedFileName(if info.isBundle then BundlePath(info, uri) else ModulePath(info, uri));
            FilePath(info, uri, isRestricted)
            == if !info.isBundle && isRestricted && info.apiTargetVersion >= 12 && !("abcs/" <= path) then "abcs/" + path
               else path
  {
    hide NormalizedFileName, BundlePath, ModulePath;
    StartsIs(NormalizedFileName(ModulePath(info, uri)), "abcs/");
    hide FindText;
  }

  /** The module of a file path and the path in its package; a path without a slash is both. */
  lemma PartsOfFilePath(moduleName: string, rest: string)
    requires '/' !in moduleName
    ensures ModuleOf(moduleName + ['/'] + rest) == moduleName && PathInHap(moduleName + ['/'] + rest) == rest
    ensures ModuleOf(moduleName) == moduleName && PathInHap(moduleName) == moduleName
  {
    FindsFirst(moduleName, '/', rest);
    hide Find;
  }

  /** A uri of another bundle is normalised when its last segment has a file type. */
  lemma NamedUriIs(directory: string, name: string)
    requires '/' !in name
    ensures var uri := directory + ['/'] + name;
            NamedUri(uri) == if '.' in name then NormalizedFileName(uri) else uri
  {
    FindsLast(directory, '/', name);
    hide RFind, NormalizedFileName;
  }

  lemma InCacheIs(path: string)
    ensures InCache(path) <==> exists k: nat :: OccursAt(path, "el2", k)
  {
    hide FindText;
  }

  lemma OnlyNamedIs(info: WorkerInfo, uri: string)
    ensures OnlyNamed(info, uri) <==> uri == "" || (!info.isBundle && "@bundle:" <= uri)
  {
    StartsIs(uri, "@bundle:");
    hide FindText;
  }

  /** In the stage model and for ES modules the asset is below the code path. */
  lemma AmiIs(info: WorkerInfo, w: World, filePath: string, given: string)
    requires !info.isBundle || info.isStageModel
    ensures Ami(info, w, filePath, given) == info.codePath + filePath
  {
    hide FaAmi;
  }

  /** The file is named like that in some directory. */
  predicate EndsInName(file: string, name: string) {
    |name| < |file| && file[|file| - |name| - 1] == '/' && file[|file| - |name|..] == name
  }

  lemma LastSegment(file: string, name: string)
    requires '/' !in name
    ensures EndsInName(file, name) <==> RFind(file, '/') != -1 && file[RFind(file, '/') + 1..] == name
  {
    hide RFind;
    if EndsInName(file, name) {
      var k := |file| - |name| - 1;
      assert forall i :: k < i < |file| ==> file[i] == file[|file| - |name|..][i - k - 1];
      assert RFind(file, '/') == k;
    }
  }

  /** Some asset directory of the package exists and lists a file of that name. */
  ghost predicate SomewhereListed(info: WorkerInfo, x: Extractor, directory: string, name: string) {
    exists i: nat, file: string {:trigger Lists(x, info.assetBasePaths[i] + directory, file)} ::
      i < |info.assetBasePaths| && Lists(x, info.assetBasePaths[i] + directory, file) && EndsInName(file, name)
  }

  /** Base path `i` is the first one below which the package has the entry. */
  predicate FirstBase(info: WorkerInfo, x: Extractor, filePath: string, i: nat) {
    && i < |info.assetBasePaths| && x.hasEntry(info.assetBasePaths[i] + filePath)
    && forall j :: 0 <= j < i ==> !x.hasEntry(info.assetBasePaths[j] + filePath)
  }

  lemma ListedIs(info: WorkerInfo, x: Extractor, directory: string, name: string)
    requires '/' !in name
    ensures IsListed(FilesOf(x, info.assetBasePaths, directory), name) <==> SomewhereListed(info, x, directory, name)
  {
    hide RFind, EndsInName, Lists, FilesOf;
    var files := FilesOf(x, info.assetBasePaths, directory);
    if IsListed(files, name) {
      var i :| 0 <= i < |files| && RFind(files[i], '/') != -1 && files[i][RFind(files[i], '/') + 1..] == name;
      LastSegment(files[i], name);
      assert files[i] in files;
    }
    if SomewhereListed(info, x, directory, name) {
      var i: nat, file: string :|
        i < |info.assetBasePaths| && Lists(x, info.assetBasePaths[i] + directory, file) && EndsInName(file, name);
      LastSegment(file, name);
      assert file in files;
    }
  }

  /**
    Outside the stage model the asset of a JS bundle is the entry below the first base path that has it,
    when some asset directory lists a file of its name; otherwise the caller's value stays.
  */
  lemma FaAmiIs(info: WorkerInfo, w: World, directory: string, name: string, given: string)
    requires '/' !in name && (directory == "" || directory[|directory| - 1] == '/')
    ensures var x := w.extractor(w.loadPath(info.hapPath));
            var filePath := directory + name;
            var ami := FaAmi(info, w, filePath, given);
            && (x.None? || !SomewhereListed(info, x.value, directory, name) ==> ami == given)
            && (x.Some? && (forall i: nat :: !FirstBase(info, x.value, filePath, i)) ==> ami == given)
            && (x.Some? && SomewhereListed(info, x.value, directory, name) ==>
                  forall i: nat :: FirstBase(info, x.value, filePath, i) ==>
                    ami == info.hapPath + "/" + (info.assetBasePaths[i] + filePath))
  {
    var filePath := directory + name;
    SplitsAtSlash(directory, name);
    hide RFind, IsListed, FilesOf, SomewhereListed;
    var x := w.extractor(w.loadPath(info.hapPath));
    if x.Some? {
      ListedIs(info, x.value, directory, name);
      EntryIs(info, x.value, filePath);
    }
    hide FirstEntry, FirstBase;
  }

  lemma EntryIs(info: WorkerInfo, x: Extractor, filePath: string)
    ensures var entry := FirstEntry(x, info.assetBasePaths, filePath);
            && ((forall i: nat :: !FirstBase(info, x, filePath, i)) ==> entry.None?)
            && (forall i: nat :: FirstBase(info, x, filePath, i) ==> entry == Some(info.assetBasePaths[i] + filePath))
  {
    hide FirstEntry;
    var entry := FirstEntry(x, info.assetBasePaths, filePath);
    if entry.Some? {
      var i :| 0 <= i < |info.assetBasePaths| && entry.value == info.assetBasePaths[i] + filePath
               && x.hasEntry(entry.value) && forall j :: 0 <= j < i ==> !x.hasEntry(info.assetBasePaths[j] + filePath);
      assert FirstBase(info, x, filePath, i);
      assert forall k: nat :: FirstBase(info, x, filePath, k) ==> k == i;
    }
  }

  lemma SplitsAtSlash(directory: string, name: string)
    requires '/' !in name && (directory == "" || directory[|directory| - 1] == '/')
    ensures var filePath := directory + name; var slash := RFind(filePath, '/');
            filePath[..slash + 1] == directory && filePath[slash + 1..] == name
  {
    hide RFind;
    var filePath := directory + name;
    assert forall k :: |directory| <= k < |filePath| ==> filePath[k] == name[k - |directory|];
    if directory != "" { assert filePath[|directory| - 1] == '/'; }
    assert RFind(filePath, '/') == |directory| - 1;
  }

  // ---------------------------------------------------------------------------------------------
  // Outcomes

  /** The package that an asset outside the cache is read from, if it opens. */
  function Package(info: WorkerInfo, w: World, filePath: string): Option<Extractor> {
    if w.haps.None? || w.haps.value == [] then None else w.extractor(w.loadPath(PackageOf(info, w.haps.value, filePath)))
  }

  /** The package is that of the first hap of the module, none when there is no such hap, and outside the stage model the set one. */
  lemma PackageIs(info: WorkerInfo, haps: seq<Hap>, filePath: string)
    ensures !info.isStageModel ==> PackageOf(info, haps, filePath) == info.hapPath
    ensures info.isStageModel ==>
              && (forall i: nat :: IsFirstHap(haps, ModuleOf(filePath), i) ==> PackageOf(info, haps, filePath) == haps[i].hapPath)
              && ((forall i :: 0 <= i < |haps| ==> haps[i].moduleName != ModuleOf(filePath)) ==>
                    PackageOf(info, haps, filePath) == "")
  {
    hide ModuleOf;
  }

  /** A stage-model worker without restriction, of no or a new enough API version. */
  predicate MayMap(info: WorkerInfo, isRestricted: bool) {
    info.isStageModel && !isRestricted && (info.apiTargetVersion == 0 || info.apiTargetVersion > 8)
  }

  /** What mapping gives: of the file in the cache, elsewhere of an uncompressed entry. */
  function Mappings(info: WorkerInfo, w: World, filePath: string, path: string, isRestricted: bool): Option<Bytes> {
    if !MayMap(info, isRestricted) then None
    else if InCache(path) then if w.mapFile(path).Mapped? then Some(w.mapFile(path).data) else None
    else
      var x := Package(info, w, filePath);
      if x.None? || x.value.isCompressed(PathInHap(filePath)) then None else x.value.safeData(PathInHap(filePath))
  }

  /** From API 12 on such an asset is mapped or not read at all. */
  predicate MapsOnly(info: WorkerInfo, w: World, filePath: string, path: string, isRestricted: bool) {
    && MayMap(info, isRestricted) && info.apiTargetVersion >= 12
    && (InCache(path) || (Package(info, w, filePath).Some? && !Package(info, w, filePath).value.isCompressed(PathInHap(filePath))))
  }

  /** What copying gives: a file that is not empty, the entry of the module's package, or the first of the base paths. */
  function Copies(info: WorkerInfo, w: World, filePath: string, path: string): Option<Bytes> {
    if InCache(path) then if w.readFile(path) == Some([]) then None else w.readFile(path)
    else
      var x := Package(info, w, filePath);
      if x.None? then None
      else if info.isStageModel then x.value.extract(PathInHap(filePath))
      else FirstExtracted(x.value, info.assetBasePaths, filePath)
  }

  predicate FitsContent(info: WorkerInfo, data: Bytes) {
    info.isDebugVersion || |data| <= 33554432
  }

  /**
    A read maps when it may and can; otherwise, unless the asset is to be mapped only, it copies what
    there is to copy if that fits; the flag tells a mapping or an asset to be mapped only.
  */
  lemma ReadIs(info: WorkerInfo, w: World, uri: string, given: string, isRestricted: bool)
    ensures var o := ReadAsset(info, w, uri, given, isRestricted);
            var filePath := FilePath(info, uri, isRestricted);
            var path := Ami(info, w, filePath, given);
            var mapped := Mappings(info, w, filePath, path, isRestricted);
            var only := MapsOnly(info, w, filePath, path, isRestricted);
            var copied := Copies(info, w, filePath, path);
            if OnlyNamed(info, uri) then !o.ok && o.mapped.None? && o.content.None? && !o.useSecureMem
            else
              && o.mapped == mapped
              && o.content == (if mapped.None? && !only && copied.Some? && FitsContent(info, copied.value) then copied else None)
              && o.useSecureMem == (mapped.Some? || only)
              && o.ok == (o.mapped.Some? || o.content.Some?)
              && o.fromFile == (mapped.Some? && InCache(path))
  {
    hide FilePath, Ami, InCache, OnlyNamed, PackageOf, PathInHap, FirstExtracted, ReadAmi, ReadFilePath;
    hide Mappings, MapsOnly, Copies, FitsContent;
    var filePath := FilePath(info, uri, isRestricted);
    var path := Ami(info, w, filePath, given);
    if InCache(path) {
      AmiReadIs(info, w, filePath, path, isRestricted);
    } else {
      FilePathReadIs(info, w, filePath, path, isRestricted);
    }
  }

  predicate Is(info: WorkerInfo, o: Outcome, mapped: Option<Bytes>, only: bool, copied: Option<Bytes>) {
    && o.mapped == mapped
    && o.content == (if mapped.None? && !only && copied.Some? && FitsContent(info, copied.value) then copied else None)
    && o.useSecureMem == (mapped.Some? || only)
    && o.ok == (o.mapped.Some? || o.content.Some?)
  }

  lemma AmiReadIs(info: WorkerInfo, w: World, filePath: string, path: string, isRestricted: bool)
    requires InCache(path)
    ensures var o := ReadAmi(info, w, path, isRestricted);
            var mapped := Mappings(info, w, filePath, path, isRestricted);
            && Is(info, o, mapped, MapsOnly(info, w, filePath, path, isRestricted), Copies(info, w, filePath, path))
            && o.fromFile == mapped.Some?
  {
    hide Package, PathInHap, InCache;
  }

  lemma StageReadIs(info: WorkerInfo, w: World, x: Extractor, filePath: string, path: string, isRestricted: bool)
    requires !InCache(path) && info.isStageModel && Package(info, w, filePath) == Some(x)
    ensures var o := ReadStage(info, x, filePath, isRestricted);
            && Is(info, o, Mappings(info, w, filePath, path, isRestricted), MapsOnly(info, w, filePath, path, isRestricted),
                  Copies(info, w, filePath, path))
            && !o.fromFile
  {
    hide Package, PathInHap, InCache;
  }

  lemma FilePathReadIs(info: WorkerInfo, w: World, filePath: string, path: string, isRestricted: bool)
    requires !InCache(path)
    ensures var o := ReadFilePath(info, w, filePath, isRestricted);
            && Is(info, o, Mappings(info, w, filePath, path, isRestricted), MapsOnly(info, w, filePath, path, isRestricted),
                  Copies(info, w, filePath, path))
            && !o.fromFile
  {
    hide PathInHap, InCache, PackageOf, FirstExtracted, ReadStage;
    var x := Package(info, w, filePath);
    if x.Some? && info.isStageModel { StageReadIs(info, w, x.value, filePath, path, isRestricted); }
  }
}
