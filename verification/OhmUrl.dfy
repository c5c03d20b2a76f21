/** The rewrite of a source entry into an OhmUrl entry: `HandleOhmUrlSrcEntry` and its two helpers. */
module OhmUrl {
  import opened Text
  import opened Wrappers

  /** Every `from` becomes `to`. */
  function Replace(s: string, from: char, to: char): (r: string)
    ensures |r| == |s|
    ensures forall i :: 0 <= i < |s| ==> r[i] == if s[i] == from then to else s[i]
  {
    if s == "" then "" else [if s[0] == from then to else s[0]] + Replace(s[1..], from, to)
  }

  /** The last colon becomes a dot; without a colon the name is doubled. */
  function FileName(fileName: string): string {
    var colon := RFind(fileName, ':');
    if colon != -1 then fileName[..colon] + "." + fileName[colon + 1..] else fileName + "." + fileName
  }

  function SrcEntry(srcEntry: string): string {
    var slash := RFind(srcEntry, '/');
    if slash == -1 then FileName(srcEntry)
    else Replace(srcEntry[..slash + 1], '/', '.') + FileName(srcEntry[slash + 1..])
  }

  /** The rewritten entry has no slash, whatever the entry was. */
  lemma NoSlashLeft(srcEntry: string)
    ensures '/' !in SrcEntry(srcEntry)
  {
    var slash := RFind(srcEntry, '/');
    FileNameAddsNoSlash(if slash == -1 then srcEntry else srcEntry[slash + 1..]);
  }

  lemma FileNameAddsNoSlash(f: string)
    requires '/' !in f
    ensures '/' !in FileName(f)
  {
  }

  // ---------------------------------------------------------------------------------------------
  // Reading the parts back

  /** The pieces between the separators. */
  function Split(s: string, c: char): (parts: seq<string>)
    ensures |parts| >= 1
    ensures forall p <- parts :: c !in p
    decreases |s|
  {
    var i := Find(s, c);
    if i == -1 then [s] else [s[..i]] + Split(s[i + 1..], c)
  }

  lemma SplitFirst(head: string, rest: string, c: char)
    requires c !in head
    ensures Split(head + [c] + rest, c) == [head] + Split(rest, c)
  {
    var s := head + [c] + rest;
    assert s[|head|] == c && forall k :: 0 <= k < |head| ==> s[k] == head[k] && s[k] in head;
    assert Find(s, c) == |head|;
    assert s[..|head|] == head && s[|head| + 1..] == rest;
  }

  lemma SplitWhole(s: string, c: char)
    requires c !in s
    ensures Split(s, c) == [s]
  {
    assert Find(s, c) == -1;
  }

  /** `dir1/dir2/`, with the given separator. */
  function Directories(dirs: seq<string>, separator: char): string {
    if dirs == [] then "" else dirs[0] + [separator] + Directories(dirs[1..], separator)
  }

  /** A source entry: directories, a file and perhaps a class. */
  function Entry(dirs: seq<string>, file: string, cls: Option<string>): string {
    Directories(dirs, '/') + file + if cls.Some? then ":" + cls.value else ""
  }

  lemma ReplaceJoin(s: string, t: string, from: char, to: char)
    ensures Replace(s + t, from, to) == Replace(s, from, to) + Replace(t, from, to)
  {
  }

  lemma ReplaceNone(s: string, from: char, to: char)
    requires from !in s
    ensures Replace(s, from, to) == s
  {
    assert forall i :: 0 <= i < |s| ==> s[i] in s;
  }

  lemma {:induction false} DirectoriesDotted(dirs: seq<string>)
    requires forall d <- dirs :: '/' !in d
    ensures Replace(Directories(dirs, '/'), '/', '.') == Directories(dirs, '.')
  {
    hide Replace;
    if dirs == [] {
      ReplaceNone("", '/', '.');
    } else {
      var d, rest := dirs[0], Directories(dirs[1..], '/');
      ReplaceJoin(d + ['/'], rest, '/', '.');
      ReplaceJoin(d, ['/'], '/', '.');
      ReplaceNone(d, '/', '.');
      ReplaceSlash();
      DirectoriesDotted(dirs[1..]);
    }
  }

  lemma ReplaceSlash()
    ensures Replace(['/'], '/', '.') == ['.']
  {
  }

  lemma {:induction false} SplitDirectories(dirs: seq<string>, rest: string)
    requires forall d <- dirs :: '.' !in d
    ensures Split(Directories(dirs, '.') + rest, '.') == dirs + Split(rest, '.')
  {
    hide Split;
    if dirs == [] {
      assert Directories(dirs, '.') + rest == rest;
    } else {
      var tail := Directories(dirs[1..], '.');
      assert Directories(dirs, '.') + rest == dirs[0] + ['.'] + (tail + rest);
      SplitFirst(dirs[0], tail + rest, '.');
      SplitDirectories(dirs[1..], rest);
      assert dirs == [dirs[0]] + dirs[1..];
    }
  }

  /** The last name of the rewritten entry: the class, or the file again when no class was given. */
  function LastName(file: string, cls: Option<string>): string {
    if cls.Some? then cls.value else file
  }

  /** The part of an entry after the directories. */
  function Tail(file: string, cls: Option<string>): string {
    file + if cls.Some? then ":" + cls.value else ""
  }

  lemma FileNameIs(file: string, cls: Option<string>)
    requires ':' !in LastName(file, cls)
    ensures FileName(Tail(file, cls)) == file + "." + LastName(file, cls)
  {
    if cls.Some? {
      ClassNameIs(file, cls.value);
      assert file + (":" + cls.value) == file + [':'] + cls.value;
    } else {
      assert file + "" == file;
    }
  }

  lemma ClassNameIs(file: string, cls: string)
    requires ':' !in cls
    ensures FileName(file + [':'] + cls) == file + "." + cls
  {
    var tail := file + [':'] + cls;
    assert forall k :: |file| < k < |tail| ==> tail[k] in cls;
    assert tail[|file|] == ':';
    var colon := RFind(tail, ':');
    assert colon == |file|;
    hide RFind;
    assert tail[..colon] == file && tail[colon + 1..] == cls;
  }

  lemma SrcEntryIs(base: string, tail: string)
    requires '/' !in tail && base != "" && base[|base| - 1] == '/'
    ensures SrcEntry(base + tail) == Replace(base, '/', '.') + FileName(tail)
  {
    hide FileName, Replace;
    var s := base + tail;
    assert s[|base| - 1] == '/' && forall k :: |base| <= k < |s| ==> s[k] == tail[k - |base|] && s[k] in tail;
    assert RFind(s, '/') == |base| - 1;
    assert s[..|base|] == base && s[|base|..] == tail;
  }

  lemma EntryParts(dirs: seq<string>, file: string, cls: Option<string>)
    requires '/' !in file && '/' !in LastName(file, cls)
    ensures Entry(dirs, file, cls) == Directories(dirs, '/') + Tail(file, cls)
    ensures '/' !in Tail(file, cls)
  {
    hide Directories;
    var base := Directories(dirs, '/');
    if cls.Some? {
      assert base + file + (":" + cls.value) == base + (file + (":" + cls.value));
    } else {
      assert base + file + "" == base + (file + "");
    }
  }

  lemma NoDirectories(tail: string)
    ensures Directories([], '/') + tail == tail && forall t: string :: Directories([], '.') + t == t
  {
    assert "" + tail == tail;
  }

  lemma PlainEntryIs(tail: string)
    requires '/' !in tail
    ensures SrcEntry(tail) == FileName(tail)
  {
  }

  /** What the rewrite makes of an entry whose names have no slash, and whose last name has no colon. */
  lemma RewriteIs(dirs: seq<string>, file: string, cls: Option<string>)
    requires (forall d <- dirs :: '/' !in d) && '/' !in file && '/' !in LastName(file, cls)
    requires ':' !in LastName(file, cls)
    ensures SrcEntry(Entry(dirs, file, cls)) == Directories(dirs, '.') + (file + "." + LastName(file, cls))
  {
    hide FileName, Replace, SrcEntry, Tail, Entry, Directories, LastName;
    var base, tail := Directories(dirs, '/'), Tail(file, cls);
    EntryParts(dirs, file, cls);
    FileNameIs(file, cls);
    if dirs == [] {
      PlainEntryIs(tail);
      NoDirectories(tail);
    } else {
      EndsInSlash(dirs);
      SrcEntryIs(base, tail);
      DirectoriesDotted(dirs);
    }
  }

  lemma {:induction false} EndsInSlash(dirs: seq<string>)
    requires dirs != []
    ensures var base := Directories(dirs, '/'); |base| > 0 && base[|base| - 1] == '/'
  {
    if |dirs| > 1 { EndsInSlash(dirs[1..]); }
  }

  /**
    Splitting the rewritten entry at its dots gives back the directories, the file and the class (or the
    file again), exactly when none of these names contains a dot.
  */
  lemma PartsReadBackIffDotFree(dirs: seq<string>, file: string, cls: Option<string>)
    requires (forall d <- dirs :: '/' !in d) && '/' !in file && '/' !in LastName(file, cls)
    requires ':' !in LastName(file, cls)
    ensures Split(SrcEntry(Entry(dirs, file, cls)), '.') == dirs + [file, LastName(file, cls)]
      <==> (forall d <- dirs :: '.' !in d) && '.' !in file && '.' !in LastName(file, cls)
  {
    var last := LastName(file, cls);
    var clean := (forall d <- dirs :: '.' !in d) && '.' !in file && '.' !in last;
    if clean { PartsReadBack(dirs, file, cls); }
    var parts := Split(SrcEntry(Entry(dirs, file, cls)), '.');
    assert forall p <- parts :: '.' !in p;
    hide Split, SrcEntry, Entry;
    if parts == dirs + [file, last] {
      assert forall d <- dirs :: d in parts;
      assert parts[|dirs|] == file && parts[|dirs| + 1] == last;
    }
  }

  lemma PartsReadBack(dirs: seq<string>, file: string, cls: Option<string>)
    requires (forall d <- dirs :: '/' !in d) && '/' !in file && '/' !in LastName(file, cls)
    requires ':' !in LastName(file, cls)
    requires (forall d <- dirs :: '.' !in d) && '.' !in file && '.' !in LastName(file, cls)
    ensures Split(SrcEntry(Entry(dirs, file, cls)), '.') == dirs + [file, LastName(file, cls)]
  {
    hide Split, SrcEntry, Entry;
    var last := LastName(file, cls);
    RewriteIs(dirs, file, cls);
    SplitDirectories(dirs, file + "." + last);
    SplitFirst(file, last, '.');
    SplitWhole(last, '.');
    assert [file] + [last] == [file, last];
  }
}
