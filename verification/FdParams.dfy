/**
  File descriptors carried in the parameters of a want: `InjectFdsArrayToWantParams` and
  `ExtractFdsArrayFromWantParams`.
*/
module FdParams {
  import opened Wrappers

  /** A boxed parameter.  `Other` stands for every kind that is neither string, integer nor nested. */
  datatype Value = Str(text: string) | Num(n: int) | Nested(params: map<string, Value>) | Other(id: int)

  /** A C string: a null pointer or a text. */
  datatype CString = Null | Text(text: string)

  datatype FdParam = FdParam(key: CString, value: int)

  datatype Head = NullHead | Cells(cells: seq<FdParam>)

  datatype FdArray = FdArray(head: Head, size: int)

  /** The memory behind `head` holds as many cells as `size` says. */
  predicate Readable(a: FdArray) {
    a.head.Cells? ==> a.size <= |a.head.cells|
  }

  /** The cells that injection visits. */
  function Visited(a: FdArray): seq<FdParam>
    requires Readable(a)
  {
    if a.head.NullHead? || a.size <= 0 then [] else a.head.cells[..a.size]
  }

  // ---------------------------------------------------------------------------------------------
  // The shape of a descriptor

  predicate IsFdParam(wp: map<string, Value>) {
    |wp| == 2 && "type" in wp && wp["type"] == Str("FD")
  }

  function ExtractFdValue(wp: map<string, Value>): Option<int> {
    if "value" in wp && wp["value"].Num? then Some(wp["value"].n) else None
  }

  function FdShape(fd: int): Value {
    Nested(map["type" := Str("FD"), "value" := Num(fd)])
  }

  /** The descriptor that extraction reads from a parameter, if any. */
  function FdOf(v: Value): Option<int> {
    if v.Nested? && IsFdParam(v.params) then ExtractFdValue(v.params) else None
  }

  /** Extraction recognises exactly what injection writes. */
  lemma FdOfIffShape(v: Value, fd: int)
    ensures FdOf(v) == Some(fd) <==> v == FdShape(fd)
  {
    var shape := map["type" := Str("FD"), "value" := Num(fd)];
    assert |shape| == 2 by {
      assert shape.Keys == {"type", "value"};
      assert |shape| == |shape.Keys|;
    }
    if FdOf(v) == Some(fd) {
      TwoKeys(v.params, "type", "value");
      assert v.params == shape;
    }
  }

  lemma TwoKeys(m: map<string, Value>, a: string, b: string)
    requires |m| == 2 && a in m && b in m && a != b
    ensures m.Keys == {a, b}
  {
    var rest := m.Keys - {a, b};
    assert |m.Keys| == |m|;
    assert m.Keys == {a, b} + rest;
    assert |m.Keys| == |{a, b}| + |rest|;
  }

  // ---------------------------------------------------------------------------------------------
  // Injection as a function of the visited cells

  function Injected(p: map<string, Value>, cells: seq<FdParam>): map<string, Value> {
    if cells == [] then p
    else
      var before := Injected(p, cells[..|cells| - 1]);
      var cell := cells[|cells| - 1];
      if cell.key == Null then before else before[cell.key.text := FdShape(cell.value)]
  }

  /** Cell `i` is the last one with key `k`. */
  predicate IsLast(cells: seq<FdParam>, k: string, i: nat) {
    i < |cells| && cells[i].key == Text(k) && forall j :: i < j < |cells| ==> cells[j].key != Text(k)
  }

  predicate Named(cells: seq<FdParam>, k: string) {
    exists i :: 0 <= i < |cells| && cells[i].key == Text(k)
  }

  /** A cell of another key at the end does not matter to the key. */
  lemma LastOfBefore(cells: seq<FdParam>, k: string, i: nat)
    requires cells != [] && cells[|cells| - 1].key != Text(k)
    ensures IsLast(cells, k, i) <==> IsLast(cells[..|cells| - 1], k, i)
  {
  }

  lemma NamedBefore(cells: seq<FdParam>, k: string)
    requires cells != []
    ensures Named(cells, k) <==> Named(cells[..|cells| - 1], k) || cells[|cells| - 1].key == Text(k)
  {
    var before := cells[..|cells| - 1];
    assert forall i :: 0 <= i < |before| ==> before[i] == cells[i];
  }

  lemma {:induction false} NamedHasLast(cells: seq<FdParam>, k: string)
    ensures Named(cells, k) <==> exists i: nat :: IsLast(cells, k, i)
  {
    if cells != [] {
      var n := |cells| - 1;
      if cells[n].key == Text(k) {
        assert IsLast(cells, k, n);
      } else {
        hide IsLast, Named;
        NamedHasLast(cells[..n], k);
        NamedBefore(cells, k);
        forall i: nat ensures IsLast(cells, k, i) <==> IsLast(cells[..n], k, i) {
          LastOfBefore(cells, k, i);
        }
        assert (exists i: nat :: IsLast(cells, k, i)) <==> exists i: nat :: IsLast(cells[..n], k, i);
      }
    }
  }

  lemma {:induction false} InjectedLast(p: map<string, Value>, cells: seq<FdParam>, k: string, i: nat)
    requires IsLast(cells, k, i)
    ensures k in Injected(p, cells) && Injected(p, cells)[k] == FdShape(cells[i].value)
  {
    if i < |cells| - 1 {
      LastOfBefore(cells, k, i);
      InjectedLast(p, cells[..|cells| - 1], k, i);
    }
  }

  lemma {:induction false} InjectedUnnamed(p: map<string, Value>, cells: seq<FdParam>, k: string)
    requires !Named(cells, k)
    ensures (k in Injected(p, cells) <==> k in p) && (k in p ==> Injected(p, cells)[k] == p[k])
  {
    if cells != [] {
      NamedBefore(cells, k);
      InjectedUnnamed(p, cells[..|cells| - 1], k);
    }
  }

  /** The last cell of a key decides; a key without a cell keeps its old parameter or absence. */
  lemma InjectedAt(p: map<string, Value>, cells: seq<FdParam>, k: string)
    ensures forall i: nat :: IsLast(cells, k, i) ==> k in Injected(p, cells) && Injected(p, cells)[k] == FdShape(cells[i].value)
    ensures !Named(cells, k) ==> (k in Injected(p, cells) <==> k in p) && (k in p ==> Injected(p, cells)[k] == p[k])
    ensures Named(cells, k) <==> exists i: nat :: IsLast(cells, k, i)
  {
    hide Named, Injected;
    NamedHasLast(cells, k);
    forall i: nat | IsLast(cells, k, i)
      ensures k in Injected(p, cells) && Injected(p, cells)[k] == FdShape(cells[i].value)
    {
      InjectedLast(p, cells, k, i);
    }
    if !Named(cells, k) { InjectedUnnamed(p, cells, k); }
  }

  // ---------------------------------------------------------------------------------------------
  // The order of the keys of a map

  predicate Less(a: string, b: string) {
    b != "" && (a == "" || a[0] < b[0] || (a[0] == b[0] && Less(a[1..], b[1..])))
  }

  lemma {:induction false} LessTransitive(a: string, b: string, c: string)
    requires Less(a, b) && Less(b, c)
    ensures Less(a, c)
  {
    if a != "" && a[0] == b[0] && b[0] == c[0] {
      LessTransitive(a[1..], b[1..], c[1..]);
    }
  }

  lemma {:induction false} LessTotal(a: string, b: string)
    ensures a == b || Less(a, b) || Less(b, a)
    ensures !(Less(a, b) && Less(b, a))
    ensures a == b ==> !Less(a, b)
  {
    if a != "" && b != "" {
      LessTotal(a[1..], b[1..]);
      if a[0] == b[0] && a[1..] == b[1..] {
        assert a == [a[0]] + a[1..] && b == [b[0]] + b[1..];
      }
    }
  }

  predicate IsLeast(k: string, keys: set<string>) {
    k in keys && forall j <- keys :: j == k || Less(k, j)
  }

  lemma {:induction false} LeastExists(keys: set<string>)
    requires keys != {}
    ensures exists k :: IsLeast(k, keys)
  {
    var a :| a in keys;
    var rest := keys - {a};
    if rest == {} {
      assert keys == {a};
      assert IsLeast(a, keys);
    } else {
      LeastExists(rest);
      var b :| IsLeast(b, rest);
      LessTotal(a, b);
      if Less(a, b) {
        forall j | j in keys ensures j == a || Less(a, j) {
          if j != a && j != b {
            LessTransitive(a, b, j);
          }
        }
        assert IsLeast(a, keys);
      } else {
        assert IsLeast(b, keys);
      }
    }
  }

  // ---------------------------------------------------------------------------------------------
  // Extraction

  type Entry = (string, int)

  predicate InKeyOrder(list: seq<Entry>) {
    forall i, j :: 0 <= i < j < |list| ==> Less(list[i].0, list[j].0)
  }

  /** `list` holds, in key order, exactly the descriptors among the parameters `keys` of `p`. */
  ghost predicate ListsFds(list: seq<Entry>, p: map<string, Value>, keys: set<string>) {
    && InKeyOrder(list)
    && (forall k: string, fd: int :: (k, fd) in list <==> k in keys && k in p && FdOf(p[k]) == Some(fd))
  }

  /** Nothing else is in key order and holds the same entries: the list is determined. */
  lemma {:induction false} InOrderUnique(a: seq<Entry>, b: seq<Entry>)
    requires InKeyOrder(a) && InKeyOrder(b)
    requires forall e :: e in a <==> e in b
    ensures a == b
  {
    assert b != [] ==> b[0] in b;
    if a != [] {
      assert a[0] in a && a[0] in b;
      var x := IndexOf(b, a[0]);
      var y := IndexOf(a, b[0]);
      LessTotal(a[0].0, b[0].0);
      assert a[0] == b[0];
      forall e ensures e in a[1..] <==> e in b[1..] {
        RestOf(a, e);
        RestOf(b, e);
      }
      InOrderUnique(a[1..], b[1..]);
      assert a == [a[0]] + a[1..] && b == [b[0]] + b[1..];
    }
  }

  lemma IndexOf(s: seq<Entry>, e: Entry) returns (i: nat)
    requires e in s
    ensures i < |s| && s[i] == e
  {
    i :| 0 <= i < |s| && s[i] == e;
  }

  lemma RestOf(s: seq<Entry>, e: Entry)
    requires InKeyOrder(s) && s != []
    ensures e in s[1..] <==> e in s && e != s[0]
  {
    if e in s[1..] {
      var i := IndexOf(s[1..], e);
      assert s[i + 1] == e;
      LessTotal(s[0].0, s[i + 1].0);
    }
  }

  /** `CreateCStringFromString`: an empty text becomes a null pointer, and so does a failed copy. */
  function Copied(text: string, copies: string -> bool): CString {
    if text == "" || !copies(text) then Null else Text(text)
  }

  /** The array handed out for a list of descriptors. */
  function Handed(list: seq<Entry>, allocates: bool, copies: string -> bool): (a: FdArray)
    ensures Readable(a)
  {
    if list == [] || !allocates then FdArray(NullHead, 0)
    else FdArray(Cells(seq(|list|, i requires 0 <= i < |list| => FdParam(Copied(list[i].0, copies), list[i].1))), |list|)
  }

  class WantParams {
    var params: map<string, Value>

    method SetParam(key: string, value: Value)
      modifies this
      ensures params == old(params)[key := value]
    {
      params := params[key := value];
    }

    method InjectFdsArray(a: FdArray)
      requires Readable(a)
      modifies this
      ensures params == Injected(old(params), Visited(a))
    {
      if a.head.NullHead? || a.size <= 0 {
        return;
      }
      for i := 0 to a.size
        invariant params == Injected(old(params), a.head.cells[..i])
      {
        assert a.head.cells[..i + 1][..i] == a.head.cells[..i];
        var fdParam := a.head.cells[i];
        if fdParam.key == Null {
          continue;
        }
        SetParam(fdParam.key.text, FdShape(fdParam.value));
      }
    }

    /** The first loop of the extraction, over the keys in the order of the map. */
    method CollectFds() returns (fdsList: seq<Entry>)
      ensures ListsFds(fdsList, params, params.Keys)
    {
      fdsList := [];
      var rest := params.Keys;
      while rest != {}
        invariant rest <= params.Keys
        invariant ListsFds(fdsList, params, params.Keys - rest)
        invariant forall i, k :: 0 <= i < |fdsList| && k in rest ==> Less(fdsList[i].0, k)
      {
        LeastExists(rest);
        var key :| key in rest && IsLeast(key, rest);
        var fd := FdOf(params[key]);
        ghost var before := fdsList;
        if fd.Some? {
          fdsList := fdsList + [(key, fd.value)];
        }
        rest := rest - {key};
        Collected(before, params, key, rest);
      }
    }

    method ExtractFdsArray(allocates: bool, copies: string -> bool) returns (result: FdArray)
      ensures exists list :: ListsFds(list, params, params.Keys) && result == Handed(list, allocates, copies)
    {
      var fdsList := CollectFds();
      if fdsList == [] || !allocates {
        return FdArray(NullHead, 0);
      }
      var cells := [];
      for i := 0 to |fdsList|
        invariant cells == seq(i, j requires 0 <= j < i => FdParam(Copied(fdsList[j].0, copies), fdsList[j].1))
      {
        cells := cells + [FdParam(Copied(fdsList[i].0, copies), fdsList[i].1)];
      }
      result := FdArray(Cells(cells), |fdsList|);
    }
  }

  lemma Collected(list: seq<Entry>, p: map<string, Value>, key: string, rest: set<string>)
    requires rest <= p.Keys && key in p && key !in rest
    requires ListsFds(list, p, p.Keys - (rest + {key}))
    requires IsLeast(key, rest + {key})
    requires forall i, k :: 0 <= i < |list| && k in rest + {key} ==> Less(list[i].0, k)
    ensures var fd := FdOf(p[key]);
            var after := if fd.Some? then list + [(key, fd.value)] else list;
            && ListsFds(after, p, p.Keys - rest)
            && (forall i, k :: 0 <= i < |after| && k in rest ==> Less(after[i].0, k))
  {
  }

  // ---------------------------------------------------------------------------------------------
  // Round trips

  /**
    Injecting an array and extracting again lists, in key order, the last value of every key of the
    array and the descriptors that were already there under other keys, and nothing else.
  */
  lemma InjectThenExtract(p: map<string, Value>, a: FdArray, list: seq<Entry>)
    requires Readable(a)
    requires var q := Injected(p, Visited(a)); ListsFds(list, q, q.Keys)
    ensures InKeyOrder(list)
    ensures forall k: string, fd: int ::
              (k, fd) in list <==>
              || (exists i: nat :: IsLast(Visited(a), k, i) && Visited(a)[i].value == fd)
              || (!Named(Visited(a), k) && k in p && FdOf(p[k]) == Some(fd))
  {
    var cells := Visited(a);
    var q := Injected(p, cells);
    forall k: string, fd: int
      ensures (k, fd) in list <==>
              || (exists i: nat :: IsLast(cells, k, i) && cells[i].value == fd)
              || (!Named(cells, k) && k in p && FdOf(p[k]) == Some(fd))
    {
      InjectedAt(p, cells, k);
      if Named(cells, k) {
        var i: nat :| IsLast(cells, k, i);
        FdOfIffShape(q[k], cells[i].value);
        FdOfIffShape(q[k], fd);
        assert FdShape(fd) == FdShape(cells[i].value) ==> fd == cells[i].value by {
          assert FdShape(fd).params["value"] == Num(fd);
        }
        assert forall j: nat :: IsLast(cells, k, j) ==> j == i;
      }
    }
  }

  /** The cells of a handed-out array, read by the key. */
  lemma HandedAt(list: seq<Entry>, copies: string -> bool, k: string)
    requires InKeyOrder(list)
    ensures var cells := Visited(Handed(list, true, copies));
            && (Named(cells, k) <==> k != "" && copies(k) && exists fd: int :: (k, fd) in list)
            && (forall i: nat :: IsLast(cells, k, i) ==> (k, cells[i].value) in list)
  {
    var cells := Visited(Handed(list, true, copies));
    assert |cells| == |list|;
    assert forall i :: 0 <= i < |list| ==> cells[i] == FdParam(Copied(list[i].0, copies), list[i].1);
    if k != "" && copies(k) && exists fd: int :: (k, fd) in list {
      var fd: int :| (k, fd) in list;
      var i := IndexOf(list, (k, fd));
      assert cells[i].key == Text(k);
    }
    if Named(cells, k) {
      var i :| 0 <= i < |cells| && cells[i].key == Text(k);
      assert list[i] == (k, list[i].1) && list[i] in list;
    }
  }

  /**
    Injecting what was extracted from `p` writes the extracted descriptors back, except the one of
    the empty key, whose copy is a null pointer, and those whose key could not be copied.
  */
  lemma ReinjectedAt(p: map<string, Value>, q: map<string, Value>, list: seq<Entry>, copies: string -> bool, k: string)
    requires ListsFds(list, p, p.Keys)
    ensures var r := Injected(q, Visited(Handed(list, true, copies)));
            if k != "" && copies(k) && k in p && FdOf(p[k]).Some?
            then k in r && r[k] == p[k]
            else (k in r <==> k in q) && (k in q ==> r[k] == q[k])
  {
    HandedAt(list, copies, k);
    var cells := Visited(Handed(list, true, copies));
    InjectedAt(q, cells, k);
    assert (exists fd: int :: (k, fd) in list) <==> k in p && FdOf(p[k]).Some? by {
      if k in p && FdOf(p[k]).Some? {
        assert (k, FdOf(p[k]).value) in list;
      }
    }
    if Named(cells, k) {
      var i: nat :| IsLast(cells, k, i);
      FdOfIffShape(p[k], cells[i].value);
    }
  }

  /** Extracting from parameters and injecting the result back changes nothing. */
  lemma ExtractThenInject(p: map<string, Value>, list: seq<Entry>, allocates: bool, copies: string -> bool)
    requires ListsFds(list, p, p.Keys)
    ensures Injected(p, Visited(Handed(list, allocates, copies))) == p
  {
    if allocates {
      var r := Injected(p, Visited(Handed(list, true, copies)));
      forall k ensures (k in r <==> k in p) && (k in p ==> r[k] == p[k]) {
        ReinjectedAt(p, p, list, copies, k);
      }
    }
  }

  /**
    Carried into an empty want, a handed-out array is extracted again as the same list exactly when
    no descriptor was stored under the empty key.
  */
  lemma CarriedIffNoEmptyKey(p: map<string, Value>, list: seq<Entry>, again: seq<Entry>)
    requires ListsFds(list, p, p.Keys)
    requires var q := Injected(map[], Visited(Handed(list, true, _ => true)));
             ListsFds(again, q, q.Keys)
    ensures again == list <==> forall fd: int :: ("", fd) !in list
  {
    var a := Handed(list, true, _ => true);
    var q := Injected(map[], Visited(a));
    forall k: string, fd: int ensures (k, fd) in again <==> (k, fd) in list && k != "" {
      ReinjectedAt(p, map[], list, _ => true, k);
    }
    if forall fd: int :: ("", fd) !in list {
      forall e: Entry ensures e in again <==> e in list {
        assert e == (e.0, e.1);
      }
      InOrderUnique(again, list);
    }
  }

  /** A want whose only descriptor has the empty key: it is listed, handed out, and gone after the transfer. */
  lemma EmptyKeyIsLost(fd: int, again: seq<Entry>)
    requires var q := Injected(map[], Visited(Handed([("", fd)], true, _ => true))); ListsFds(again, q, q.Keys)
    ensures ListsFds([("", fd)], map["" := FdShape(fd)], {""})
    ensures again == []
  {
    var p, list := map["" := FdShape(fd)], [("", fd)];
    forall k: string, v: int ensures (k, v) in list <==> k in p && FdOf(p[k]) == Some(v) {
      FdOfIffShape(FdShape(fd), v);
      assert FdShape(v) == FdShape(fd) ==> v == fd by {
        assert FdShape(v).params["value"] == Num(v);
      }
    }
    assert p.Keys == {""};
    var q := Injected(map[], Visited(Handed(list, true, _ => true)));
    forall k: string ensures k !in q {
      ReinjectedAt(p, map[], list, _ => true, k);
    }
    forall e: Entry ensures e !in again {
      var k, v := e.0, e.1;
      assert e == (k, v) && ((k, v) in again ==> k in q);
    }
    InOrderUnique(again, []);
  }

  /** The array handed out: none when the list is empty or cannot be allocated, otherwise cell by cell. */
  lemma HandedIs(list: seq<Entry>, allocates: bool, copies: string -> bool)
    ensures var a := Handed(list, allocates, copies);
            && (a.head.NullHead? <==> list == [] || !allocates)
            && a.size == (if a.head.NullHead? then 0 else |list|)
            && (a.head.Cells? ==>
                  && |a.head.cells| == |list|
                  && forall i :: 0 <= i < |list| ==>
                       && a.head.cells[i].value == list[i].1
                       && (if list[i].0 != "" && copies(list[i].0) then a.head.cells[i].key == Text(list[i].0)
                           else a.head.cells[i].key == Null))
  {
  }

  /** One of the first `size` cells has the key. */
  predicate HasCell(a: FdArray, k: string) {
    a.head.Cells? && exists i: nat :: i < a.size && i < |a.head.cells| && a.head.cells[i].key == Text(k)
  }

  /** Of the first `size` cells, `i` is the last with its key. */
  predicate IsLastCell(a: FdArray, k: string, i: nat) {
    && a.head.Cells? && i < a.size && i < |a.head.cells| && a.head.cells[i].key == Text(k)
    && (forall j :: i < j < a.size && j < |a.head.cells| ==> a.head.cells[j].key != Text(k))
  }

  /** What injecting an array leaves: the last of its cells of a key decides, other keys are as before. */
  lemma InjectedIs(p: map<string, Value>, a: FdArray, k: string)
    requires Readable(a)
    ensures var q := Injected(p, Visited(a));
            && (forall i: nat :: IsLastCell(a, k, i) ==>
                  k in q && q[k] == Nested(map["type" := Str("FD"), "value" := Num(a.head.cells[i].value)]))
            && (!HasCell(a, k) ==> (k in q <==> k in p) && (k in p ==> q[k] == p[k]))
  {
    var cells := Visited(a);
    InjectedAt(p, cells, k);
    hide Injected;
    forall i: nat | IsLastCell(a, k, i) ensures IsLast(cells, k, i) && cells[i] == a.head.cells[i] {
    }
    if Named(cells, k) {
      var i :| 0 <= i < |cells| && cells[i].key == Text(k);
      assert a.head.cells[i].key == Text(k);
    }
  }
}
