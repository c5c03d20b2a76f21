/**
  Where a path leads: the segments between its slashes are walked one by one, a name goes down and ".."
  goes up.  Symbolic links are not followed.
*/
module PathWalk {
  import opened Text

  function Segments(path: string): (segments: seq<string>)
    ensures |segments| >= 1
    decreases |path|
  {
    var slash := Find(path, '/');
    if slash == -1 then [path] else [path[..slash]] + Segments(path[slash + 1..])
  }

  /** One segment further from the directory `at`; there is nothing above the root. */
  function Into(at: seq<string>, segment: string): seq<string> {
    if segment == "" || segment == "." then at
    else if segment == ".." then if at == [] then [] else at[..|at| - 1]
    else at + [segment]
  }

  function Walk(at: seq<string>, segments: seq<string>): seq<string> {
    if segments == [] then at else Into(Walk(at, segments[..|segments| - 1]), segments[|segments| - 1])
  }

  /** Names minus climbs. */
  function Depth(segments: seq<string>): int {
    if segments == [] then 0
    else
      var last := segments[|segments| - 1];
      Depth(segments[..|segments| - 1]) + if last == "" || last == "." then 0 else if last == ".." then -1 else 1
  }

  /** No prefix of the segments climbs more often than it names. */
  predicate NeverClimbsOut(segments: seq<string>) {
    forall n :: 0 <= n <= |segments| ==> Depth(segments[..n]) >= 0
  }

  /** Every step of the walk ends at or below `at`. */
  predicate StaysBelow(at: seq<string>, segments: seq<string>) {
    forall n :: 0 <= n <= |segments| ==> at <= Walk(at, segments[..n])
  }

  lemma {:induction false} WalkBoth(at: seq<string>, a: seq<string>, b: seq<string>)
    ensures Walk(at, a + b) == Walk(Walk(at, a), b)
  {
    if b == [] {
      assert a + b == a;
    } else {
      WalkBoth(at, a, b[..|b| - 1]);
      assert (a + b)[..|a + b| - 1] == a + b[..|b| - 1];
    }
  }

  /** While it has not climbed out, a walk is below its start by its depth. */
  lemma {:induction false} WalkDepth(at: seq<string>, segments: seq<string>)
    requires NeverClimbsOut(segments)
    ensures at <= Walk(at, segments) && |Walk(at, segments)| == |at| + Depth(segments)
  {
    if segments != [] {
      var before := segments[..|segments| - 1];
      NeverBefore(segments);
      WalkDepth(at, before);
      assert segments[..|segments|] == segments;
    }
  }

  lemma NeverBefore(segments: seq<string>)
    requires segments != []
    ensures NeverClimbsOut(segments) <==> NeverClimbsOut(segments[..|segments| - 1]) && Depth(segments) >= 0
  {
    var before := segments[..|segments| - 1];
    assert forall n :: 0 <= n <= |before| ==> before[..n] == segments[..n];
    assert segments[..|segments|] == segments;
    hide Depth;
    if NeverClimbsOut(before) && Depth(segments) >= 0 {
      forall n | 0 <= n <= |segments| ensures Depth(segments[..n]) >= 0 {
        if n < |segments| { assert segments[..n] == before[..n]; }
      }
    }
    if NeverClimbsOut(segments) {
      forall n | 0 <= n <= |before| ensures Depth(before[..n]) >= 0 {
        assert segments[..n] == before[..n];
      }
    }
  }

  lemma StaysBefore(at: seq<string>, segments: seq<string>)
    requires segments != []
    ensures StaysBelow(at, segments) <==> StaysBelow(at, segments[..|segments| - 1]) && at <= Walk(at, segments)
  {
    hide Walk;
    var before := segments[..|segments| - 1];
    assert segments[..|segments|] == segments;
    if StaysBelow(at, before) && at <= Walk(at, segments) {
      forall n | 0 <= n <= |segments| ensures at <= Walk(at, segments[..n]) {
        if n < |segments| { assert segments[..n] == before[..n]; }
      }
    }
    if StaysBelow(at, segments) {
      forall n | 0 <= n <= |before| ensures at <= Walk(at, before[..n]) {
        assert segments[..n] == before[..n];
      }
    }
  }

  /** A walk from a directory other than the root stays below it exactly when it never climbs out. */
  lemma {:induction false} StaysBelowIff(at: seq<string>, segments: seq<string>)
    requires at != []
    ensures StaysBelow(at, segments) <==> NeverClimbsOut(segments)
  {
    if segments != [] {
      var n := |segments| - 1;
      var before := segments[..n];
      StaysBelowIff(at, before);
      StaysBefore(at, segments);
      NeverBefore(segments);
      if NeverClimbsOut(before) {
        WalkDepth(at, before);
        LastStep(at, Walk(at, before), segments[n], Depth(before));
      }
    }
  }

  lemma LastStep(at: seq<string>, here: seq<string>, segment: string, depth: int)
    requires at != [] && at <= here && |here| == |at| + depth
    ensures at <= Into(here, segment) <==> depth > 0 || segment != ".."
  {
  }

  lemma SegmentsFrom(s: string)
    ensures Segments("") == [""]
    ensures var slash := Find(s, '/'); slash != -1 ==> Segments(s) == [s[..slash]] + Segments(s[slash + 1..])
  {
  }

  lemma {:induction false} SegmentsBoth(a: string, b: string)
    requires EndsWith(a, "/")
    ensures Segments(a + b) == Segments(a)[..|Segments(a)| - 1] + Segments(b)
    decreases |a|
  {
    hide Segments, Find;
    var slash := Find(a, '/');
    assert a[|a| - 1] == a[|a| - 1..][0] == '/';
    FindInJoin(a, b);
    var rest := a[slash + 1..];
    assert (a + b)[..slash] == a[..slash] && (a + b)[slash + 1..] == rest + b;
    SegmentsFrom(a);
    SegmentsFrom(a + b);
    if rest == "" {
      assert rest + b == b;
    } else {
      assert rest[|rest| - 1..] == a[|a| - 1..];
      SegmentsBoth(rest, b);
    }
  }

  lemma FindInJoin(a: string, b: string)
    requires '/' in a
    ensures Find(a, '/') >= 0 && Find(a + b, '/') == Find(a, '/')
  {
    var s, i := a + b, Find(a, '/');
    assert s[i] == '/' && forall k :: 0 <= k < i ==> s[k] == a[k];
  }

  lemma WalkNowhere(at: seq<string>)
    ensures Walk(at, [""]) == at
  {
    assert [""][..0] == [];
  }

  /** Walking a joined path is walking its parts, one after the other. */
  lemma WalkJoined(at: seq<string>, a: string, b: string)
    requires a == "" || EndsWith(a, "/")
    ensures Walk(at, Segments(a + b)) == Walk(Walk(at, Segments(a)), Segments(b))
  {
    hide Segments, Walk, EndsWith;
    SegmentsFrom("");
    WalkNowhere(at);
    if a == "" {
      assert a + b == b;
    } else {
      var before := Segments(a)[..|Segments(a)| - 1];
      SegmentsBoth(a, b);
      SegmentsBoth(a, "");
      assert a + "" == a;
      WalkBoth(at, before, Segments(b));
      WalkBoth(at, before, [""]);
      WalkNowhere(Walk(at, before));
    }
  }

  lemma WalkTwo(at: seq<string>, a: string, b: string)
    ensures Walk(at, [a, b]) == Into(Into(at, a), b)
  {
    hide Into;
    assert [a, b][..1] == [a] && [a][..0] == [];
    assert Walk(at, []) == at;
    assert Walk(at, [a]) == Into(at, a);
  }

  /** A segment of more than two characters is a name. */
  lemma IntoName(at: seq<string>, segment: string)
    requires |segment| > 2
    ensures Into(at, segment) == at + [segment]
  {
  }

  /** A path with one slash has two segments. */
  lemma TwoSegments(path: string, slash: nat)
    requires slash < |path| && path[slash] == '/' && '/' !in path[..slash] && '/' !in path[slash + 1..]
    ensures Segments(path) == [path[..slash], path[slash + 1..]]
  {
    var tail := path[slash + 1..];
    assert forall k :: 0 <= k < slash ==> path[k] == path[..slash][k];
    hide Find;
    assert Find(path, '/') == slash && Find(tail, '/') == -1;
    assert Segments(tail) == [tail];
  }
}
