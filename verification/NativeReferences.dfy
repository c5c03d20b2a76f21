/**
  Deleting native references on the loop thread: `ReleaseNativeReference` and `JsRuntime::FreeNativeReference`.

  Both routines box the reference, hand the box to the loop and delete the reference and the boxes in the
  loop's callback, or at once when something goes wrong.  The model counts deletions, so that a missing or
  a second deletion would show.
*/
module NativeReferences {
  import opened Wrappers

  type Ref = nat
  type BoxId = nat

  /** What the loop has accepted: the boxes to delete and the references that go with them. */
  datatype Parcel = Parcel(boxes: seq<BoxId>, unique: Option<Ref>, shared: Option<Ref>)

  datatype State = State(
    given: seq<Ref>,         // uniquely owned references passed in
    deleted: seq<Ref>,
    sharedGiven: seq<Ref>,   // shared references passed in
    released: seq<Ref>,      // shares given up
    kept: seq<Ref>,          // shares left in the caller's pointer
    nextBox: nat,
    deletedBoxes: seq<BoxId>,
    pending: seq<Parcel>)

  const FRESH: State := State([], [], [], [], [], 0, [], [])

  function One<T>(o: Option<T>): seq<T> {
    if o.Some? then [o.value] else []
  }

  /** Everything in a parcel is deleted. */
  function Discard(s: State, p: Parcel): State {
    s.(deleted := s.deleted + One(p.unique), released := s.released + One(p.shared),
       deletedBoxes := s.deletedBoxes + p.boxes)
  }

  /** `ReleaseNativeReference`: whether there is an environment, the box was allocated, the event was sent. */
  function Release(s: State, ref: Option<Ref>, envOk: bool, allocOk: bool, sendOk: bool): State {
    if ref.None? then s
    else
      var s0 := s.(given := s.given + One(ref));
      if !envOk || !allocOk then s0.(deleted := s0.deleted + One(ref))
      else
        var parcel := Parcel([s0.nextBox], ref, None);
        var s1 := s0.(nextBox := s0.nextBox + 1);
        if sendOk then s1.(pending := s1.pending + [parcel]) else Discard(s1, parcel)
  }

  datatype FreeAnswers = FreeAnswers(engineOk: bool, loopOk: bool, workOk: bool, holderOk: bool, queueOk: bool)

  /**
    `FreeNativeReference`: the unique pointer is a parameter, so it deletes its reference on every early
    return; the shared pointer is the caller's and keeps its share until it is moved.
  */
  function Free(s: State, unique: Option<Ref>, shared: Option<Ref>, a: FreeAnswers): State {
    if unique.None? && shared.None? then s
    else
      var s0 := s.(given := s.given + One(unique), sharedGiven := s.sharedGiven + One(shared));
      var early := s0.(deleted := s0.deleted + One(unique), kept := s0.kept + One(shared));
      if !a.engineOk || !a.loopOk || !a.workOk then early
      else
        var work := s0.nextBox;
        if !a.holderOk then
          early.(nextBox := work + 1, deletedBoxes := early.deletedBoxes + [work])
        else
          var parcel := Parcel([work, work + 1], unique, shared);
          var s1 := s0.(nextBox := work + 2);
          if a.queueOk then s1.(pending := s1.pending + [parcel]) else Discard(s1, parcel)
  }

  /** The loop runs the callback of one accepted parcel, in any order. */
  function Callback(s: State, i: nat): State {
    if i < |s.pending| then Discard(s.(pending := s.pending[..i] + s.pending[i + 1..]), s.pending[i]) else s
  }

  datatype Op =
    | ReleaseOp(ref: Option<Ref>, envOk: bool, allocOk: bool, sendOk: bool)
    | FreeOp(unique: Option<Ref>, shared: Option<Ref>, a: FreeAnswers)
    | CallbackOp(i: nat)

  function Step(s: State, op: Op): State {
    match op
    case ReleaseOp(ref, envOk, allocOk, sendOk) => Release(s, ref, envOk, allocOk, sendOk)
    case FreeOp(unique, shared, a) => Free(s, unique, shared, a)
    case CallbackOp(i) => Callback(s, i)
  }

  function Run(ops: seq<Op>): State {
    if ops == [] then FRESH else Step(Run(ops[..|ops| - 1]), ops[|ops| - 1])
  }

  // ---------------------------------------------------------------------------------------------
  // The routines as they are written, against the functions above

  class Releaser {
    var s: State

    constructor ()
      ensures s == FRESH
    {
      s := FRESH;
    }

    method ReleaseNativeReference(ref: Option<Ref>, envOk: bool, allocOk: bool, sendOk: bool)
      modifies this
      ensures s == Release(old(s), ref, envOk, allocOk, sendOk)
    {
      if ref.None? {
        return;
      }
      s := s.(given := s.given + [ref.value]);
      if !envOk {
        s := s.(deleted := s.deleted + [ref.value]);
        return;
      }
      if !allocOk {
        s := s.(deleted := s.deleted + [ref.value]);
        return;
      }
      var work := s.nextBox;
      s := s.(nextBox := work + 1);
      if sendOk {
        s := s.(pending := s.pending + [Parcel([work], ref, None)]);
        return;
      }
      s := s.(deleted := s.deleted + [ref.value]);
      s := s.(deletedBoxes := s.deletedBoxes + [work]);
    }

    method FreeNativeReference(unique: Option<Ref>, shared: Option<Ref>, a: FreeAnswers)
      modifies this
      ensures s == Free(old(s), unique, shared, a)
    {
      if unique.None? && shared.None? {
        return;
      }
      s := s.(given := s.given + One(unique), sharedGiven := s.sharedGiven + One(shared));
      if !a.engineOk || !a.loopOk || !a.workOk {
        s := s.(deleted := s.deleted + One(unique), kept := s.kept + One(shared));
        return;
      }
      var work := s.nextBox;
      s := s.(nextBox := work + 1);
      if !a.holderOk {
        s := s.(deletedBoxes := s.deletedBoxes + [work]);
        s := s.(deleted := s.deleted + One(unique), kept := s.kept + One(shared));
        return;
      }
      var holder := s.nextBox;
      s := s.(nextBox := holder + 1);
      var parcel := Parcel([work, holder], unique, shared);
      if a.queueOk {
        s := s.(pending := s.pending + [parcel]);
      } else {
        s := Discard(s, parcel);
      }
    }
  }

  // ---------------------------------------------------------------------------------------------
  // Conservation

  function Count(xs: seq<nat>, x: nat): nat {
    if xs == [] then 0 else Count(xs[..|xs| - 1], x) + if xs[|xs| - 1] == x then 1 else 0
  }

  lemma {:induction false} CountJoin(xs: seq<nat>, ys: seq<nat>, x: nat)
    ensures Count(xs + ys, x) == Count(xs, x) + Count(ys, x)
  {
    if ys == [] {
      assert xs + ys == xs;
    } else {
      assert (xs + ys)[..|xs + ys| - 1] == xs + ys[..|ys| - 1];
      CountJoin(xs, ys[..|ys| - 1], x);
    }
  }

  function Uniques(ps: seq<Parcel>): seq<Ref> {
    if ps == [] then [] else One(ps[0].unique) + Uniques(ps[1..])
  }

  function Shares(ps: seq<Parcel>): seq<Ref> {
    if ps == [] then [] else One(ps[0].shared) + Shares(ps[1..])
  }

  function Boxed(ps: seq<Parcel>): seq<BoxId> {
    if ps == [] then [] else ps[0].boxes + Boxed(ps[1..])
  }

  lemma {:induction false} UniquesJoin(ps: seq<Parcel>, qs: seq<Parcel>)
    ensures Uniques(ps + qs) == Uniques(ps) + Uniques(qs)
  {
    if ps == [] {
      assert ps + qs == qs;
    } else {
      assert (ps + qs)[1..] == ps[1..] + qs && (ps + qs)[0] == ps[0];
      UniquesJoin(ps[1..], qs);
    }
  }

  lemma {:induction false} SharesJoin(ps: seq<Parcel>, qs: seq<Parcel>)
    ensures Shares(ps + qs) == Shares(ps) + Shares(qs)
  {
    if ps == [] {
      assert ps + qs == qs;
    } else {
      assert (ps + qs)[1..] == ps[1..] + qs && (ps + qs)[0] == ps[0];
      SharesJoin(ps[1..], qs);
    }
  }

  lemma {:induction false} BoxedJoin(ps: seq<Parcel>, qs: seq<Parcel>)
    ensures Boxed(ps + qs) == Boxed(ps) + Boxed(qs)
  {
    if ps == [] {
      assert ps + qs == qs;
    } else {
      assert (ps + qs)[1..] == ps[1..] + qs && (ps + qs)[0] == ps[0];
      BoxedJoin(ps[1..], qs);
    }
  }

  lemma PendingJoin(ps: seq<Parcel>, qs: seq<Parcel>)
    ensures Uniques(ps + qs) == Uniques(ps) + Uniques(qs)
    ensures Shares(ps + qs) == Shares(ps) + Shares(qs)
    ensures Boxed(ps + qs) == Boxed(ps) + Boxed(qs)
  {
    UniquesJoin(ps, qs);
    SharesJoin(ps, qs);
    BoxedJoin(ps, qs);
  }

  lemma PendingOne(p: Parcel)
    ensures Uniques([p]) == One(p.unique) && Shares([p]) == One(p.shared) && Boxed([p]) == p.boxes
  {
    assert [p][1..] == [];
    assert One(p.unique) + [] == One(p.unique) && One(p.shared) + [] == One(p.shared) && p.boxes + [] == p.boxes;
  }

  /**
    For one reference `r` and one box `b`: what came in is what was deleted, released or left with the
    caller, plus what the loop still holds, plus what `p` holds.
  */
  ghost predicate ConservedBut(s: State, p: Parcel, r: Ref, b: BoxId) {
    && Count(s.given, r) == Count(s.deleted, r) + Count(Uniques(s.pending), r) + Count(One(p.unique), r)
    && Count(s.sharedGiven, r)
       == Count(s.released, r) + Count(s.kept, r) + Count(Shares(s.pending), r) + Count(One(p.shared), r)
    && (if b < s.nextBox then 1 else 0) == Count(s.deletedBoxes, b) + Count(Boxed(s.pending), b) + Count(p.boxes, b)
  }

  const NOTHING: Parcel := Parcel([], None, None)

  lemma NothingCounts(x: nat)
    ensures Count(One(None), x) == 0 && Count([], x) == 0
  {
  }

  /** A parcel is taken charge of by the loop, or discarded. */
  lemma TakeCharge(s: State, p: Parcel, r: Ref, b: BoxId)
    requires ConservedBut(s, p, r, b)
    ensures ConservedBut(s.(pending := s.pending + [p]), NOTHING, r, b)
    ensures ConservedBut(Discard(s, p), NOTHING, r, b)
  {
    NothingCounts(r);
    NothingCounts(b);
    hide Count, Uniques, Shares, Boxed, One;
    PendingJoin(s.pending, [p]);
    PendingOne(p);
    CountJoin(Uniques(s.pending), One(p.unique), r);
    CountJoin(Shares(s.pending), One(p.shared), r);
    CountJoin(Boxed(s.pending), p.boxes, b);
    CountJoin(s.deleted, One(p.unique), r);
    CountJoin(s.released, One(p.shared), r);
    CountJoin(s.deletedBoxes, p.boxes, b);
  }

  lemma CallbackConserves(s: State, i: nat, r: Ref, b: BoxId)
    requires ConservedBut(s, NOTHING, r, b) && i < |s.pending|
    ensures ConservedBut(Callback(s, i), NOTHING, r, b)
  {
    hide Count, Uniques, Shares, Boxed, One;
    NothingCounts(r);
    NothingCounts(b);
    var p, before, after := s.pending[i], s.pending[..i], s.pending[i + 1..];
    assert s.pending == before + ([p] + after);
    PendingJoin(before, [p] + after);
    PendingJoin([p], after);
    PendingJoin(before, after);
    PendingOne(p);
    CountTake(Uniques(before), One(p.unique), Uniques(after), r);
    CountTake(Shares(before), One(p.shared), Shares(after), r);
    CountTake(Boxed(before), p.boxes, Boxed(after), b);
    TakeCharge(s.(pending := before + after), p, r, b);
  }

  lemma CountTake(xs: seq<nat>, ys: seq<nat>, zs: seq<nat>, x: nat)
    ensures Count(xs + (ys + zs), x) == Count(xs + zs, x) + Count(ys, x)
  {
    CountJoin(xs, ys + zs, x);
    CountJoin(ys, zs, x);
    CountJoin(xs, zs, x);
  }

  /** Boxes are numbered as they are made. */
  lemma NewBoxes(n: nat, b: BoxId)
    ensures Count([n], b) == if b == n then 1 else 0
    ensures Count([n, n + 1], b) == if b == n || b == n + 1 then 1 else 0
  {
    assert [n][..0] == [] && [n, n + 1][..1] == [n];
  }

  lemma ReleaseConserves(s: State, ref: Option<Ref>, envOk: bool, allocOk: bool, sendOk: bool, r: Ref, b: BoxId)
    requires ConservedBut(s, NOTHING, r, b)
    ensures ConservedBut(Release(s, ref, envOk, allocOk, sendOk), NOTHING, r, b)
  {
    hide ConservedBut, One, Count;
    if ref.Some? {
      var n := s.nextBox;
      NewBoxes(n, b);
      NoShare(s);
      if !envOk || !allocOk {
        EarlyConserves(s, ref, None, r, b);
      } else {
        BoxedConserves(s, ref, None, [n], n + 1, r, b);
        TakeCharge(s.(given := s.given + One(ref), nextBox := n + 1), Parcel([n], ref, None), r, b);
      }
    }
  }

  lemma NoShare(s: State)
    ensures s.(sharedGiven := s.sharedGiven + One(None)) == s
    ensures s.(kept := s.kept + One(None)) == s
  {
    assert s.sharedGiven + [] == s.sharedGiven && s.kept + [] == s.kept;
  }

  /** An early return: the unique reference is deleted and the share stays with the caller. */
  lemma EarlyConserves(s: State, unique: Option<Ref>, shared: Option<Ref>, r: Ref, b: BoxId)
    requires ConservedBut(s, NOTHING, r, b)
    ensures ConservedBut(s.(given := s.given + One(unique), deleted := s.deleted + One(unique),
                            sharedGiven := s.sharedGiven + One(shared), kept := s.kept + One(shared)), NOTHING, r, b)
  {
    hide Count, Uniques, Shares, Boxed, One;
    CountJoin(s.given, One(unique), r);
    CountJoin(s.sharedGiven, One(shared), r);
    CountJoin(s.deleted, One(unique), r);
    CountJoin(s.kept, One(shared), r);
  }

  lemma BoxedConserves(s: State, unique: Option<Ref>, shared: Option<Ref>, boxes: seq<BoxId>, n: nat, r: Ref, b: BoxId)
    requires ConservedBut(s, NOTHING, r, b)
    requires Count(boxes, b) == if s.nextBox <= b < n then 1 else 0
    requires s.nextBox <= n
    ensures ConservedBut(s.(given := s.given + One(unique), sharedGiven := s.sharedGiven + One(shared), nextBox := n),
                         Parcel(boxes, unique, shared), r, b)
  {
    hide Count, Uniques, Shares, Boxed, One;
    NothingCounts(r);
    NothingCounts(b);
    CountJoin(s.given, One(unique), r);
    CountJoin(s.sharedGiven, One(shared), r);
  }

  lemma FreeConserves(s: State, unique: Option<Ref>, shared: Option<Ref>, a: FreeAnswers, r: Ref, b: BoxId)
    requires ConservedBut(s, NOTHING, r, b)
    ensures ConservedBut(Free(s, unique, shared, a), NOTHING, r, b)
  {
    hide ConservedBut, One;
    if unique.Some? || shared.Some? {
      var n := s.nextBox;
      NewBoxes(n, b);
      if !a.engineOk || !a.loopOk || !a.workOk {
        EarlyConserves(s, unique, shared, r, b);
      } else if !a.holderOk {
        EarlyConserves(s, unique, shared, r, b);
        var early := Free(s, unique, shared, a.(workOk := false));
        LoneBox(early, r, b);
      } else {
        BoxedConserves(s, unique, shared, [n, n + 1], n + 2, r, b);
        TakeCharge(s.(given := s.given + One(unique), sharedGiven := s.sharedGiven + One(shared), nextBox := n + 2),
                   Parcel([n, n + 1], unique, shared), r, b);
      }
    }
  }

  /** A box is made and deleted again. */
  lemma LoneBox(s: State, r: Ref, b: BoxId)
    requires ConservedBut(s, NOTHING, r, b)
    ensures ConservedBut(s.(nextBox := s.nextBox + 1, deletedBoxes := s.deletedBoxes + [s.nextBox]), NOTHING, r, b)
  {
    NewBoxes(s.nextBox, b);
    hide Count, Uniques, Shares, Boxed, One;
    CountJoin(s.deletedBoxes, [s.nextBox], b);
  }

  lemma {:induction false} RunConserves(ops: seq<Op>, r: Ref, b: BoxId)
    ensures ConservedBut(Run(ops), NOTHING, r, b)
  {
    hide ConservedBut;
    if ops == [] {
      FreshConserved(r, b);
    } else {
      var s := Run(ops[..|ops| - 1]);
      RunConserves(ops[..|ops| - 1], r, b);
      match ops[|ops| - 1]
      case ReleaseOp(ref, envOk, allocOk, sendOk) => ReleaseConserves(s, ref, envOk, allocOk, sendOk, r, b);
      case FreeOp(unique, shared, a) => FreeConserves(s, unique, shared, a, r, b);
      case CallbackOp(i) => if i < |s.pending| { CallbackConserves(s, i, r, b); }
    }
  }

  lemma FreshConserved(r: Ref, b: BoxId)
    ensures ConservedBut(FRESH, NOTHING, r, b)
  {
  }

  /**
    Whatever the allocations, the queueing calls and the order of the callbacks do: once the loop has run
    every callback, each uniquely owned reference has been deleted exactly as often as it was passed in,
    each box exactly once, and each share was given up or is still with the caller.
  */
  lemma EverythingDeletedOnce(ops: seq<Op>, r: Ref, b: BoxId)
    requires Run(ops).pending == []
    ensures Count(Run(ops).deleted, r) == Count(Run(ops).given, r)
    ensures Count(Run(ops).sharedGiven, r) == Count(Run(ops).released, r) + Count(Run(ops).kept, r)
    ensures Count(Run(ops).deletedBoxes, b) == if b < Run(ops).nextBox then 1 else 0
  {
    RunConserves(ops, r, b);
  }

  /** At any moment nothing has been deleted more often than it was passed in or made. */
  lemma NothingDeletedTwice(ops: seq<Op>, r: Ref, b: BoxId)
    ensures Count(Run(ops).deleted, r) <= Count(Run(ops).given, r)
    ensures Count(Run(ops).deletedBoxes, b) <= 1
  {
    RunConserves(ops, r, b);
  }

  // ---------------------------------------------------------------------------------------------
  // When a reference is deleted

  lemma RunNext(ops: seq<Op>, op: Op)
    ensures Run(ops + [op]) == Step(Run(ops), op)
  {
    assert (ops + [op])[..|ops|] == ops;
  }

  /**
    `ReleaseNativeReference`: a reference whose event was sent waits in its box for the loop; in every other
    case it is deleted at once, and the box with it if there is one.
  */
  lemma ReleasedWhen(ops: seq<Op>, ref: Ref, envOk: bool, allocOk: bool, sendOk: bool)
    ensures var s, s' := Run(ops), Run(ops + [ReleaseOp(Some(ref), envOk, allocOk, sendOk)]);
            && s'.released == s.released && s'.kept == s.kept
            && (if envOk && allocOk && sendOk
                then && s'.pending == s.pending + [Parcel([s.nextBox], Some(ref), None)]
                     && s'.deleted == s.deleted && s'.deletedBoxes == s.deletedBoxes
                else && s'.pending == s.pending && s'.deleted == s.deleted + [ref]
                     && s'.deletedBoxes == s.deletedBoxes + if envOk && allocOk then [s.nextBox] else [])
  {
    RunNext(ops, ReleaseOp(Some(ref), envOk, allocOk, sendOk));
  }

  /**
    `FreeNativeReference`: once queued, the unique reference and the share wait in their two boxes for the
    loop.  When the boxes are made and the queueing fails, both are given up at once; before that, the
    unique reference is deleted and the share stays with the caller.
  */
  lemma FreedWhen(ops: seq<Op>, unique: Option<Ref>, shared: Option<Ref>, a: FreeAnswers)
    requires unique.Some? || shared.Some?
    ensures var s, s' := Run(ops), Run(ops + [FreeOp(unique, shared, a)]);
            var uniques, shares := One(unique), One(shared);
            var boxed := a.engineOk && a.loopOk && a.workOk && a.holderOk;
            && (boxed && a.queueOk ==>
                  && s'.pending == s.pending + [Parcel([s.nextBox, s.nextBox + 1], unique, shared)]
                  && s'.deleted == s.deleted && s'.released == s.released && s'.kept == s.kept
                  && s'.deletedBoxes == s.deletedBoxes)
            && (boxed && !a.queueOk ==>
                  && s'.pending == s.pending
                  && s'.deleted == s.deleted + uniques && s'.released == s.released + shares && s'.kept == s.kept
                  && s'.deletedBoxes == s.deletedBoxes + [s.nextBox, s.nextBox + 1])
            && (!boxed ==>
                  && s'.pending == s.pending
                  && s'.deleted == s.deleted + uniques && s'.released == s.released && s'.kept == s.kept + shares
                  && s'.deletedBoxes == s.deletedBoxes + if a.engineOk && a.loopOk && a.workOk then [s.nextBox] else [])
  {
    RunNext(ops, FreeOp(unique, shared, a));
  }

  /** The loop's callback deletes what its box held, and nothing else. */
  lemma CallbackWhen(ops: seq<Op>, i: nat)
    requires i < |Run(ops).pending|
    ensures var s, s' := Run(ops), Run(ops + [CallbackOp(i)]);
            var p := s.pending[i];
            && s'.pending == s.pending[..i] + s.pending[i + 1..]
            && s'.deleted == s.deleted + One(p.unique) && s'.released == s.released + One(p.shared) && s'.kept == s.kept
            && s'.deletedBoxes == s.deletedBoxes + p.boxes
  {
    RunNext(ops, CallbackOp(i));
  }

  /** Nothing given, nothing done. */
  lemma NothingToFree(ops: seq<Op>, envOk: bool, allocOk: bool, sendOk: bool, a: FreeAnswers)
    ensures Run(ops + [ReleaseOp(None, envOk, allocOk, sendOk)]) == Run(ops)
    ensures Run(ops + [FreeOp(None, None, a)]) == Run(ops)
  {
    RunNext(ops, ReleaseOp(None, envOk, allocOk, sendOk));
    RunNext(ops, FreeOp(None, None, a));
  }
}
