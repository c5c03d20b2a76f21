/**
  The one ETS environment of the process: every ETS runtime finishes its preload and forks there, so that
  the order of the calls matters across runtimes.
*/
module LifecycleEnvironment {
  import opened Wrappers
  import opened Lifecycle
  import opened LifecycleProofs
  import opened LifecycleTheorems

  function Finishes(log: seq<EtsEvent>): nat {
    if log == [] then 0
    else Finishes(log[..|log| - 1]) + if log[|log| - 1] == EtsFinishPreload then 1 else 0
  }

  /** At every fork the environment has had exactly one FinishPreload. */
  predicate ForksFinishedOnce(log: seq<EtsEvent>) {
    forall k :: 0 <= k < |log| && log[k] == EtsPostFork ==> Finishes(log[..k]) == 1
  }

  // ---------------------------------------------------------------------------------------------
  // What a caller sees of an operation

  /** The operation makes an ETS runtime for an application. */
  predicate AsksToFork(op: Op) {
    match op
    case CreateOp(o, _, _) => o.lang == ETS && !o.preload
    case AttachOp(_, o, _) => !o.preload
    case _ => false
  }

  predicate PipelineChanged(op: Op) {
    match op
    case CreateOp(_, _, ea) => ea.pipelineChanged
    case AttachOp(_, _, ea) => ea.pipelineChanged
    case _ => false
  }

  /** It goes on with the saved ETS runtime. */
  predicate TakesSaved(w: World, op: Op) {
    SlotIsEts(w) && !PipelineChanged(op)
  }

  /** It returns a runtime. */
  predicate Made(w: World, op: Op) {
    match op
    case CreateOp(o, ja, ea) => Create(w, o, ja, ea).1.Some?
    case AttachOp(j, o, ea) => JsRuntime(j) in w.held && CreateEts(w, Some(j), o, ea, false).1.Some?
    case _ => false
  }

  predicate Forks(w: World, op: Op) {
    w.table.postFork && AsksToFork(op) && Made(w, op)
  }

  /** An ETS runtime is saved, or one that was not saved is made for an application. */
  predicate FinishesOne(w: World, op: Op) {
    match op
    case SaveOp(rt) => w.table.finishPreload && rt.Some? && rt.value.EtsRuntime? && rt.value in w.held
    case _ => AsksToFork(op) && Made(w, op) && !TakesSaved(w, op)
  }

  /** How many operations of a run finished the preload of an ETS runtime. */
  function FinishedSoFar(table: Table, ops: seq<Op>): nat {
    if ops == [] then 0
    else
      var before := ops[..|ops| - 1];
      FinishedSoFar(table, before) + if FinishesOne(Run(Start(table), before), ops[|ops| - 1]) then 1 else 0
  }

  // ---------------------------------------------------------------------------------------------
  // What an operation asks of the environment

  /** A create that fails may have initialised the environment; one that succeeds has done all its steps. */
  predicate CreateAsks(table: Table, body: seq<EtsEvent>, made: bool, preload: bool, taken: bool) {
    if !made then body == [] || body == [EtsInit]
    else
      && (taken || preload || table.finishPreload)
      && body == if taken then [] else if preload then [EtsInit] else [EtsInit, EtsFinishPreload]
  }

  function Fork(fork: bool): seq<EtsEvent> {
    if fork then [EtsPostFork] else []
  }

  lemma DestroyKeepsEnv(w: World, rt: Option<Runtime>)
    ensures DestroyOption(w, rt).env == w.env && DestroyOption(w, rt).table == w.table
  {
  }

  lemma MoveWhenKeepsEnv(w: World, e: EtsId, j: JsId, isMove: bool)
    requires e in w.ets
    ensures MoveWhen(w, e, j, isMove).env == w.env && MoveWhen(w, e, j, isMove).table == w.table
    ensures e in MoveWhen(w, e, j, isMove).ets
  {
  }

  lemma PreForkAsks(w: World, j: JsId, o: Options, a: EtsAnswers, isMove: bool)
    ensures var (w', e) := PreForkEts(w, j, o, a, isMove);
            && w'.table == w.table
            && (e.Some? ==> e.value in w'.ets && (o.preload || w.table.finishPreload)
                            && w'.env == w.env + if o.preload then [EtsInit] else [EtsInit, EtsFinishPreload])
            && (e.None? ==> w'.env == w.env || w'.env == w.env + [EtsInit])
  {
    hide MoveWhen, DestroyEts;
    var e := w.nextEts;
    var w1 := NewEts(w);
    MoveWhenKeepsEnv(w1, e, j, isMove);
    var w2 := MoveWhen(w1, e, j, isMove);
    DestroyEtsKeepsEnv(w1, e);
    DestroyEtsKeepsEnv(w2, e);
    DestroyEtsKeepsEnv(LogEts(w2, e, EtsInit), e);
    assert w.env + [EtsInit] + [EtsFinishPreload] == w.env + [EtsInit, EtsFinishPreload];
  }

  lemma DestroyEtsKeepsEnv(w: World, e: EtsId)
    ensures DestroyEts(w, e).env == w.env && DestroyEts(w, e).table == w.table
  {
  }

  lemma PostForkAsks(w: World, e: EtsId, j: JsId, isMove: bool)
    requires e in w.ets
    ensures PostForkEts(w, e, j, isMove).env == w.env + if w.table.postFork then [EtsPostFork] else []
  {
    MoveWhenKeepsEnv(w, e, j, isMove);
  }

  lemma AcquireEtsAsks(w: World, j: JsId, o: Options, a: EtsAnswers, isMove: bool) returns (body: seq<EtsEvent>)
    ensures var (w', e) := AcquireEts(w, j, o, a, isMove);
            var taken := SlotIsEts(w) && !a.pipelineChanged;
            && w'.table == w.table && w'.env == w.env + body && (taken ==> body == [])
            && CreateAsks(w.table, body, e.Some?, o.preload, taken)
            && (taken || e.None? || e.value in w'.ets)
  {
    hide PreForkEts, DestroyOption;
    var (w1, taken) := GetPreloaded(w, ETS);
    body := [];
    if !(taken.Some? && !a.pipelineChanged && taken.value.EtsRuntime?) {
      DestroyKeepsEnv(w1, taken);
      var w2 := DestroyOption(w1, taken);
      PreForkAsks(w2, j, o, a, isMove);
      var (w3, e) := PreForkEts(w2, j, o, a, isMove);
      if e.Some? {
        body := if o.preload then [EtsInit] else [EtsInit, EtsFinishPreload];
      } else if w3.env != w2.env {
        body := [EtsInit];
      }
    }
  }

  lemma CreateEtsAsks(w: World, j: Option<JsId>, o: Options, a: EtsAnswers, isMove: bool) returns (body: seq<EtsEvent>)
    ensures var (w', e) := CreateEts(w, j, o, a, isMove);
            && CreateAsks(w.table, body, e.Some?, o.preload, SlotIsEts(w) && !a.pipelineChanged)
            && w'.env == w.env + (body + Fork(e.Some? && !o.preload && w.table.postFork))
  {
    body := [];
    if a.registered && j.Some? {
      hide AcquireEts, PostForkEts, SlotIsEts;
      body := AcquireEtsAsks(w, j.value, o, a, isMove);
      var (w2, instance) := AcquireEts(w, j.value, o, a, isMove);
      if instance.Some? && instance.value in w2.ets && !o.preload {
        PostForkAsks(w2, instance.value, j.value, isMove);
        assert w.env + body + Fork(w.table.postFork) == w.env + (body + Fork(w.table.postFork));
      }
      assert body + [] == body;
    }
  }

  lemma AcquireJsAsks(w: World, o: Options, a: JsAnswers)
    ensures var w' := AcquireJs(w, o, a).0; w'.env == w.env && w'.table == w.table && (SlotIsEts(w') <==> SlotIsEts(w))
  {
    hide DestroyOption;
    var (w1, taken) := GetPreloaded(w, JS);
    DestroyKeepsEnv(w1, taken);
    DestroySlot(w1, taken);
  }

  lemma CreateJsAsks(w: World, o: Options, a: JsAnswers)
    ensures var w' := CreateJs(w, o, a).0; w'.env == w.env && w'.table == w.table && (SlotIsEts(w') <==> SlotIsEts(w))
  {
    hide AcquireJs, Initialize;
    AcquireJsAsks(w, o, a);
  }

  lemma SaveAsks(w: World, rt: Option<Runtime>)
    ensures SavePreloaded(w, rt).env
            == w.env + if rt.Some? && rt.value.EtsRuntime? && w.table.finishPreload then [EtsFinishPreload] else []
    ensures SavePreloaded(w, rt).slot == rt
  {
    hide DestroyOption;
    var w0 := if rt.Some? then w.(held := w.held - {rt.value}) else w;
    var w1 :=
      match rt
      case None => w0
      case Some(JsRuntime(j)) => JsFinishPreload(w0, j)
      case Some(EtsRuntime(e)) => EtsFinish(w0, e);
    DestroyKeepsEnv(w1.(slot := None), w1.slot);
  }

  /** What any operation asks, in terms of what its caller sees. */
  lemma ApplyAsks(w: World, op: Op) returns (body: seq<EtsEvent>)
    ensures Apply(w, op).env == w.env + (body + Fork(Forks(w, op)))
    ensures EtsPostFork !in body
    ensures Finishes(body) == if FinishesOne(w, op) then 1 else 0
    ensures FinishesOne(w, op) ==> w.table.finishPreload
  {
    hide CreateJs, CreateEts, SavePreloaded, DestroyOption, DestroyJs, Destroy, SlotIsEts, Finishes;
    Scripts();
    body := [];
    match op
    case CreateOp(o, ja, ea) =>
      CreateJsAsks(w, o, ja);
      if o.lang == ETS {
        var jo := o.(lang := JS);
        CreateJsAsks(w, jo, ja);
        var (w1, j) := CreateJs(w, jo, ja);
        body := CreateEtsAsks(w1, j, o, ea, true);
        DropLocalAsks(CreateEts(w1, j, o, ea, true).0, j);
      }
    case AttachOp(j, o, ea) =>
      if JsRuntime(j) in w.held { body := CreateEtsAsks(w, Some(j), o, ea, false); }
    case SaveOp(rt) =>
      if rt.None? || rt.value in w.held {
        SaveAsks(w, rt);
        if FinishesOne(w, op) { body := [EtsFinishPreload]; }
      }
    case DropOp(rt) => DropAsks(w, rt);
  }

  lemma DropLocalAsks(w: World, j: Option<JsId>)
    ensures DropLocal(w, j).env == w.env
  {
  }

  lemma DropAsks(w: World, rt: Runtime)
    ensures Destroy(w, rt).env == w.env
  {
    DestroyKeepsEnv(w, Some(rt));
  }

  // ---------------------------------------------------------------------------------------------
  // One step of the environment's log

  lemma {:induction false} FinishesBoth(a: seq<EtsEvent>, b: seq<EtsEvent>)
    ensures Finishes(a + b) == Finishes(a) + Finishes(b)
  {
    if b == [] {
      assert a + b == a;
    } else {
      FinishesBoth(a, b[..|b| - 1]);
      assert (a + b)[..|a + b| - 1] == a + b[..|b| - 1];
    }
  }

  /** The log of a step that was asked `asked`: only a fork at its end can go wrong. */
  lemma StepLog(log: seq<EtsEvent>, body: seq<EtsEvent>, fork: bool)
    requires EtsPostFork !in body
    ensures var after := log + (body + Fork(fork));
            && Finishes(after) == Finishes(log) + Finishes(body)
            && (ForksFinishedOnce(after) <==> ForksFinishedOnce(log) && (fork ==> Finishes(log) + Finishes(body) == 1))
  {
    var tail := Fork(fork);
    var after := log + (body + tail);
    FinishesBoth(log, body + tail);
    FinishesBoth(body, tail);
    assert [EtsPostFork][..0] == [];
    var n := |log| + |body|;
    assert after[..n] == log + body;
    FinishesBoth(log, body);
    hide Finishes;
    assert forall k :: 0 <= k < |log| ==> after[k] == log[k] && after[..k] == log[..k];
    assert forall k :: |log| <= k < n ==> after[k] == body[k - |log|];
    assert fork ==> after[n] == EtsPostFork;
  }

  lemma Scripts()
    ensures Finishes([]) == 0 && Finishes([EtsInit]) == 0
    ensures Finishes([EtsFinishPreload]) == 1 && Finishes([EtsInit, EtsFinishPreload]) == 1
  {
    assert [EtsInit][..0] == [] && [EtsFinishPreload][..0] == [];
    assert [EtsInit, EtsFinishPreload][..1] == [EtsInit];
  }

  /** An operation may fork: a saved ETS runtime is the only one finished so far, a new one the first. */
  predicate MayFork(finished: nat, taken: bool) {
    finished == if taken then 1 else 0
  }

  lemma ForkFollows(w: World, op: Op)
    ensures Forks(w, op) ==> (FinishesOne(w, op) <==> !TakesSaved(w, op))
  {
    hide Made, TakesSaved;
  }

  lemma StepForks(w: World, op: Op)
    ensures var w' := Apply(w, op);
            && Finishes(w'.env) == Finishes(w.env) + (if FinishesOne(w, op) then 1 else 0)
            && (ForksFinishedOnce(w'.env) <==>
                  ForksFinishedOnce(w.env) && (Forks(w, op) ==> MayFork(Finishes(w.env), TakesSaved(w, op))))
  {
    hide Apply, Finishes, ForksFinishedOnce, Made, TakesSaved;
    var body := ApplyAsks(w, op);
    StepLog(w.env, body, Forks(w, op));
    ForkFollows(w, op);
  }

  // ---------------------------------------------------------------------------------------------
  // Every run

  predicate ForksRightly(table: Table, ops: seq<Op>, i: nat)
    requires i < |ops|
  {
    var w := Run(Start(table), ops[..i]);
    Forks(w, ops[i]) ==> MayFork(FinishedSoFar(table, ops[..i]), TakesSaved(w, ops[i]))
  }

  lemma {:induction false} FinishesAreCounted(table: Table, ops: seq<Op>)
    ensures Finishes(Run(Start(table), ops).env) == FinishedSoFar(table, ops)
  {
    hide Apply, FinishesOne;
    if ops != [] {
      FinishesAreCounted(table, ops[..|ops| - 1]);
      StepForks(Run(Start(table), ops[..|ops| - 1]), ops[|ops| - 1]);
    }
  }

  /**
    In any run whatever, each PostFork of the process's ETS environment comes after exactly one
    FinishPreload, if and only if each operation that forks a saved ETS runtime finds that one runtime
    finished so far, and each that forks a new one finds none.
  */
  lemma {:induction false} EnvironmentForksOnceFinished(table: Table, ops: seq<Op>)
    ensures ForksFinishedOnce(Run(Start(table), ops).env) <==> forall i: nat :: i < |ops| ==> ForksRightly(table, ops, i)
  {
    hide Apply, ForksFinishedOnce, Forks, TakesSaved, MayFork, FinishedSoFar;
    if ops == [] {
      NothingForked(table);
    } else {
      var n := |ops| - 1;
      var before := ops[..n];
      EnvironmentForksOnceFinished(table, before);
      StepForks(Run(Start(table), before), ops[n]);
      FinishesAreCounted(table, before);
      forall i: nat | i < n ensures ForksRightly(table, before, i) <==> ForksRightly(table, ops, i) {
        assert before[..i] == ops[..i];
      }
      hide Run;
      assert ForksFinishedOnce(Run(Start(table), ops).env) <==>
             ForksFinishedOnce(Run(Start(table), before).env) && ForksRightly(table, ops, n);
    }
  }

  lemma NothingForked(table: Table)
    ensures ForksFinishedOnce(Run(Start(table), []).env)
  {
  }

  // ---------------------------------------------------------------------------------------------
  // A rule for callers

  /** Before asking for a fork: no ETS runtime was finished yet, or the slot holds the only one. */
  predicate Guarded(table: Table, ops: seq<Op>, i: nat)
    requires i < |ops|
  {
    var w := Run(Start(table), ops[..i]);
    AsksToFork(ops[i]) ==> FinishedSoFar(table, ops[..i]) <= if TakesSaved(w, ops[i]) then 1 else 0
  }

  predicate GuardedRun(table: Table, ops: seq<Op>) {
    forall i: nat :: i < |ops| ==> Guarded(table, ops, i)
  }

  lemma ApplySlot(w: World, op: Op)
    requires w.table.finishPreload && SlotIsEts(Apply(w, op))
    ensures SlotIsEts(w) || FinishesOne(w, op)
  {
    hide CreateJs, CreateEts, SavePreloaded, Destroy, DestroyJs;
    match op
    case CreateOp(o, ja, ea) =>
      CreateJsAsks(w, o, ja);
      CreateJsAsks(w, o.(lang := JS), ja);
      var (w1, j) := CreateJs(w, o.(lang := JS), ja);
      CreateEtsSlot(w1, j, o, ea, true);
      DropLocalSlot(CreateEts(w1, j, o, ea, true).0, j);
    case AttachOp(j, o, ea) => CreateEtsSlot(w, Some(j), o, ea, false);
    case SaveOp(rt) => SaveAsks(w, rt);
    case DropOp(rt) => DropSlot(w, rt);
  }

  lemma DropLocalSlot(w: World, j: Option<JsId>)
    ensures DropLocal(w, j).slot == w.slot
  {
  }

  lemma DropSlot(w: World, rt: Runtime)
    ensures Destroy(w, rt).slot == w.slot
  {
  }

  lemma DestroySlot(w: World, rt: Option<Runtime>)
    ensures DestroyOption(w, rt).slot == w.slot
  {
  }

  lemma PreForkSlot(w: World, j: JsId, o: Options, a: EtsAnswers, isMove: bool)
    ensures PreForkEts(w, j, o, a, isMove).0.slot == w.slot
  {
  }

  lemma CreateEtsSlot(w: World, j: Option<JsId>, o: Options, a: EtsAnswers, isMove: bool)
    ensures SlotIsEts(CreateEts(w, j, o, a, isMove).0) ==> SlotIsEts(w)
  {
    hide PreForkEts, DestroyOption;
    if a.registered && j.Some? {
      var (w1, taken) := GetPreloaded(w, ETS);
      DestroySlot(w1, taken);
      PreForkSlot(DestroyOption(w1, taken), j.value, o, a, isMove);
    }
  }

  lemma {:induction false} SavedWasFinished(table: Table, ops: seq<Op>)
    requires table.finishPreload && SlotIsEts(Run(Start(table), ops))
    ensures FinishedSoFar(table, ops) >= 1
  {
    hide Apply, FinishesOne;
    if ops != [] {
      var before := ops[..|ops| - 1];
      TableStays(table, before);
      ApplySlot(Run(Start(table), before), ops[|ops| - 1]);
      if SlotIsEts(Run(Start(table), before)) {
        SavedWasFinished(table, before);
      }
    }
  }

  lemma GuardedForksRightly(table: Table, ops: seq<Op>, i: nat)
    requires TableOk(table) && i < |ops| && Guarded(table, ops, i)
    ensures ForksRightly(table, ops, i)
  {
    hide Run, FinishedSoFar, Made, SlotIsEts;
    TableStays(table, ops[..i]);
    if TakesSaved(Run(Start(table), ops[..i]), ops[i]) && table.finishPreload {
      SavedWasFinished(table, ops[..i]);
    }
  }

  lemma {:induction false} NothingFinishes(table: Table, ops: seq<Op>)
    requires !table.finishPreload
    ensures FinishedSoFar(table, ops) == 0
  {
    hide Apply, FinishesOne;
    if ops != [] {
      var before := ops[..|ops| - 1];
      NothingFinishes(table, before);
      TableStays(table, before);
      var body := ApplyAsks(Run(Start(table), before), ops[|ops| - 1]);
    }
  }

  /** Without the entry, preload, save and create fork the environment unfinished, as the rule allows. */
  lemma UnfinishedFork(table: Table) returns (ops: seq<Op>)
    requires !TableOk(table)
    ensures GuardedRun(table, ops) && !ForksFinishedOnce(Run(Start(table), ops).env)
  {
    hide Run, FinishedSoFar, ForksFinishedOnce, Create, SlotIsEts, DisciplinedRun, ForkAfterFinish;
    var e;
    ops, e := MissingEntryForksUnfinished(table);
    forall i: nat | i < |ops| ensures Guarded(table, ops, i) {
      NothingFinishes(table, ops[..i]);
    }
    NothingFinishes(table, ops[..2]);
    TableStays(table, ops[..2]);
    EnvironmentForksOnceFinished(table, ops);
    assert !ForksRightly(table, ops, 2);
  }

  const BOTH: Table := Table(true, true)
  const STAGE: Op := CreateOp(ETS_STAGE, JS_OK, ETS_OK)

  lemma StageMakes(w: World)
    requires Inv(w, {}) && w.slot.None? && w.table == BOTH
    ensures Made(w, STAGE) && Apply(w, STAGE).slot.None?
  {
    hide Inv, CreateJs, AcquireJs;
    var jo := ETS_STAGE.(lang := JS);
    CreateJsSucceeds(w, jo);
    CreateJsKeeps(w, jo, JS_OK);
    EmptySlotStays(w, jo);
    CreateJsAsks(w, jo, JS_OK);
    var (w1, j) := CreateJs(w, jo, JS_OK);
    StageInstance(w1, j.value);
    DropLocalSlot(CreateEts(w1, j, ETS_STAGE, ETS_OK, true).0, j);
  }

  lemma EmptySlotStays(w: World, o: Options)
    requires w.slot.None?
    ensures CreateJs(w, o, JS_OK).0.slot.None?
  {
    hide Initialize;
  }

  lemma StageInstance(w: World, j: JsId)
    requires w.slot.None? && w.table == BOTH
    ensures var (w', e) := CreateEts(w, Some(j), ETS_STAGE, ETS_OK, true); e.Some? && w'.slot.None?
  {
    hide MoveWhen;
    MoveWhenKeepsEnv(NewEts(w), w.nextEts, j, true);
    MoveWhenSlot(NewEts(w), w.nextEts, j);
    var w3 := PreForkEts(w, j, ETS_STAGE, ETS_OK, true).0;
    MoveWhenKeepsEnv(w3, w.nextEts, j, true);
    MoveWhenSlot(w3, w.nextEts, j);
  }

  lemma MoveWhenSlot(w: World, e: EtsId, j: JsId)
    requires e in w.ets
    ensures MoveWhen(w, e, j, true).slot == w.slot
  {
  }

  /** Two ETS runtimes for applications, one after the other, finish the one environment's preload twice. */
  lemma TwoCreatesFinishTwice()
    ensures DisciplinedRun(Start(BOTH), [STAGE, STAGE])
    ensures !ForksFinishedOnce(Run(Start(BOTH), [STAGE, STAGE]).env)
  {
    hide Apply, ForksFinishedOnce, Inv, Made;
    var w, ops := Start(BOTH), [STAGE, STAGE];
    assert ops[..1] == [STAGE] && ops[..0] == [] && [STAGE][..0] == [];
    RunKeeps(BOTH, []);
    StageMakes(w);
    assert DisciplinedRun(w, []) && DisciplinedRun(w, [STAGE]);
    RunKeeps(BOTH, [STAGE]);
    var w1 := Run(w, [STAGE]);
    assert w1 == Apply(w, STAGE);
    TableStays(BOTH, [STAGE]);
    StageMakes(w1);
    assert FinishedSoFar(BOTH, []) == 0 && FinishedSoFar(BOTH, [STAGE]) == 1;
    EnvironmentForksOnceFinished(BOTH, ops);
    assert !ForksRightly(BOTH, ops, 1);
  }

  /**
    Under that rule every PostFork of the environment comes after exactly one FinishPreload, in every run,
    if and only if a library that offers PostFork offers FinishPreload.
  */
  lemma EtsForksAfterFinishing(table: Table)
    ensures TableOk(table) <==>
            forall ops: seq<Op> :: GuardedRun(table, ops) ==> ForksFinishedOnce(Run(Start(table), ops).env)
  {
    hide Guarded, ForksRightly, ForksFinishedOnce, Run;
    if TableOk(table) {
      forall ops: seq<Op> | GuardedRun(table, ops) ensures ForksFinishedOnce(Run(Start(table), ops).env) {
        forall i: nat | i < |ops| ensures ForksRightly(table, ops, i) {
          GuardedForksRightly(table, ops, i);
        }
        EnvironmentForksOnceFinished(table, ops);
      }
    } else {
      var ops := UnfinishedFork(table);
    }
  }
}
