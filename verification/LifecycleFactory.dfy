/**
  What the factory hands out: when it returns a runtime, which one, and who holds it.
*/
module LifecycleFactory {
  import opened Wrappers
  import opened Lifecycle
  import opened LifecycleProofs
  import opened LifecycleEnvironment

  // ---------------------------------------------------------------------------------------------
  // The answers that a create needs

  /** The slot has a JS runtime to give: itself, or the one of the saved ETS runtime. */
  predicate SlotHasJs(w: World) {
    match w.slot
    case None => false
    case Some(JsRuntime(_)) => true
    case Some(EtsRuntime(e)) => e in w.ets && w.ets[e].js.Some?
  }

  function SavedJs(w: World): JsId
    requires SlotHasJs(w)
  {
    match w.slot.value
    case JsRuntime(j) => j
    case EtsRuntime(e) => w.ets[e].js.value
  }

  /** The create goes on with the saved JS runtime. */
  predicate Reuses(w: World, o: Options, a: JsAnswers) {
    !o.preload && o.isStageModel && !a.pipelineChangedAtCreate && SlotHasJs(w)
  }

  /** A saved VM is kept; otherwise the environment must come up. */
  predicate KeepsVm(w: World, o: Options, a: JsAnswers) {
    Reuses(w, o, a) && !a.pipelineChangedAtInit
  }

  predicate JsAnswersGood(w: World, o: Options, a: JsAnswers) {
    && (KeepsVm(w, o, a) || a.envOk)
    && (o.isStageModel || o.isTestFramework ==> a.engineOk && a.globalOk && (KeepsVm(w, o, a) || a.requireRefOk))
    && (o.preload || a.loopOk)
  }

  /** The saved ETS runtime is kept; otherwise environment and ANI must come up, and the library finish its preload. */
  predicate EtsAnswersGood(w: World, o: Options, a: EtsAnswers) {
    && a.registered
    && ((SlotIsEts(w) && !a.pipelineChanged) ||
        (o.lang == ETS && a.envOk && a.aniOk && (o.preload || w.table.finishPreload)))
  }

  predicate AnswersGood(w: World, o: Options, ja: JsAnswers, ea: EtsAnswers) {
    match o.lang
    case JS => JsAnswersGood(w, o, ja)
    case ETS => JsAnswersGood(w, o, ja) && EtsAnswersGood(w, o, ea)
    case Unknown => false
  }

  // ---------------------------------------------------------------------------------------------
  // JS runtimes

  lemma InitializeSucceeds(r: Js, vms: Vms, o: Options, a: JsAnswers)
    ensures var kept := r.preloaded && !a.pipelineChangedAtInit;
            Initialize(r, vms, o, a).2 <==>
              && (kept || a.envOk)
              && (o.isStageModel || o.isTestFramework ==> a.engineOk && a.globalOk && (kept || a.requireRefOk))
              && (o.preload || a.loopOk)
  {
  }

  lemma KeptVm(r: Js, vms: Vms, o: Options, a: JsAnswers)
    requires r.preloaded && !a.pipelineChangedAtInit
    ensures Initialize(r, vms, o, a).0.vm == r.vm
  {
  }

  /** The runtime to initialise is the saved one, or one that did not exist; nobody else's changes hands. */
  lemma AcquireJsIs(w: World, o: Options, a: JsAnswers)
    requires Inv(w, {})
    ensures var (w1, j) := AcquireJs(w, o, a);
            && w1.held == w.held && w1.preloadMade == w.preloadMade
            && j in w1.js && w1.js[j].preloaded == Reuses(w, o, a)
            && (if Reuses(w, o, a) then j == SavedJs(w) && j in w.js && w1.js[j] == w.js[j] else j !in w.js)
  {
    hide VmsOk, EtsLogsOk, OwnedPhasesOk;
    if !o.preload && o.isStageModel {
      var (w1, taken) := GetPreloaded(w, JS);
      DestroyKeepsNext(w1, taken);
      if SlotIsEts(w) {
        assert w.slot.value.ets in w.ets;
        if SlotHasJs(w) { assert EtsOwns(w.ets, w.slot.value.ets, SavedJs(w)); }
      }
    }
  }

  lemma DestroyKeepsNext(w: World, rt: Option<Runtime>)
    ensures var w' := DestroyOption(w, rt);
            w'.nextJs == w.nextJs && w'.held == w.held && w'.preloadMade == w.preloadMade
  {
  }

  /** A JS create, with its result and holder. */
  lemma JsCreateIs(w: World, o: Options, a: JsAnswers)
    requires Inv(w, {})
    ensures var (w', made) := CreateJs(w, o, a);
            && (made.Some? <==> JsAnswersGood(w, o, a))
            && (if made.Some?
                then && w'.held == w.held + {JsRuntime(made.value)} && JsRuntime(made.value) !in w.held
                     && made.value in w'.js
                     && (if Reuses(w, o, a) then made.value == SavedJs(w) else made.value !in w.js)
                     && (KeepsVm(w, o, a) ==> made.value in w.js && w'.js[made.value].vm == w.js[made.value].vm)
                else w'.held == w.held)
            && w'.preloadMade - (if made.Some? then {JsRuntime(made.value)} else {})
               == w.preloadMade - (if made.Some? then {JsRuntime(made.value)} else {})
            && (made.Some? ==> (JsRuntime(made.value) in w'.preloadMade <==> o.preload))
  {
    hide Inv, Initialize, AcquireJs, Reuses, SlotHasJs, SavedJs;
    AcquireJsKeeps(w, o, a);
    AcquireJsIs(w, o, a);
    var (w1, j) := AcquireJs(w, o, a);
    LooseIsLive(w1, JsRuntime(j), {JsRuntime(j)});
    InitializeSucceeds(w1.js[j], w1.vms, o, a);
    if KeepsVm(w, o, a) { KeptVm(w1.js[j], w1.vms, o, a); }
  }

  // ---------------------------------------------------------------------------------------------
  // ETS runtimes

  /** The create goes on with the saved ETS runtime. */
  predicate ReusesEts(w: World, a: EtsAnswers) {
    SlotIsEts(w) && !a.pipelineChanged
  }

  lemma MoveWhenHeld(w: World, e: EtsId, j: JsId, isMove: bool)
    requires e in w.ets
    ensures var w' := MoveWhen(w, e, j, isMove);
            && w'.held == (if isMove then w.held - {JsRuntime(j)} else w.held) && w'.preloadMade == w.preloadMade
            && e in w'.ets && w'.table == w.table
            && (isMove && JsRuntime(j) in w.held ==> w'.ets[e].js == Some(j))
            && (!(isMove && JsRuntime(j) in w.held) ==> w'.ets == w.ets)
  {
  }

  lemma DestroyEtsHeld(w: World, e: EtsId)
    ensures DestroyEts(w, e).held == w.held && DestroyEts(w, e).preloadMade == w.preloadMade
  {
  }

  /** The JS runtime of the caller, where it is held no more. */
  function Without(held: set<Runtime>, j: JsId, isMove: bool): set<Runtime> {
    if isMove then held - {JsRuntime(j)} else held
  }

  lemma PreForkIs(w: World, j: JsId, o: Options, a: EtsAnswers, isMove: bool)
    requires JsRuntime(j) in w.held
    ensures var (w', e) := PreForkEts(w, j, o, a, isMove);
            && (e.Some? <==> o.lang == ETS && a.envOk && a.aniOk && (o.preload || w.table.finishPreload))
            && w'.preloadMade == w.preloadMade && w'.table == w.table
            && (w'.held == w.held || w'.held == Without(w.held, j, isMove))
            && (e.Some? ==> && e.value == w.nextEts && e.value in w'.ets && w'.held == Without(w.held, j, isMove)
                            && (isMove ==> w'.ets[e.value].js == Some(j)))
  {
    hide MoveWhen, DestroyEts;
    var e := w.nextEts;
    var w1 := NewEts(w);
    MoveWhenHeld(w1, e, j, isMove);
    var w2 := MoveWhen(w1, e, j, isMove);
    DestroyEtsHeld(w1, e);
    DestroyEtsHeld(w2, e);
    DestroyEtsHeld(LogEts(w2, e, EtsInit), e);
    PreForkAsks(w, j, o, a, isMove);
  }

  lemma PostForkIs(w: World, e: EtsId, j: JsId, isMove: bool)
    requires e in w.ets
    ensures var w' := PostForkEts(w, e, j, isMove);
            && e in w'.ets && w'.preloadMade == w.preloadMade
            && w'.held == (if w.table.postFork then Without(w.held, j, isMove) else w.held)
            && (w.table.postFork && isMove && JsRuntime(j) in w.held ==> w'.ets[e].js == Some(j))
            && (!(w.table.postFork && isMove && JsRuntime(j) in w.held) ==> w'.ets == w.ets)
  {
    hide MoveWhen;
    MoveWhenHeld(w, e, j, isMove);
  }

  /** The instance to go on with: the saved one, or a new one that owns the JS runtime when that is moved. */
  lemma AcquireEtsIs(w: World, j: JsId, o: Options, a: EtsAnswers, isMove: bool)
    requires Inv(w, {}) && JsRuntime(j) in w.held
    ensures var (w', e) := AcquireEts(w, j, o, a, isMove);
            && (e.Some? <==> ReusesEts(w, a) || (o.lang == ETS && a.envOk && a.aniOk && (o.preload || w.table.finishPreload)))
            && w'.preloadMade == w.preloadMade && w'.table == w.table
            && (w'.held == w.held || w'.held == Without(w.held, j, isMove))
            && (e.Some? ==> && e.value in w'.ets && EtsRuntime(e.value) !in w.held
                            && (if ReusesEts(w, a) then w.slot == Some(EtsRuntime(e.value)) && w'.held == w.held && w'.ets == w.ets
                                else && e.value !in w.ets && w'.held == Without(w.held, j, isMove)
                                     && (isMove ==> w'.ets[e.value].js == Some(j))))
  {
    hide PreForkEts, DestroyOption;
    SlotLive(w);
    var (w1, taken) := GetPreloaded(w, ETS);
    DestroyKeepsNext(w1, taken);
    DestroyKeepsEnv(w1, taken);
    DestroyKeepsNextEts(w1, taken);
    NewEtsUnheld(w);
    hide Inv;
    if !ReusesEts(w, a) { PreForkIs(DestroyOption(w1, taken), j, o, a, isMove); }
  }

  lemma SlotLive(w: World)
    requires Inv(w, {})
    ensures w.slot.Some? ==> Live(w, w.slot.value) && w.slot.value !in w.held
  {
    hide VmsOk, IdsOk, PhasesOk, OwnedPhasesOk, EtsLogsOk;
  }

  lemma NewEtsUnheld(w: World)
    requires Inv(w, {})
    ensures w.nextEts !in w.ets && EtsRuntime(w.nextEts) !in w.held
  {
    hide VmsOk, PhasesOk, OwnedPhasesOk, EtsLogsOk;
    assert w.nextEts !in w.ets;
    assert EtsRuntime(w.nextEts) in w.held ==> Live(w, EtsRuntime(w.nextEts));
  }

  lemma DestroyKeepsNextEts(w: World, rt: Option<Runtime>)
    ensures DestroyOption(w, rt).nextEts == w.nextEts
  {
  }

  /** The ETS runtime made owns the JS runtime of the caller: it is new, or it was forked. */
  predicate TakesJs(w: World, o: Options, a: EtsAnswers) {
    !ReusesEts(w, a) || (w.table.postFork && !o.preload)
  }

  /** An ETS create beside a held JS runtime, with its result and holders. */
  lemma EtsCreateIs(w: World, j: JsId, o: Options, a: EtsAnswers, isMove: bool)
    requires Inv(w, {}) && JsRuntime(j) in w.held
    ensures var (w', made) := CreateEts(w, Some(j), o, a, isMove);
            && (made.Some? <==> EtsAnswersGood(w, o, a))
            && (made.None? ==> w'.held == w.held || w'.held == Without(w.held, j, isMove))
            && (made.Some? ==>
                  && made.value in w'.ets && EtsRuntime(made.value) !in w.held
                  && w'.held == (if TakesJs(w, o, a) then Without(w.held, j, isMove) else w.held) + {EtsRuntime(made.value)}
                  && (isMove && TakesJs(w, o, a) ==> w'.ets[made.value].js == Some(j))
                  && (if ReusesEts(w, a) then w.slot == Some(EtsRuntime(made.value)) else made.value !in w.ets)
                  && (EtsRuntime(made.value) in w'.preloadMade <==> o.preload))
  {
    hide Inv, AcquireEts, PostForkEts, ReusesEts;
    if a.registered {
      AcquireEtsIs(w, j, o, a, isMove);
      var (w2, instance) := AcquireEts(w, j, o, a, isMove);
      if instance.Some? {
        PostForkIs(w2, instance.value, j, isMove);
      }
    }
    ReusesEtsIs(w, a);
  }

  lemma ReusesEtsIs(w: World, a: EtsAnswers)
    ensures ReusesEts(w, a) <==> SlotIsEts(w) && !a.pipelineChanged
  {
  }

  // ---------------------------------------------------------------------------------------------
  // The factory

  /**
    After any disciplined run, the factory returns a runtime exactly when the answers needed on its way are
    good.  The runtime is alive, has the language asked for, is the one thing that the running code holds
    in addition, and is the saved one or new; without a result the running code holds what it held.
  */
  lemma FactoryHandsOut(table: Table, ops: seq<Op>, o: Options, ja: JsAnswers, ea: EtsAnswers)
    requires DisciplinedRun(Start(table), ops)
    ensures var w := Run(Start(table), ops);
            var (w', made) := Create(w, o, ja, ea);
            && (made.Some? <==> AnswersGood(w, o, ja, ea))
            && (made.None? ==> w'.held == w.held)
            && (made.Some? ==>
                  && Live(w', made.value) && made.value !in w.held && w'.held == w.held + {made.value}
                  && (made.value.JsRuntime? <==> o.lang == JS) && (made.value.EtsRuntime? <==> o.lang == ETS)
                  && (made.value in w'.preloadMade <==> o.preload))
  {
    RunKeeps(table, ops);
    var w := Run(Start(table), ops);
    hide Run, DisciplinedRun;
    CreateHandsOut(w, o, ja, ea);
  }

  lemma CreateHandsOut(w: World, o: Options, ja: JsAnswers, ea: EtsAnswers)
    requires Inv(w, {})
    ensures var (w', made) := Create(w, o, ja, ea);
            && (made.Some? <==> AnswersGood(w, o, ja, ea))
            && (made.None? ==> w'.held == w.held)
            && (made.Some? ==>
                  && Live(w', made.value) && made.value !in w.held && w'.held == w.held + {made.value}
                  && (made.value.JsRuntime? <==> o.lang == JS) && (made.value.EtsRuntime? <==> o.lang == ETS)
                  && (made.value in w'.preloadMade <==> o.preload))
  {
    hide Inv, CreateJs, CreateEts, DestroyJs;
    match o.lang
    case JS => JsCreateIs(w, o, ja);
    case ETS => EtsHandedOut(w, o, ja, ea);
    case Unknown =>
  }

  lemma EtsHandedOut(w: World, o: Options, ja: JsAnswers, ea: EtsAnswers)
    requires Inv(w, {}) && o.lang == ETS
    ensures var (w', made) := Create(w, o, ja, ea);
            && (made.Some? <==> AnswersGood(w, o, ja, ea))
            && (made.None? ==> w'.held == w.held)
            && (made.Some? ==>
                  && made.value.EtsRuntime? && Live(w', made.value) && made.value !in w.held
                  && w'.held == w.held + {made.value} && (made.value in w'.preloadMade <==> o.preload)
                  && (if ReusesEts(w, ea) then w.slot == Some(made.value) else made.value.ets !in w.ets)
                  && (TakesJs(w, o, ea) ==>
                        && w'.ets[made.value.ets].js.Some?
                        && (if Reuses(w, o, ja) then w'.ets[made.value.ets].js == Some(SavedJs(w))
                            else w'.ets[made.value.ets].js.value !in w.js)))
  {
    hide Inv, CreateJs, CreateEts, DestroyJs, Reuses, SavedJs, KeepsVm;
    var jo := o.(lang := JS);
    JsCreateIs(w, jo, ja);
    SameJsAnswers(w, o, jo, ja);
    CreateJsAsks(w, jo, ja);
    CreateJsKeeps(w, jo, ja);
    var (w1, j) := CreateJs(w, jo, ja);
    if j.Some? {
      EtsCreateIs(w1, j.value, o, ea, true);
      CreateJsEts(w, jo, ja);
      var (w2, e) := CreateEts(w1, j, o, ea, true);
      DropLocalIs(w2, j.value);
      assert w1.held - {JsRuntime(j.value)} == w.held;
    } else {
      NoJsNoEts(w1, o, ea);
    }
  }

  lemma SameJsAnswers(w: World, o: Options, jo: Options, a: JsAnswers)
    requires jo == o.(lang := JS)
    ensures JsAnswersGood(w, jo, a) == JsAnswersGood(w, o, a) && Reuses(w, jo, a) == Reuses(w, o, a)
  {
  }

  /** A JS create changes no ETS runtime's existence, and the slot only if that holds a JS runtime. */
  lemma CreateJsEts(w: World, o: Options, a: JsAnswers)
    ensures var w' := CreateJs(w, o, a).0;
            && w'.ets.Keys == w.ets.Keys && (SlotIsEts(w) ==> w'.slot == w.slot)
  {
    hide AcquireJs, Initialize;
    AcquireJsEts(w, o, a);
  }

  lemma AcquireJsEts(w: World, o: Options, a: JsAnswers)
    ensures var w' := AcquireJs(w, o, a).0;
            && w'.ets.Keys == w.ets.Keys && (SlotIsEts(w) ==> w'.slot == w.slot)
  {
    hide DestroyOption;
    var (w1, taken) := GetPreloaded(w, JS);
    DestroySlot(w1, taken);
    if taken.Some? && taken.value.JsRuntime? { DestroyJsEts(w1, taken); }
    if taken.None? { DestroyNothing(w1); }
  }

  lemma DestroyJsEts(w: World, rt: Option<Runtime>)
    requires rt.Some? && rt.value.JsRuntime?
    ensures DestroyOption(w, rt).ets == w.ets
  {
  }

  lemma DestroyNothing(w: World)
    ensures DestroyOption(w, None) == w
  {
  }

  lemma DropLocalIs(w: World, j: JsId)
    ensures var w' := DropLocal(w, Some(j));
            && w'.held == w.held - {JsRuntime(j)} && w'.ets == w.ets && w'.preloadMade == w.preloadMade
  {
  }

  // ---------------------------------------------------------------------------------------------
  // From a preloaded JS runtime to the application's

  lemma RestoredFromSlot(w: World, j: JsId, o: Options, a: JsAnswers)
    requires w.slot == Some(JsRuntime(j)) && IsSaved(w.js, w.vms.log, j)
    requires !o.preload && o.isStageModel && !a.pipelineChangedAtCreate && !a.pipelineChangedAtInit
    requires CreateJs(w, o, a).1.Some?
    ensures var (w', k) := CreateJs(w, o, a);
            && k == Some(j) && w'.slot.None? && HasLog(w'.js, w'.vms.log, j, FORKED)
            && w'.js[j] == Js(false, w.js[j].vm)
  {
    assert SAVED + [PostFork] + [Worker] + [Loop] == FORKED;
  }

  lemma SavedJsSlot(w: World, j: JsId)
    requires Inv(w, {}) && JsRuntime(j) in w.held && JsRuntime(j) in w.preloadMade
    ensures j in w.js
    ensures var w' := SavePreloaded(w, Some(JsRuntime(j)));
            Inv(w', {}) && w'.slot == Some(JsRuntime(j)) && IsSaved(w'.js, w'.vms.log, j) && w'.js[j] == w.js[j]
  {
    SaveKeeps(w, Some(JsRuntime(j)));
    HeldPhase(w, j, {});
    SavedJsStays(w, j);
    hide VmsOk, IdsOk, OwnersOk, OwnedPhasesOk, EtsLogsOk;
  }

  lemma SavedJsStays(w: World, j: JsId)
    requires Inv(w, {}) && JsRuntime(j) in w.held
    ensures j in w.js
    ensures var w' := SavePreloaded(w, Some(JsRuntime(j)));
            w'.slot == Some(JsRuntime(j)) && j in w'.js && w'.js[j] == w.js[j]
  {
    hide VmsOk, IdsOk, PhasesOk, OwnedPhasesOk, EtsLogsOk;
    assert OwnedJs(w, {}, j);
    if SlotIsEts(w) && w.ets[w.slot.value.ets].js.Some? {
      assert EtsOwns(w.ets, w.slot.value.ets, w.ets[w.slot.value.ets].js.value);
    }
  }

  /**
    Preload a JS runtime, save it, create a JS runtime for a stage-model application: with no pipeline
    change, and with engine, global object and loop, the application gets the saved runtime with its VM,
    which has been through the whole forked script.
  */
  lemma PreloadSaveCreateJs(w: World, p: Options, pj: JsAnswers, pe: EtsAnswers, o: Options, oj: JsAnswers, oe: EtsAnswers)
    requires Inv(w, {}) && p.lang == JS && p.preload && Create(w, p, pj, pe).1.Some?
    requires o.lang == JS && !o.preload && o.isStageModel && !oj.pipelineChangedAtCreate && !oj.pipelineChangedAtInit
    ensures var (w1, saved) := Create(w, p, pj, pe);
            var w2 := SavePreloaded(w1, saved);
            var (w3, got) := Create(w2, o, oj, oe);
            && saved.value.JsRuntime? && saved.value.js in w1.js
            && (got.Some? <==> oj.engineOk && oj.globalOk && oj.loopOk)
            && (got.Some? ==> && got == saved && w3.slot.None? && HasLog(w3.js, w3.vms.log, saved.value.js, FORKED)
                              && w3.js[saved.value.js].vm == w1.js[saved.value.js].vm)
  {
    hide Inv, CreateJs, SavePreloaded;
    CreateHandsOut(w, p, pj, pe);
    CreateKeeps(w, p, pj, pe);
    var (w1, saved) := Create(w, p, pj, pe);
    var j := saved.value.js;
    SavedJsSlot(w1, j);
    var w2 := SavePreloaded(w1, saved);
    CreateHandsOut(w2, o, oj, oe);
    if CreateJs(w2, o, oj).1.Some? { RestoredFromSlot(w2, j, o, oj); }
  }

  // ---------------------------------------------------------------------------------------------
  // The other operations

  /** Saving a held runtime moves it into the slot; what the slot held is destroyed.  Saving nothing empties the slot. */
  lemma SaveIs(table: Table, ops: seq<Op>, rt: Option<Runtime>)
    requires DisciplinedRun(Start(table), ops) && Disciplined(Run(Start(table), ops), SaveOp(rt))
    requires rt.Some? ==> rt.value in Run(Start(table), ops).held
    ensures var w := Run(Start(table), ops);
            var w' := Apply(w, SaveOp(rt));
            && w'.slot == rt && (rt.Some? ==> Live(w', rt.value))
            && w'.held == w.held - (if rt.Some? then {rt.value} else {})
            && (w.slot.Some? ==> !Live(w', w.slot.value))
  {
    RunKeeps(table, ops);
    var w := Run(Start(table), ops);
    hide Run, DisciplinedRun, Apply, SavePreloaded, Inv;
    SaveKeeps(w, rt);
    SaveApplies(w, rt);
    SaveAsks(w, rt);
    SaveMoves(w, rt);
    SlotLive(SavePreloaded(w, rt));
  }

  lemma SaveApplies(w: World, rt: Option<Runtime>)
    requires rt.Some? ==> rt.value in w.held
    ensures Apply(w, SaveOp(rt)) == SavePreloaded(w, rt)
  {
    hide SavePreloaded;
  }

  lemma DestroyedIsGone(w: World, rt: Runtime)
    ensures !Live(Destroy(w, rt), rt)
  {
  }

  lemma SaveMoves(w: World, rt: Option<Runtime>)
    ensures var w' := SavePreloaded(w, rt);
            && w'.held == w.held - (if rt.Some? then {rt.value} else {})
            && (w.slot.Some? ==> !Live(w', w.slot.value))
  {
    hide Destroy;
    var w0 := if rt.Some? then w.(held := w.held - {rt.value}) else w;
    var w1 :=
      match rt
      case None => w0
      case Some(JsRuntime(j)) => JsFinishPreload(w0, j)
      case Some(EtsRuntime(e)) => EtsFinish(w0, e);
    DestroyKeepsNext(w1.(slot := None), w1.slot);
    if w.slot.Some? { DestroyedIsGone(w1.(slot := None), w.slot.value); }
  }

  /** Dropping a held runtime destroys it, and with it the JS runtime that it owns and their VM. */
  lemma DropIs(table: Table, ops: seq<Op>, rt: Runtime)
    requires DisciplinedRun(Start(table), ops) && rt in Run(Start(table), ops).held
    ensures var w := Run(Start(table), ops);
            var w' := Apply(w, DropOp(rt));
            && !Live(w', rt) && w'.held == w.held - {rt} && w'.slot == w.slot
            && (rt.JsRuntime? ==> rt.js in w.js && VmClosed(w', VmOf(w, rt.js)))
            && (rt.EtsRuntime? ==>
                  && rt.ets in w.ets
                  && (w.ets[rt.ets].js.Some? ==>
                        w.ets[rt.ets].js.value !in w'.js && VmClosed(w', VmOf(w, w.ets[rt.ets].js.value))))
  {
    RunKeeps(table, ops);
    var w := Run(Start(table), ops);
    hide Run, DisciplinedRun;
    HeldIsLive(w, rt);
    DestroyedIsGone(w, rt);
    hide Inv;
    DestroyCloses(w, rt);
  }

  predicate VmClosed(w: World, vm: Option<VmId>) {
    vm.Some? ==> vm.value in w.vms.log && Closed(w.vms.log[vm.value])
  }

  lemma HeldIsLive(w: World, rt: Runtime)
    requires Inv(w, {}) && rt in w.held
    ensures Live(w, rt)
    ensures forall j <- w.js :: w.js[j].vm.Some? ==> w.js[j].vm.value in w.vms.log
  {
    hide IdsOk, PhasesOk, OwnedPhasesOk, EtsLogsOk;
  }

  lemma DestroyCloses(w: World, rt: Runtime)
    requires forall j <- w.js :: w.js[j].vm.Some? ==> w.js[j].vm.value in w.vms.log
    ensures var w' := Destroy(w, rt);
            && w'.slot == w.slot && w'.held == w.held
            && (rt.JsRuntime? ==> VmClosed(w', VmOf(w, rt.js)))
            && (rt.EtsRuntime? && rt.ets in w.ets && w.ets[rt.ets].js.Some? ==>
                  w.ets[rt.ets].js.value !in w'.js && VmClosed(w', VmOf(w, w.ets[rt.ets].js.value)))
  {
  }

  /** Attaching ETS beside a held JS runtime leaves that one with the running code. */
  lemma AttachIs(table: Table, ops: seq<Op>, j: JsId, o: Options, a: EtsAnswers)
    requires DisciplinedRun(Start(table), ops) && JsRuntime(j) in Run(Start(table), ops).held
    ensures var w := Run(Start(table), ops);
            var w' := Apply(w, AttachOp(j, o, a));
            if EtsAnswersGood(w, o, a)
            then exists e: EtsId :: e in w'.ets && EtsRuntime(e) !in w.held && w'.held == w.held + {EtsRuntime(e)}
            else w'.held == w.held
  {
    RunKeeps(table, ops);
    var w := Run(Start(table), ops);
    hide Run, DisciplinedRun, Inv, CreateEts;
    EtsCreateIs(w, j, o, a, false);
    var made := CreateEts(w, Some(j), o, a, false).1;
    assert made.Some? ==> EtsRuntime(made.value) !in w.held;
  }

  /** A create step of a run is what the factory does. */
  lemma CreateStepIs(w: World, o: Options, ja: JsAnswers, ea: EtsAnswers)
    ensures Apply(w, CreateOp(o, ja, ea)) == Create(w, o, ja, ea).0
  {
    hide Create;
  }
}
