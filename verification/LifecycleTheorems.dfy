/** What the life cycle of the runtimes guarantees over every run. */
module LifecycleTheorems {
  import opened Wrappers
  import opened Lifecycle
  import opened LifecycleProofs

  // ---------------------------------------------------------------------------------------------
  // VMs

  /**
    The history of a VM: it is made first; creation, console, PreFork, PostFork, worker and loop set-up
    and destruction each happen at most once; PostFork comes only after PreFork; no worker or loop is
    set up before a PreFork that is still to come; nothing follows its destruction.
  */
  ghost predicate GoodHistory(log: seq<VmEvent>) {
    && (log != [] ==> log[0] == Created)
    && (forall i: nat, k: nat :: i < k < |log| ==> log[i] != log[k])
    && (forall k: nat :: k < |log| && log[k] == PostFork ==> exists i: nat :: i < k && log[i] == PreFork)
    && (forall i: nat, k: nat :: i < k < |log| && log[k] == PreFork ==> log[i] != Worker && log[i] != Loop)
    && (forall k: nat :: k < |log| && log[k] == Destroyed ==> k == |log| - 1)
  }

  lemma OpenHistory(log: seq<VmEvent>, script: seq<VmEvent>)
    requires log != [] && log <= script && (script == DIRECT || script == FORKED)
    ensures GoodHistory(log) && Destroyed !in log
  {
    assert forall k :: 0 <= k < |log| ==> log[k] == script[k];
    forall k: nat | k < |log| && log[k] == PostFork ensures exists i: nat :: i < k && log[i] == PreFork {
      assert k == 3 && log[2] == PreFork;
    }
  }

  lemma ScriptedHistory(log: seq<VmEvent>)
    requires Scripted(log)
    ensures GoodHistory(log)
  {
    var body := if Open(log) then log else log[..|log| - 1];
    OpenHistory(body, if body <= DIRECT then DIRECT else FORKED);
    hide Open;
    if body != log {
      assert forall k :: 0 <= k < |body| ==> log[k] == body[k];
      forall k: nat | k < |log| && log[k] == PostFork ensures exists i: nat :: i < k && log[i] == PreFork {
        var i: nat :| i < k && body[i] == PreFork;
        assert log[i] == PreFork;
      }
    }
  }

  /** In every disciplined run, every VM ever made has a good history. */
  lemma EveryVmHasGoodHistory(table: Table, ops: seq<Op>, vm: VmId)
    requires DisciplinedRun(Start(table), ops) && vm in Run(Start(table), ops).vms.log
    ensures GoodHistory(Run(Start(table), ops).vms.log[vm])
  {
    RunKeeps(table, ops);
    ScriptedHistory(Run(Start(table), ops).vms.log[vm]);
  }

  /**
    Every JS runtime that a disciplined run leaves alive, whoever owns it, has its VM and console; worker
    and loop were set up exactly if it was last initialised outside preload mode, as its flag says, and
    one that the running code holds or has moved into a held ETS runtime in preload mode has neither.
  */
  lemma LoopOnlyOutsidePreload(table: Table, ops: seq<Op>, j: JsId)
    requires DisciplinedRun(Start(table), ops) && j in Run(Start(table), ops).js
    ensures var w := Run(Start(table), ops);
            && w.js[j].vm.Some? && w.js[j].vm.value in w.vms.log
            && (var log := w.vms.log[w.js[j].vm.value];
                && Created in log && Console in log && Destroyed !in log
                && (Worker in log <==> !w.js[j].preloaded) && (Loop in log <==> !w.js[j].preloaded)
                && (PostFork in log ==> !w.js[j].preloaded))
            && (JsRuntime(j) in w.held && JsRuntime(j) in w.preloadMade ==> w.js[j].preloaded)
            && (forall e: EtsId :: EtsOwns(w.ets, e, j) && EtsRuntime(e) in w.held && EtsRuntime(e) in w.preloadMade ==>
                  w.js[j].preloaded)
  {
    RunKeeps(table, ops);
    var w := Run(Start(table), ops);
    hide Run, DisciplinedRun;
    LiveInPhase(w, j);
    hide Inv;
    PhaseLog(w.js, w.vms.log, j);
  }

  lemma LiveInPhase(w: World, j: JsId)
    requires Inv(w, {}) && j in w.js
    ensures InPhase(w.js, w.vms.log, j)
    ensures JsRuntime(j) in w.held && JsRuntime(j) in w.preloadMade ==> w.js[j].preloaded
    ensures forall e: EtsId :: EtsOwns(w.ets, e, j) && EtsRuntime(e) in w.held && EtsRuntime(e) in w.preloadMade ==>
              w.js[j].preloaded
  {
    hide VmsOk, IdsOk, EtsLogsOk;
    if !OwnedJs(w, {}, j) {
      var e: EtsId :| EtsOwns(w.ets, e, j);
    }
  }

  lemma PhaseLog(js: JsTable, logs: VmLogs, j: JsId)
    requires InPhase(js, logs, j)
    ensures j in js && js[j].vm.Some? && js[j].vm.value in logs
    ensures var log := logs[js[j].vm.value];
            && Created in log && Console in log && Destroyed !in log
            && (Worker in log <==> !js[j].preloaded) && (Loop in log <==> !js[j].preloaded)
            && (PostFork in log ==> !js[j].preloaded)
  {
    assert FRESH[1] == Console && SAVED[1] == Console && DIRECT[1] == Console && FORKED[1] == Console;
    assert DIRECT[2] == Worker && DIRECT[3] == Loop && FORKED[4] == Worker && FORKED[5] == Loop;
  }

  // ---------------------------------------------------------------------------------------------
  // Owners

  datatype Owner = BySlot | ByCode | ByEts(e: EtsId)

  ghost function Owners(w: World, rt: Runtime): set<Owner> {
    (if w.slot == Some(rt) then {BySlot} else {})
    + (if rt in w.held then {ByCode} else {})
    + (if rt.JsRuntime? then set e | e in w.ets && w.ets[e].js == Some(rt.js) :: ByEts(e) else {})
  }

  lemma OwnedOnce(w: World, rt: Runtime)
    requires Inv(w, {})
    ensures if Live(w, rt) then exists o :: Owners(w, rt) == {o} else Owners(w, rt) == {}
  {
    if rt.JsRuntime? {
      var js := rt.js;
      assert forall e <- w.ets :: w.ets[e].js == Some(js) <==> EtsOwns(w.ets, e, js);
      if Live(w, rt) && !OwnedJs(w, {}, js) {
        var e: EtsId :| EtsOwns(w.ets, e, js);
        assert Owners(w, rt) == {ByEts(e)};
      } else if Live(w, rt) {
        assert Owners(w, rt) == {if w.slot == Some(rt) then BySlot else ByCode};
      } else {
        assert Owners(w, rt) == {};
      }
    } else if Live(w, rt) {
      assert Owners(w, rt) == {if w.slot == Some(rt) then BySlot else ByCode};
    } else {
      assert Owners(w, rt) == {};
    }
  }

  /** Every live runtime has exactly one owner, a destroyed one has none, and every live VM has one runtime. */
  lemma EveryRuntimeHasOneOwner(table: Table, ops: seq<Op>, rt: Runtime)
    requires DisciplinedRun(Start(table), ops)
    ensures var w := Run(Start(table), ops);
            && (if Live(w, rt) then exists o :: Owners(w, rt) == {o} else Owners(w, rt) == {})
            && (forall v <- w.vms.log :: Closed(w.vms.log[v]) || exists j <- w.js :: w.js[j].vm == Some(v))
  {
    RunKeeps(table, ops);
    OwnedOnce(Run(Start(table), ops), rt);
  }

  // ---------------------------------------------------------------------------------------------
  // ETS runtimes

  /** PostFork of an ETS runtime comes after exactly one FinishPreload. */
  ghost predicate ForkAfterFinish(log: seq<EtsEvent>) {
    forall k: nat :: k < |log| && log[k] == EtsPostFork ==>
      exists i: nat :: i < k && log[i] == EtsFinishPreload && EtsFinishPreload !in log[i + 1..]
                       && EtsFinishPreload !in log[..i]
  }

  lemma ScriptedEts(log: seq<EtsEvent>)
    requires log <= ETS_SCRIPT
    ensures ForkAfterFinish(log)
  {
    forall k: nat | k < |log| && log[k] == EtsPostFork
      ensures exists i: nat :: i < k && log[i] == EtsFinishPreload && EtsFinishPreload !in log[i + 1..]
                               && EtsFinishPreload !in log[..i]
    {
      assert log == ETS_SCRIPT;
      assert log[1] == EtsFinishPreload && EtsFinishPreload !in log[1 + 1..] && EtsFinishPreload !in log[..1];
    }
  }

  lemma RunThree(w: World, a: Op, b: Op, c: Op)
    ensures Run(w, [a, b, c]) == Apply(Apply(Apply(w, a), b), c)
    ensures [a, b, c][..2] == [a, b] && Run(w, [a, b]) == Apply(Apply(w, a), b)
    ensures DisciplinedRun(w, [a, b, c]) <==>
      Disciplined(w, a) && Disciplined(Apply(w, a), b) && Disciplined(Apply(Apply(w, a), b), c)
  {
    hide Apply, Disciplined;
    assert [a, b, c][..2] == [a, b] && [a, b][..1] == [a] && [a][..0] == [];
    assert Run(w, []) == w && DisciplinedRun(w, []);
    assert Run(w, [a]) == Apply(w, a) && (DisciplinedRun(w, [a]) <==> Disciplined(w, a));
    assert Run(w, [a, b]) == Apply(Run(w, [a]), b);
    assert DisciplinedRun(w, [a, b]) <==> DisciplinedRun(w, [a]) && Disciplined(Run(w, [a]), b);
  }

  // ---------------------------------------------------------------------------------------------
  // From preload to application

  /** A preload that succeeds yields an ETS runtime that owns a fresh JS runtime. */
  lemma PreloadedEts(w: World, o: Options, ja: JsAnswers, ea: EtsAnswers)
    requires !SlotIsEts(w) && o.lang == ETS && o.preload && Create(w, o, ja, ea).1.Some?
    ensures var (w1, r) := Create(w, o, ja, ea);
            && r.value.EtsRuntime? && r.value in w1.held && r.value in w1.preloadMade
            && r.value.ets in w1.ets && w1.ets[r.value.ets].js.Some?
            && r.value.ets in w1.etsLog && w1.etsLog[r.value.ets] == [EtsInit]
            && w1.table == w.table
  {
    hide Initialize;
    var (w1, j) := CreateJs(w, o.(lang := JS), ja);
    assert w1.slot == w.slot && w1.table == w.table;
    var (w2, e) := CreateEts(w1, j, o, ea, true);
    assert !SlotIsEts(w1) && j.Some? && JsRuntime(j.value) in w1.held;
    PreloadedInstance(w1, j.value, o, ea);
  }

  lemma PreloadedInstance(w: World, j: JsId, o: Options, a: EtsAnswers)
    requires !SlotIsEts(w) && o.preload && JsRuntime(j) in w.held
    requires CreateEts(w, Some(j), o, a, true).1.Some?
    ensures var (w', e) := CreateEts(w, Some(j), o, a, true);
            && EtsRuntime(e.value) in w'.held && EtsRuntime(e.value) in w'.preloadMade
            && JsRuntime(j) !in w'.held
            && e.value in w'.ets && w'.ets[e.value].js == Some(j)
            && e.value in w'.etsLog && w'.etsLog[e.value] == [EtsInit]
            && w'.table == w.table
  {
  }

  /** Saving it keeps it and its JS runtime together, and finishes both once. */
  lemma SavedEts(w: World, e: EtsId, j: JsId)
    requires Inv(w, {}) && EtsRuntime(e) in w.held && EtsRuntime(e) in w.preloadMade && EtsOwns(w.ets, e, j)
    requires e in w.etsLog && w.etsLog[e] == [EtsInit]
    ensures var w' := SavePreloaded(w, Some(EtsRuntime(e)));
            && Inv(w', {}) && w'.slot == Some(EtsRuntime(e)) && EtsOwns(w'.ets, e, j) && w'.table == w.table
            && IsSaved(w'.js, w'.vms.log, j) && j in w.js && w'.js[j] == w.js[j]
            && e in w'.etsLog
            && w'.etsLog[e] == if w.table.finishPreload then [EtsInit, EtsFinishPreload] else [EtsInit]
  {
    SaveKeeps(w, Some(EtsRuntime(e)));
    SavedEtsFields(w, e, j);
  }

  lemma SavedEtsFields(w: World, e: EtsId, j: JsId)
    requires Inv(w, {}) && EtsRuntime(e) in w.held && EtsOwns(w.ets, e, j)
    requires e in w.etsLog && w.etsLog[e] == [EtsInit]
    ensures var w' := SavePreloaded(w, Some(EtsRuntime(e)));
            && w'.slot == Some(EtsRuntime(e)) && EtsOwns(w'.ets, e, j) && w'.table == w.table
            && j in w.js && j in w'.js && w'.js[j] == w.js[j]
            && e in w'.etsLog
            && w'.etsLog[e] == if w.table.finishPreload then [EtsInit, EtsFinishPreload] else [EtsInit]
  {
    hide VmsOk, PhasesOk, EtsLogsOk, IdsOk;
    assert w.slot != Some(EtsRuntime(e)) && w.slot != Some(JsRuntime(j));
    if SlotIsEts(w) && w.ets[w.slot.value.ets].js.Some? {
      assert EtsOwns(w.ets, w.slot.value.ets, w.ets[w.slot.value.ets].js.value);
    }
  }

  /** A stage-model create takes the JS runtime out of the saved ETS runtime and forks its VM. */
  lemma RestoredJs(w: World, e: EtsId, j: JsId, o: Options, a: JsAnswers)
    requires w.slot == Some(EtsRuntime(e)) && EtsOwns(w.ets, e, j) && IsSaved(w.js, w.vms.log, j)
    requires !o.preload && o.isStageModel && !a.pipelineChangedAtCreate && !a.pipelineChangedAtInit
    requires CreateJs(w, o, a).1.Some?
    ensures var (w', k) := CreateJs(w, o, a);
            && k == Some(j) && JsRuntime(j) in w'.held && w'.slot == w.slot && w'.table == w.table
            && w'.ets == w.ets[e := Ets(None)] && w'.etsLog == w.etsLog
            && HasLog(w'.js, w'.vms.log, j, FORKED) && w'.js[j] == Js(false, w.js[j].vm)
  {
    assert SAVED + [PostFork] + [Worker] + [Loop] == FORKED;
  }

  /** The ETS runtime then takes it back. */
  lemma RestoredEts(w: World, e: EtsId, j: JsId, o: Options, a: EtsAnswers)
    requires w.slot == Some(EtsRuntime(e)) && e in w.ets && w.ets[e].js.None? && JsRuntime(j) in w.held
    requires e in w.etsLog && !o.preload && a.registered && !a.pipelineChanged
    ensures var (w', i) := CreateEts(w, Some(j), o, a, true);
            && i == Some(e) && EtsRuntime(e) in w'.held && w'.slot.None? && e in w'.ets && e in w'.etsLog
            && (if w.table.postFork
                then w'.ets[e].js == Some(j) && JsRuntime(j) !in w'.held && w'.js == w.js && w'.vms == w.vms
                     && w'.etsLog[e] == w.etsLog[e] + [EtsPostFork]
                else w'.etsLog == w.etsLog)
  {
  }

  /**
    Preload an ETS runtime, save it, create an ETS runtime for a stage-model application: with no pipeline
    change the application gets the saved ETS runtime, owning the very JS runtime and VM that were
    preloaded, and that VM has been through the whole forked script.
  */
  lemma PreloadSaveCreate(w: World, p: Options, pj: JsAnswers, pe: EtsAnswers, o: Options, oj: JsAnswers, oe: EtsAnswers)
    requires Inv(w, {}) && !SlotIsEts(w)
    requires p.lang == ETS && p.preload && Create(w, p, pj, pe).1.Some?
    requires o.lang == ETS && !o.preload && o.isStageModel && oe.registered
    requires !oj.pipelineChangedAtCreate && !oj.pipelineChangedAtInit && !oe.pipelineChanged
    ensures var (w1, saved) := Create(w, p, pj, pe);
            var w2 := SavePreloaded(w1, saved);
            var (w3, got) := Create(w2, o, oj, oe);
            CreateJs(w2, o.(lang := JS), oj).1.Some? ==>
              && got == saved && saved.value.EtsRuntime? && saved.value.ets in w1.ets
              && saved.value.ets in w3.ets && saved.value.ets in w3.etsLog
              && (var e := saved.value.ets;
                  var j := w1.ets[e].js;
                  && w3.etsLog[e] == [EtsInit] + (if w.table.finishPreload then [EtsFinishPreload] else [])
                                     + (if w.table.postFork then [EtsPostFork] else [])
                  && j.Some? && j.value in w1.js
                  && (w.table.postFork ==> w3.ets[e].js == j && HasLog(w3.js, w3.vms.log, j.value, FORKED)
                                           && w3.js[j.value].vm == w1.js[j.value].vm))
  {
    hide Inv, CreateJs, CreateEts, SavePreloaded;
    var (w1, saved) := Create(w, p, pj, pe);
    PreloadedEts(w, p, pj, pe);
    CreateKeeps(w, p, pj, pe);
    var e := saved.value.ets;
    var j := w1.ets[e].js.value;
    SavedEts(w1, e, j);
    var w2 := SavePreloaded(w1, saved);
    var jo := o.(lang := JS);
    if CreateJs(w2, jo, oj).1.Some? {
      RestoredJs(w2, e, j, jo, oj);
      var w3 := CreateJs(w2, jo, oj).0;
      RestoredEts(w3, e, j, o, oe);
    }
  }

  // ---------------------------------------------------------------------------------------------
  // Where the guarantees end

  /** A held JS runtime can be saved without spoiling its VM's history exactly when it was made in preload mode. */
  lemma SaveJsIffPreloaded(w: World, j: JsId)
    requires Inv(w, {}) && JsRuntime(j) in w.held
    ensures j in w.js && w.js[j].vm.Some? && w.js[j].vm.value in w.vms.log
    ensures var log := SavePreloaded(w, Some(JsRuntime(j))).vms.log;
            w.js[j].vm.value in log && (GoodHistory(log[w.js[j].vm.value]) <==> w.js[j].preloaded)
  {
    var v := w.js[j].vm.value;
    var log := w.vms.log[v];
    var w' := SavePreloaded(w, Some(JsRuntime(j)));
    SlotIsAnotherVm(w, j);
    assert w'.vms.log[v] == log + [PreFork];
    if w.js[j].preloaded {
      assert FRESH + [PreFork] == SAVED;
      ScriptedHistory(SAVED);
    } else {
      assert log == DIRECT || log == FORKED;
      var i := if log == DIRECT then 2 else 4;
      assert (log + [PreFork])[i] == Worker && (log + [PreFork])[|log|] == PreFork;
    }
  }

  /** What the slot holds and owns has other VMs than a runtime held by the running code. */
  lemma SlotIsAnotherVm(w: World, j: JsId)
    requires Inv(w, {}) && JsRuntime(j) in w.held
    ensures w.slot != Some(JsRuntime(j))
    ensures w.slot.Some? && w.slot.value.JsRuntime? ==> VmOf(w, w.slot.value.js) != w.js[j].vm
    ensures SlotIsEts(w) && w.slot.value.ets in w.ets && w.ets[w.slot.value.ets].js.Some? ==>
      VmOf(w, w.ets[w.slot.value.ets].js.value) != w.js[j].vm
  {
    hide PhasesOk, EtsLogsOk, IdsOk;
    HeldVm(w, j);
    assert OwnedJs(w, {}, j);
    if SlotIsEts(w) && w.ets[w.slot.value.ets].js.Some? {
      assert EtsOwns(w.ets, w.slot.value.ets, w.ets[w.slot.value.ets].js.value);
    }
  }

  lemma HeldVm(w: World, j: JsId)
    requires Inv(w, {}) && JsRuntime(j) in w.held
    ensures j in w.js && w.js[j].vm.Some?
  {
  }

  /** An ETS preload while the slot holds an ETS runtime hands that one out again; saving it forks its VM's past twice. */
  lemma RepeatedEtsPreload(w: World, e: EtsId, j: JsId, o: Options, ja: JsAnswers, ea: EtsAnswers)
    requires Inv(w, {}) && w.slot == Some(EtsRuntime(e)) && EtsOwns(w.ets, e, j)
    requires o.lang == ETS && o.preload && ea.registered && !ea.pipelineChanged
    requires CreateJs(w, o.(lang := JS), ja).1.Some?
    ensures j in w.js && w.js[j].vm.Some?
    ensures var (w1, got) := Create(w, o, ja, ea);
            var log := SavePreloaded(w1, got).vms.log;
            && got == Some(EtsRuntime(e)) && w.js[j].vm.value in log && !GoodHistory(log[w.js[j].vm.value])
  {
    hide VmsOk, OwnersOk, EtsLogsOk, IdsOk;
    assert IsSaved(w.js, w.vms.log, j);
    var v := w.js[j].vm.value;
    var (w1, k) := CreateJs(w, o.(lang := JS), ja);
    PreloadCreateJsKeepsOthers(w, o.(lang := JS), ja, j);
    var w2 := CreateEts(w1, k, o, ea, true).0;
    assert w2 == w1.(slot := None, held := w1.held + {EtsRuntime(e)}, preloadMade := w1.preloadMade + {EtsRuntime(e)});
    var w3 := DropLocal(w2, k);
    assert w3.js[j] == w.js[j] && w3.vms.log[v] == SAVED && w3.ets == w.ets;
    SavedAgain(w3, e, j);
  }

  /** Saving an ETS runtime whose JS runtime was saved before logs a second PreFork. */
  lemma SavedAgain(w: World, e: EtsId, j: JsId)
    requires EtsOwns(w.ets, e, j) && HasLog(w.js, w.vms.log, j, SAVED) && w.slot.None?
    ensures var log := SavePreloaded(w, Some(EtsRuntime(e))).vms.log;
            w.js[j].vm.value in log && !GoodHistory(log[w.js[j].vm.value])
  {
    var log := SavePreloaded(w, Some(EtsRuntime(e))).vms.log;
    assert log[w.js[j].vm.value] == SAVED + [PreFork];
    assert (SAVED + [PreFork])[2] == (SAVED + [PreFork])[3];
  }

  /** Creating a JS runtime in preload mode makes a new one with a new VM, and touches nothing else. */
  lemma PreloadCreateJsKeepsOthers(w: World, o: Options, a: JsAnswers, j: JsId)
    requires Inv(w, {}) && o.preload && CreateJs(w, o, a).1.Some? && IsSaved(w.js, w.vms.log, j)
    ensures var (w', k) := CreateJs(w, o, a);
            && k.value !in w.js && k.value in w'.js && w'.js[k.value].vm.Some?
            && w'.js[k.value].vm.value !in w.vms.log
            && j in w'.js && w'.js[j] == w.js[j] && IsSaved(w'.js, w'.vms.log, j)
            && w'.ets == w.ets && w'.slot == w.slot && JsRuntime(k.value) in w'.held
  {
    hide VmsOk, OwnersOk, PhasesOk, EtsLogsOk;
  }

  const ETS_PRELOAD: Options := Options(ETS, true, true, false)
  const ETS_STAGE: Options := Options(ETS, false, true, false)
  const JS_OK: JsAnswers := JsAnswers(false, false, true, true, true, true, true)
  const ETS_OK: EtsAnswers := EtsAnswers(true, false, true, true)

  /** With every answer good, a JS runtime is made. */
  lemma CreateJsSucceeds(w: World, o: Options)
    requires Inv(w, {})
    ensures CreateJs(w, o, JS_OK).1.Some?
  {
    hide Inv;
    AcquireJsKeeps(w, o, JS_OK);
    var (w1, j) := AcquireJs(w, o, JS_OK);
    LooseIsLive(w1, JsRuntime(j), {JsRuntime(j)});
  }

  lemma PreloadSucceeds(w: World)
    requires Inv(w, {})
    ensures Create(w, ETS_PRELOAD, JS_OK, ETS_OK).1.Some?
  {
    hide Inv, CreateJs;
    CreateJsSucceeds(w, ETS_PRELOAD.(lang := JS));
    CreateJsKeeps(w, ETS_PRELOAD.(lang := JS), JS_OK);
    var (w1, j) := CreateJs(w, ETS_PRELOAD.(lang := JS), JS_OK);
    PreloadInstanceSucceeds(w1, j.value);
  }

  lemma PreloadInstanceSucceeds(w: World, j: JsId)
    requires Inv(w, {})
    ensures CreateEts(w, Some(j), ETS_PRELOAD, ETS_OK, true).1.Some?
  {
  }

  lemma SaveFillsSlot(w: World, rt: Option<Runtime>)
    ensures SavePreloaded(w, rt).slot == rt
  {
  }

  /** Without a FinishPreload entry in the ETS library, preload, save and create fork an ETS runtime that never finished. */
  lemma MissingEntryForksUnfinished(table: Table) returns (ops: seq<Op>, e: EtsId)
    requires !TableOk(table)
    ensures DisciplinedRun(Start(table), ops)
    ensures e in Run(Start(table), ops).etsLog && !ForkAfterFinish(Run(Start(table), ops).etsLog[e])
    ensures |ops| == 3 && ops[2] == CreateOp(ETS_STAGE, JS_OK, ETS_OK)
    ensures var w := Run(Start(table), ops[..2]); SlotIsEts(w) && Create(w, ETS_STAGE, JS_OK, ETS_OK).1.Some?
  {
    hide Apply, Create, CreateJs, SavePreloaded, Inv, GoodHistory;
    var w := Start(table);
    RunKeeps(table, []);
    PreloadSucceeds(w);
    PreloadedEts(w, ETS_PRELOAD, JS_OK, ETS_OK);
    var (w1, saved) := Create(w, ETS_PRELOAD, JS_OK, ETS_OK);
    e := saved.value.ets;
    var w2 := SavePreloaded(w1, saved);
    CreateKeeps(w, ETS_PRELOAD, JS_OK, ETS_OK);
    SaveKeeps(w1, saved);
    CreateJsSucceeds(w2, ETS_STAGE.(lang := JS));
    PreloadSaveCreate(w, ETS_PRELOAD, JS_OK, ETS_OK, ETS_STAGE, JS_OK, ETS_OK);
    var a, b, c := CreateOp(ETS_PRELOAD, JS_OK, ETS_OK), SaveOp(saved), CreateOp(ETS_STAGE, JS_OK, ETS_OK);
    ops := [a, b, c];
    RunThree(w, a, b, c);
    ApplyIs(w, w1, w2);
    SaveFillsSlot(w1, saved);
    assert Run(w, ops[..2]) == w2;
    var log := Run(w, ops).etsLog[e];
    assert log == [EtsInit, EtsPostFork];
    assert log[1] == EtsPostFork;
  }

  lemma ApplyIs(w: World, w1: World, w2: World)
    requires w1 == Create(w, ETS_PRELOAD, JS_OK, ETS_OK).0
    ensures Apply(w, CreateOp(ETS_PRELOAD, JS_OK, ETS_OK)) == w1
    ensures forall rt: Runtime :: rt in w1.held ==> Apply(w1, SaveOp(Some(rt))) == SavePreloaded(w1, Some(rt))
    ensures Apply(w2, CreateOp(ETS_STAGE, JS_OK, ETS_OK)) == Create(w2, ETS_STAGE, JS_OK, ETS_OK).0
  {
    hide Create, SavePreloaded;
  }

  /**
    Of the calls that one ETS runtime makes, in every disciplined run, a fork follows one FinishPreload, if
    and only if a library that offers the fork offers the entry.
  */
  lemma EachRuntimeForksAfterFinishing(table: Table)
    ensures TableOk(table) <==>
      forall ops: seq<Op> :: DisciplinedRun(Start(table), ops) ==>
        forall e <- Run(Start(table), ops).etsLog :: ForkAfterFinish(Run(Start(table), ops).etsLog[e])
  {
    if TableOk(table) {
      forall ops: seq<Op> | DisciplinedRun(Start(table), ops)
        ensures forall e <- Run(Start(table), ops).etsLog :: ForkAfterFinish(Run(Start(table), ops).etsLog[e])
      {
        RunKeeps(table, ops);
        TableStays(table, ops);
        forall e | e in Run(Start(table), ops).etsLog ensures ForkAfterFinish(Run(Start(table), ops).etsLog[e]) {
          ScriptedEts(Run(Start(table), ops).etsLog[e]);
        }
      }
    } else {
      var ops, e := MissingEntryForksUnfinished(table);
    }
  }

  lemma CreateJsTable(w: World, o: Options, a: JsAnswers)
    ensures CreateJs(w, o, a).0.table == w.table
  {
    hide Initialize;
  }

  lemma CreateEtsTable(w: World, j: Option<JsId>, o: Options, a: EtsAnswers, isMove: bool)
    ensures CreateEts(w, j, o, a, isMove).0.table == w.table
  {
    hide PreForkEts, DestroyOption;
    if a.registered && j.Some? {
      var (w1, taken) := GetPreloaded(w, ETS);
      DestroyTable(w1, taken);
      PreForkTable(DestroyOption(w1, taken), j.value, o, a, isMove);
    }
  }

  lemma DestroyTable(w: World, rt: Option<Runtime>)
    ensures DestroyOption(w, rt).table == w.table
  {
  }

  lemma PreForkTable(w: World, j: JsId, o: Options, a: EtsAnswers, isMove: bool)
    ensures PreForkEts(w, j, o, a, isMove).0.table == w.table
  {
  }

  lemma CreateTable(w: World, o: Options, ja: JsAnswers, ea: EtsAnswers)
    ensures Create(w, o, ja, ea).0.table == w.table
  {
    hide CreateJs, CreateEts;
    CreateJsTable(w, o, ja);
    CreateJsTable(w, o.(lang := JS), ja);
    var (w1, j) := CreateJs(w, o.(lang := JS), ja);
    CreateEtsTable(w1, j, o, ea, true);
  }

  lemma SaveTable(w: World, rt: Option<Runtime>)
    ensures SavePreloaded(w, rt).table == w.table
  {
    hide DestroyOption;
    var w0 := if rt.Some? then w.(held := w.held - {rt.value}) else w;
    var w1 :=
      match rt
      case None => w0
      case Some(JsRuntime(j)) => JsFinishPreload(w0, j)
      case Some(EtsRuntime(e)) => EtsFinish(w0, e);
    DestroyTable(w1.(slot := None), w1.slot);
  }

  lemma {:induction false} TableStays(table: Table, ops: seq<Op>)
    ensures Run(Start(table), ops).table == table
  {
    hide Create, CreateEts, SavePreloaded;
    if ops != [] {
      TableStays(table, ops[..|ops| - 1]);
      var w := Run(Start(table), ops[..|ops| - 1]);
      match ops[|ops| - 1]
      case CreateOp(o, ja, ea) => CreateTable(w, o, ja, ea);
      case AttachOp(j, o, ea) => CreateEtsTable(w, Some(j), o, ea, false);
      case SaveOp(rt) => SaveTable(w, rt);
      case DropOp(rt) =>
    }
  }
}
