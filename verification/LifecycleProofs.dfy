/**
  Why the life cycle of the runtimes stays in order: each lemma moves one pointer or logs one step, and
  the operations are chains of such moves.
*/
module LifecycleProofs {
  import opened Wrappers
  import opened Lifecycle

  // ---------------------------------------------------------------------------------------------
  // Proofs, one pointer move at a time

  /**
    From a runtime `r` among the VMs `vms` to `r'` among `vms'`: other VMs are left alone, at most one VM
    is added and it is the one of `r'`, and a VM that is not kept is destroyed.
  */
  ghost predicate Evolves(r: Js, vms: Vms, r': Js, vms': Vms) {
    && (forall u <- vms.log :: u in vms'.log && (r.vm != Some(u) ==> vms'.log[u] == vms.log[u]))
    && (forall u <- vms'.log :: u < vms'.next && (u in vms.log || (vms.next <= u && r'.vm == Some(u))))
    && (r.vm.Some? && r'.vm != r.vm && r.vm.value in vms'.log ==>
          Scripted(vms'.log[r.vm.value]) && Closed(vms'.log[r.vm.value]))
    && (r'.vm.Some? ==> r'.vm.value in vms'.log && Open(vms'.log[r'.vm.value]))
    && (r'.vm.Some? && r'.vm != r.vm ==> vms.next <= r'.vm.value)
  }

  predicate LogIs(r: Js, vms: Vms, log: seq<VmEvent>) {
    r.vm.Some? && r.vm.value in vms.log && vms.log[r.vm.value] == log
  }

  /** After `FinishInitialize` on a live VM whose log is `log`. */
  lemma FinishInitializeLogs(r: Js, vms: Vms, o: Options, a: JsAnswers, log: seq<VmEvent>)
    requires LogIs(r, vms, log)
    requires if r.preloaded then log == SAVED + [PostFork] && !o.preload else log == [Created]
    ensures var (r', vms', ok) := FinishInitialize(r, vms, o, a);
            && r'.vm == r.vm && vms'.next == vms.next && vms'.log.Keys == vms.log.Keys
            && (forall u <- vms.log :: r.vm != Some(u) ==> vms'.log[u] == vms.log[u])
            && Open(vms'.log[r.vm.value])
            && (ok && o.preload ==> r'.preloaded && LogIs(r', vms', FRESH))
            && (ok && !o.preload ==> !r'.preloaded && (LogIs(r', vms', DIRECT) || LogIs(r', vms', FORKED)))
  {
    var log1 := if r.preloaded then log else log + [Console];
    var vms1 := if r.preloaded then vms else LogVm(vms, r.vm, Console);
    assert LogIs(r, vms1, log1);
    assert Open(log1);
    if !o.preload {
      var vms2 := LogVm(vms1, r.vm, Worker);
      assert LogIs(r, vms2, log1 + [Worker]);
      assert Open(log1 + [Worker]);
      assert LogIs(r, LogVm(vms2, r.vm, Loop), log1 + [Worker] + [Loop]);
      assert log1 + [Worker] + [Loop] == DIRECT || log1 + [Worker] + [Loop] == FORKED;
    }
  }

  /** `Initialize`, on a new runtime or on a saved one: where it leaves the runtime's VM. */
  lemma InitializeEvolves(r: Js, vms: Vms, o: Options, a: JsAnswers)
    requires forall u <- vms.log :: u < vms.next
    requires r == Js(false, None) || (r.preloaded && LogIs(r, vms, SAVED) && !o.preload && o.isStageModel)
    ensures var (r', vms', ok) := Initialize(r, vms, o, a);
            && Evolves(r, vms, r', vms')
            && (ok && o.preload ==> r'.preloaded && LogIs(r', vms', FRESH))
            && (ok && !o.preload ==> !r'.preloaded && (LogIs(r', vms', DIRECT) || LogIs(r', vms', FORKED)))
  {
    if r.preloaded && !a.pipelineChangedAtInit {
      FinishInitializeLogs(r, LogVm(vms, r.vm, PostFork), o, a, SAVED + [PostFork]);
    } else {
      var (r1, vms1) := CreateJsEnv(r, vms, a.envOk);
      if r.vm.Some? {
        assert (SAVED + [Destroyed])[..3] == SAVED;
      }
      if a.envOk { FinishInitializeLogs(r1, vms1, o, a, [Created]); }
    }
  }

  lemma OpenIsNotClosed(log: seq<VmEvent>)
    requires Open(log)
    ensures !Closed(log)
  {
  }

  /** A runtime that evolves among the VMs leaves the other runtimes as far as they were. */
  lemma EvolvedVms(js: JsTable, vms: Vms, j: JsId, r: Js, vms': Vms)
    requires j in js && VmsOk(js, vms.log) && Evolves(js[j], vms, r, vms')
    requires forall u <- vms.log :: u < vms.next
    ensures VmsOk(js[j := r], vms'.log)
  {
    var js', logs' := js[j := r], vms'.log;
    if r.vm.Some? { OpenIsNotClosed(logs'[r.vm.value]); }
    forall i | i in js' && js'[i].vm.Some? ensures js'[i].vm.value in logs' && !Closed(logs'[js'[i].vm.value]) {
      if i != j { assert js[i].vm != js[j].vm; }
    }
    forall i, k | i in js' && k in js' && i != k && js'[i].vm.Some? ensures js'[i].vm != js'[k].vm {
      if i != j && k != j { assert js[i].vm != js[k].vm; }
      assert i != j ==> js[i].vm.value < vms.next && js[i].vm != js[j].vm;
      assert k != j ==> js[k].vm != js[j].vm || js[j].vm.None?;
    }
    forall u | u in logs' ensures Scripted(logs'[u]) {
    }
    forall u | u in logs' && !Closed(logs'[u]) ensures exists i <- js' :: js'[i].vm == Some(u) {
      if r.vm == Some(u) {
        assert js'[j].vm == Some(u);
      } else {
        var i :| i in js && js[i].vm == Some(u);
        assert i != j && js'[i].vm == Some(u);
      }
    }
  }

  lemma EvolvedOthers(js: JsTable, vms: Vms, j: JsId, r: Js, vms': Vms, i: JsId, log: seq<VmEvent>)
    requires j in js && VmsOk(js, vms.log) && Evolves(js[j], vms, r, vms')
    requires i != j && HasLog(js, vms.log, i, log)
    ensures HasLog(js[j := r], vms'.log, i, log)
  {
    assert js[i].vm != js[j].vm;
  }

  /** From `w` to `w'` nothing changed but the JS runtime `j` and its VMs. */
  ghost predicate OnlyJs(w: World, w': World, j: JsId) {
    && w' == w.(js := w'.js, vms := w'.vms, nextJs := w'.nextJs)
    && w'.js - {j} == w.js - {j}
    && (forall i: JsId, l: seq<VmEvent> :: i != j && HasLog(w.js, w.vms.log, i, l) ==> HasLog(w'.js, w'.vms.log, i, l))
  }

  lemma OtherJs(w: World, w': World, j: JsId, i: JsId)
    requires OnlyJs(w, w', j) && i != j
    ensures i in w.js <==> i in w'.js
    ensures i in w.js ==> w.js[i] == w'.js[i]
  {
    assert i in w.js <==> i in w.js - {j};
    assert i in w'.js <==> i in w'.js - {j};
    assert i in w.js ==> w.js[i] == (w.js - {j})[i];
    assert i in w'.js ==> w'.js[i] == (w'.js - {j})[i];
  }

  lemma FrameOwners(w: World, w': World, j: JsId, loose: set<Runtime>)
    requires OwnersOk(w, loose) && OnlyJs(w, w', j) && JsRuntime(j) in loose
    ensures OwnersOk(w', if j in w'.js then loose else loose - {JsRuntime(j)})
  {
    var loose' := if j in w'.js then loose else loose - {JsRuntime(j)};
    forall i: JsId | i != j ensures i in w.js <==> i in w'.js { OtherJs(w, w', j, i); }
    assert forall rt <- loose' :: rt in loose && (rt == JsRuntime(j) ==> j in w'.js);
    forall i | i in w'.js ensures OwnedJs(w', loose', i) || exists e: EtsId :: EtsOwns(w'.ets, e, i) {
      assert i in w.js;
      if !OwnedJs(w', loose', i) { assert !OwnedJs(w, loose, i); }
    }
    forall e: EtsId, i: JsId | EtsOwns(w'.ets, e, i) ensures i in w'.js && !OwnedJs(w', loose', i) {
      assert EtsOwns(w.ets, e, i);
    }
  }

  lemma FramePhases(w: World, w': World, j: JsId, loose: set<Runtime>)
    requires OwnersOk(w, loose) && PhasesOk(w) && OnlyJs(w, w', j) && JsRuntime(j) in loose
    ensures PhasesOk(w')
  {
    forall i: JsId | i != j
      ensures IsFresh(w.js, w.vms.log, i) ==> IsFresh(w'.js, w'.vms.log, i)
      ensures IsSaved(w.js, w.vms.log, i) ==> IsSaved(w'.js, w'.vms.log, i)
      ensures IsReady(w.js, w.vms.log, i) ==> IsReady(w'.js, w'.vms.log, i)
    { OtherJs(w, w', j, i); }
    assert forall e: EtsId :: !EtsOwns(w.ets, e, j) by {
      assert OwnedJs(w, loose, j);
    }
  }

  lemma FrameOwned(w: World, w': World, j: JsId, loose: set<Runtime>)
    requires OwnersOk(w, loose) && OwnedPhasesOk(w.ets, w.js, w.vms.log) && OnlyJs(w, w', j) && JsRuntime(j) in loose
    ensures OwnedPhasesOk(w'.ets, w'.js, w'.vms.log)
  {
    forall e: EtsId, i: JsId | EtsOwns(w'.ets, e, i) ensures InPhase(w'.js, w'.vms.log, i) {
      assert EtsOwns(w.ets, e, i);
      assert i != j by { assert OwnedJs(w, loose, j); }
      OtherJs(w, w', j, i);
    }
  }

  /** A change to one loose JS runtime that keeps the VMs in order keeps everything. */
  lemma LooseJsChange(w: World, w': World, j: JsId, loose: set<Runtime>)
    requires Inv(w, loose) && OnlyJs(w, w', j) && JsRuntime(j) in loose
    requires VmsOk(w'.js, w'.vms.log) && IdsOk(w')
    ensures Inv(w', if j in w'.js then loose else loose - {JsRuntime(j)})
  {
    FrameOwners(w, w', j, loose);
    FramePhases(w, w', j, loose);
    FrameOwned(w, w', j, loose);
  }

  lemma EvolveLoose(w: World, j: JsId, r: Js, vms: Vms, loose: set<Runtime>)
    requires Inv(w, loose) && JsRuntime(j) in loose && Evolves(w.js[j], w.vms, r, vms)
    ensures Inv(w.(js := w.js[j := r], vms := vms), loose)
  {
    var w' := w.(js := w.js[j := r], vms := vms);
    EvolvedVms(w.js, w.vms, j, r, vms);
    forall i: JsId, l: seq<VmEvent> | i != j && HasLog(w.js, w.vms.log, i, l) ensures HasLog(w'.js, w'.vms.log, i, l) {
      EvolvedOthers(w.js, w.vms, j, r, vms, i, l);
    }
    assert w'.js - {j} == w.js - {j};
    LooseJsChange(w, w', j, loose);
  }

  lemma DestroyEvolves(r: Js, vms: Vms)
    requires forall u <- vms.log :: u < vms.next
    requires r.vm.Some? && r.vm.value in vms.log ==> Scripted(vms.log[r.vm.value]) && !Closed(vms.log[r.vm.value])
    ensures Evolves(r, vms, Js(false, None), LogVm(vms, r.vm, Destroyed))
  {
    if r.vm.Some? && r.vm.value in vms.log {
      var log := vms.log[r.vm.value];
      assert (log + [Destroyed])[..|log|] == log;
    }
  }

  lemma RemoveBare(js: JsTable, logs: VmLogs, j: JsId)
    requires VmsOk(js, logs) && IsNew(js, j)
    ensures VmsOk(js - {j}, logs)
    ensures forall i: JsId, l: seq<VmEvent> :: i != j && HasLog(js, logs, i, l) ==> HasLog(js - {j}, logs, i, l)
  {
    var js' := js - {j};
    forall u | u in logs && !Closed(logs[u]) ensures exists i <- js' :: js'[i].vm == Some(u) {
      var i :| i in js && js[i].vm == Some(u);
      assert i in js' && js'[i].vm == Some(u);
    }
  }

  lemma DropBare(w: World, j: JsId, loose: set<Runtime>)
    requires Inv(w, loose) && JsRuntime(j) in loose && IsNew(w.js, j)
    ensures Inv(w.(js := w.js - {j}), loose - {JsRuntime(j)})
  {
    RemoveBare(w.js, w.vms.log, j);
    LooseJsChange(w, w.(js := w.js - {j}), j, loose);
  }

  lemma DestroyLooseJs(w: World, j: JsId, loose: set<Runtime>)
    requires Inv(w, loose) && JsRuntime(j) in loose
    ensures Inv(DestroyJs(w, j), loose - {JsRuntime(j)})
  {
    var w1 := w.(js := w.js[j := Js(false, None)], vms := LogVm(w.vms, w.js[j].vm, Destroyed));
    DestroyEvolves(w.js[j], w.vms);
    EvolveLoose(w, j, Js(false, None), w1.vms, loose);
    DropBare(w1, j, loose);
    assert w1.js - {j} == w.js - {j};
  }

  // Moves of one pointer

  lemma TakeSlot(w: World, loose: set<Runtime>)
    requires Inv(w, loose) && w.slot.Some?
    ensures Inv(w.(slot := None), loose + {w.slot.value})
  {
    var w', loose' := w.(slot := None), loose + {w.slot.value};
    assert forall j: JsId :: OwnedJs(w', loose', j) == OwnedJs(w, loose, j);
  }

  lemma TakeHeld(w: World, rt: Runtime, loose: set<Runtime>)
    requires Inv(w, loose) && rt in w.held
    ensures Inv(w.(held := w.held - {rt}), loose + {rt})
  {
    var w', loose' := w.(held := w.held - {rt}), loose + {rt};
    assert forall j: JsId :: OwnedJs(w', loose', j) == OwnedJs(w, loose, j);
  }

  lemma PutHeldOwners(w: World, rt: Runtime, made: set<Runtime>, loose: set<Runtime>)
    requires OwnersOk(w, loose) && rt in loose
    ensures OwnersOk(w.(held := w.held + {rt}, preloadMade := made), loose - {rt})
  {
    var w', loose' := w.(held := w.held + {rt}, preloadMade := made), loose - {rt};
    assert forall j: JsId :: OwnedJs(w', loose', j) == OwnedJs(w, loose, j);
  }

  /** The new owner of a loose runtime is the running code. */
  lemma PutHeld(w: World, rt: Runtime, made: set<Runtime>, loose: set<Runtime>)
    requires Inv(w, loose) && rt in loose && made - {rt} == w.preloadMade - {rt}
    requires match rt
      case JsRuntime(j) =>
        if rt in made then IsFresh(w.js, w.vms.log, j) else IsFresh(w.js, w.vms.log, j) || IsReady(w.js, w.vms.log, j)
      case EtsRuntime(e) => rt in made ==>
        && (forall j: JsId :: EtsOwns(w.ets, e, j) ==> IsFresh(w.js, w.vms.log, j))
        && (TableOk(w.table) ==> w.etsLog[e] == [EtsInit])
    ensures Inv(w.(held := w.held + {rt}, preloadMade := made), loose - {rt})
  {
    hide OwnersOk, VmsOk, OwnedPhasesOk, IsFresh, IsSaved, IsReady;
    PutHeldOwners(w, rt, made, loose);
    LooseIsLive(w, rt, loose);
    assert forall r :: r != rt ==> (r in made <==> r in made - {rt});
    assert forall r :: r != rt ==> (r in w.preloadMade <==> r in w.preloadMade - {rt});
  }

  lemma PutSlot(w: World, rt: Runtime, loose: set<Runtime>)
    requires Inv(w, loose) && rt in loose && w.slot.None?
    requires match rt
      case JsRuntime(j) => IsSaved(w.js, w.vms.log, j)
      case EtsRuntime(e) =>
        && (forall j: JsId :: EtsOwns(w.ets, e, j) ==> IsSaved(w.js, w.vms.log, j))
        && (TableOk(w.table) ==>
              w.etsLog[e] == if w.table.finishPreload then [EtsInit, EtsFinishPreload] else [EtsInit])
    ensures Inv(w.(slot := Some(rt)), loose - {rt})
  {
    var w', loose' := w.(slot := Some(rt)), loose - {rt};
    assert forall j: JsId :: OwnedJs(w', loose', j) == OwnedJs(w, loose, j);
  }

  /** Phases do not suffer when ETS runtimes own less. */
  lemma OwningLess(w: World, w': World)
    requires PhasesOk(w) && OwnedPhasesOk(w.ets, w.js, w.vms.log)
    requires w'.held == w.held && w'.preloadMade == w.preloadMade && w'.slot == w.slot
    requires w'.js == w.js && w'.vms == w.vms
    requires forall f: EtsId, i: JsId :: EtsOwns(w'.ets, f, i) ==> EtsOwns(w.ets, f, i)
    ensures PhasesOk(w') && OwnedPhasesOk(w'.ets, w'.js, w'.vms.log)
  {
    hide IsFresh, IsSaved, IsReady, InPhase, EtsOwns;
  }

  /** A loose ETS runtime may own whatever is in some phase. */
  lemma OwningMore(w: World, e: EtsId, j: JsId)
    requires PhasesOk(w) && OwnedPhasesOk(w.ets, w.js, w.vms.log) && InPhase(w.js, w.vms.log, j)
    requires EtsRuntime(e) !in w.held && w.slot != Some(EtsRuntime(e))
    ensures var w' := w.(ets := w.ets[e := Ets(Some(j))]); PhasesOk(w') && OwnedPhasesOk(w'.ets, w'.js, w'.vms.log)
  {
    var w' := w.(ets := w.ets[e := Ets(Some(j))]);
    assert forall f: EtsId, i: JsId :: EtsOwns(w'.ets, f, i) ==> (f == e && i == j) || EtsOwns(w.ets, f, i);
    hide IsFresh, IsSaved, IsReady, InPhase, EtsOwns;
  }

  lemma TakeEtsJsOwners(w: World, e: EtsId, j: JsId, loose: set<Runtime>)
    requires OwnersOk(w, loose) && EtsOwns(w.ets, e, j)
    ensures OwnersOk(w.(ets := w.ets[e := Ets(None)]), loose + {JsRuntime(j)})
  {
    var w', loose' := w.(ets := w.ets[e := Ets(None)]), loose + {JsRuntime(j)};
    assert forall f: EtsId, i: JsId :: EtsOwns(w'.ets, f, i) <==> f != e && EtsOwns(w.ets, f, i);
    assert forall i: JsId :: OwnedJs(w', loose', i) == (i == j || OwnedJs(w, loose, i));
  }

  lemma TakeEtsJs(w: World, e: EtsId, j: JsId, loose: set<Runtime>)
    requires Inv(w, loose) && EtsOwns(w.ets, e, j)
    ensures Inv(w.(ets := w.ets[e := Ets(None)]), loose + {JsRuntime(j)})
  {
    hide OwnersOk, VmsOk, PhasesOk, OwnedPhasesOk;
    TakeEtsJsOwners(w, e, j, loose);
    OwningLess(w, w.(ets := w.ets[e := Ets(None)]));
  }

  lemma PutEtsJsOwners(w: World, e: EtsId, j: JsId, loose: set<Runtime>)
    requires OwnersOk(w, loose) && EtsRuntime(e) in loose && JsRuntime(j) in loose && w.ets[e].js.None?
    ensures OwnersOk(w.(ets := w.ets[e := Ets(Some(j))]), loose - {JsRuntime(j)})
  {
    var w', loose' := w.(ets := w.ets[e := Ets(Some(j))]), loose - {JsRuntime(j)};
    assert forall f: EtsId, i: JsId :: EtsOwns(w'.ets, f, i) <==> (f == e && i == j) || EtsOwns(w.ets, f, i);
    assert OwnedJs(w, loose, j) && EtsOwns(w'.ets, e, j);
    assert forall i: JsId :: OwnedJs(w', loose', i) == (i != j && OwnedJs(w, loose, i));
  }

  lemma PutEtsJs(w: World, e: EtsId, j: JsId, loose: set<Runtime>)
    requires Inv(w, loose) && EtsRuntime(e) in loose && JsRuntime(j) in loose && w.ets[e].js.None?
    requires InPhase(w.js, w.vms.log, j)
    ensures Inv(w.(ets := w.ets[e := Ets(Some(j))]), loose - {JsRuntime(j)})
  {
    hide OwnersOk, VmsOk, PhasesOk, OwnedPhasesOk;
    LooseIsLive(w, EtsRuntime(e), loose);
    PutEtsJsOwners(w, e, j, loose);
    OwningMore(w, e, j);
  }

  lemma AddBare(js: JsTable, logs: VmLogs, j: JsId)
    requires VmsOk(js, logs) && j !in js
    ensures VmsOk(js[j := Js(false, None)], logs)
    ensures forall i: JsId, l: seq<VmEvent> :: HasLog(js, logs, i, l) ==> HasLog(js[j := Js(false, None)], logs, i, l)
  {
    var js' := js[j := Js(false, None)];
    forall u | u in logs && !Closed(logs[u]) ensures exists i <- js' :: js'[i].vm == Some(u) {
      var i :| i in js && js[i].vm == Some(u);
      assert js'[i].vm == Some(u);
    }
  }

  lemma AddJsOwner(w: World, j: JsId, r: Js, loose: set<Runtime>)
    requires OwnersOk(w, loose) && j !in w.js
    ensures OwnersOk(w.(js := w.js[j := r], nextJs := w.nextJs + 1), loose + {JsRuntime(j)})
    ensures JsRuntime(j) !in loose
  {
    var w', loose' := w.(js := w.js[j := r], nextJs := w.nextJs + 1), loose + {JsRuntime(j)};
    assert !Live(w, JsRuntime(j));
    assert forall i: JsId :: OwnedJs(w', loose', i) == (i == j || OwnedJs(w, loose, i));
  }

  lemma AddLooseJs(w: World, loose: set<Runtime>)
    requires Inv(w, loose)
    ensures var (w', j) := NewJs(w);
            Inv(w', loose + {JsRuntime(j)}) && IsNew(w'.js, j) && JsRuntime(j) !in loose
  {
    hide OwnersOk, VmsOk, PhasesOk, OwnedPhasesOk, EtsLogsOk;
    var j := w.nextJs;
    AddBare(w.js, w.vms.log, j);
    AddJsOwner(w, j, Js(false, None), loose);
    AddedPhases(w);
    if TableOk(w.table) {
      NewJsLogs(w);
    }
  }

  lemma NewJsLogs(w: World)
    requires EtsLogsOk(w)
    ensures EtsLogsOk(NewJs(w).0)
  {
  }

  lemma AddedPhases(w: World)
    requires PhasesOk(w) && OwnedPhasesOk(w.ets, w.js, w.vms.log) && w.nextJs !in w.js
    ensures var w' := NewJs(w).0; PhasesOk(w') && OwnedPhasesOk(w'.ets, w'.js, w'.vms.log)
  {
    var w' := NewJs(w).0;
    forall i: JsId
      ensures IsFresh(w.js, w.vms.log, i) ==> IsFresh(w'.js, w'.vms.log, i)
      ensures IsSaved(w.js, w.vms.log, i) ==> IsSaved(w'.js, w'.vms.log, i)
      ensures IsReady(w.js, w.vms.log, i) ==> IsReady(w'.js, w'.vms.log, i)
    {}
    hide IsFresh, IsSaved, IsReady, EtsOwns;
  }

  lemma AddEtsOwner(w: World, loose: set<Runtime>)
    requires OwnersOk(w, loose) && w.nextEts !in w.ets
    ensures OwnersOk(NewEts(w), loose + {EtsRuntime(w.nextEts)}) && EtsRuntime(w.nextEts) !in loose
    ensures w.slot != Some(EtsRuntime(w.nextEts))
  {
    var w', loose' := NewEts(w), loose + {EtsRuntime(w.nextEts)};
    assert !Live(w, EtsRuntime(w.nextEts));
    assert forall f: EtsId, j: JsId :: EtsOwns(w'.ets, f, j) <==> EtsOwns(w.ets, f, j);
    assert forall i: JsId :: OwnedJs(w', loose', i) == OwnedJs(w, loose, i);
  }

  lemma AddLooseEts(w: World, loose: set<Runtime>)
    requires Inv(w, loose)
    ensures Inv(NewEts(w), loose + {EtsRuntime(w.nextEts)}) && EtsRuntime(w.nextEts) !in loose
  {
    hide OwnersOk, VmsOk, PhasesOk, OwnedPhasesOk, EtsLogsOk;
    AddEtsOwner(w, loose);
    OwningLess(w, NewEts(w));
    NewEtsLog(w);
  }

  lemma NewEtsLog(w: World)
    requires IdsOk(w) && (TableOk(w.table) ==> EtsLogsOk(w)) && w.slot != Some(EtsRuntime(w.nextEts))
    ensures TableOk(w.table) ==> EtsLogsOk(NewEts(w))
  {
  }

  /** One more event in the log of a loose ETS runtime. */
  lemma LogLooseEts(w: World, e: EtsId, ev: EtsEvent, loose: set<Runtime>)
    requires Inv(w, loose) && EtsRuntime(e) in loose
    requires TableOk(w.table) ==> w.etsLog[e] + [ev] <= ETS_SCRIPT
    ensures Inv(LogEts(w, e, ev), loose)
  {
    var w' := LogEts(w, e, ev);
    assert forall j: JsId :: OwnedJs(w', loose, j) == OwnedJs(w, loose, j);
  }

  lemma DropBareEts(w: World, e: EtsId, loose: set<Runtime>)
    requires Inv(w, loose) && EtsRuntime(e) in loose && w.ets[e].js.None?
    ensures Inv(w.(ets := w.ets - {e}), loose - {EtsRuntime(e)})
  {
    var w', loose' := w.(ets := w.ets - {e}), loose - {EtsRuntime(e)};
    assert forall f: EtsId, j: JsId :: EtsOwns(w'.ets, f, j) <==> EtsOwns(w.ets, f, j);
    assert forall i: JsId :: OwnedJs(w', loose', i) == OwnedJs(w, loose, i);
  }

  lemma DestroyLooseEts(w: World, e: EtsId, loose: set<Runtime>)
    requires Inv(w, loose) && EtsRuntime(e) in loose
    ensures Inv(DestroyEts(w, e), loose - {EtsRuntime(e)})
  {
    hide PhasesOk, VmsOk, IdsOk, EtsLogsOk;
    if w.ets[e].js.Some? {
      var j := w.ets[e].js.value;
      TakeEtsJs(w, e, j, loose);
      var w1 := w.(ets := w.ets[e := Ets(None)]);
      assert !OwnedJs(w, loose, j) by { assert EtsOwns(w.ets, e, j); }
      DestroyLooseJs(w1, j, loose + {JsRuntime(j)});
      var w2 := DestroyJs(w1, j);
      assert loose + {JsRuntime(j)} - {JsRuntime(j)} == loose;
      DropBareEts(w2, e, loose);
      assert w2.ets - {e} == w.ets - {e};
    } else {
      DropBareEts(w, e, loose);
    }
  }

  lemma DestroyLoose(w: World, rt: Runtime, loose: set<Runtime>)
    requires Inv(w, loose) && rt in loose
    ensures Inv(Destroy(w, rt), loose - {rt})
  {
    match rt
    case JsRuntime(j) => DestroyLooseJs(w, j, loose);
    case EtsRuntime(e) => DestroyLooseEts(w, e, loose);
  }

  // ---------------------------------------------------------------------------------------------
  // The operations

  lemma DestroyOptionKeeps(w: World, rt: Option<Runtime>, loose: set<Runtime>)
    requires if rt.Some? then rt.value !in loose && Inv(w, loose + {rt.value}) else Inv(w, loose)
    ensures Inv(DestroyOption(w, rt), loose)
  {
    if rt.Some? {
      DestroyLoose(w, rt.value, loose + {rt.value});
      assert loose + {rt.value} - {rt.value} == loose;
    }
  }

  /** Taking the JS runtime out of the slot, directly or from the saved ETS runtime. */
  lemma GetPreloadedJs(w: World)
    requires Inv(w, {})
    ensures var (w', taken) := GetPreloaded(w, JS);
            match taken
            case None => Inv(w', {})
            case Some(EtsRuntime(_)) => false
            case Some(JsRuntime(j)) => Inv(w', {JsRuntime(j)}) && IsSaved(w'.js, w'.vms.log, j)
  {
    hide VmsOk, IdsOk, OwnedPhasesOk, EtsLogsOk, IsSaved;
    if w.slot.Some? {
      match w.slot.value
      case JsRuntime(j) =>
        TakeSlot(w, {});
        assert {} + {w.slot.value} == {JsRuntime(j)};
      case EtsRuntime(e) =>
        if w.ets[e].js.Some? {
          var j := w.ets[e].js.value;
          assert EtsOwns(w.ets, e, j);
          TakeEtsJs(w, e, j, {});
          assert {} + {JsRuntime(j)} == {JsRuntime(j)};
        }
    }
  }

  lemma AcquireJsKeeps(w: World, o: Options, a: JsAnswers)
    requires Inv(w, {})
    ensures var (w', j) := AcquireJs(w, o, a);
            Inv(w', {JsRuntime(j)})
            && (IsNew(w'.js, j) || (IsSaved(w'.js, w'.vms.log, j) && !o.preload && o.isStageModel))
  {
    hide Inv;
    if !o.preload && o.isStageModel {
      GetPreloadedJs(w);
      var (w1, taken) := GetPreloaded(w, JS);
      if taken.None? || a.pipelineChangedAtCreate {
        if taken.Some? { assert {} + {taken.value} == {taken.value}; }
        DestroyOptionKeeps(w1, taken, {});
        var w2 := DestroyOption(w1, taken);
        AddLooseJs(w2, {});
        assert {} + {JsRuntime(w2.nextJs)} == {JsRuntime(w2.nextJs)};
      }
    } else {
      AddLooseJs(w, {});
      assert {} + {JsRuntime(w.nextJs)} == {JsRuntime(w.nextJs)};
    }
  }

  lemma LooseIsLive(w: World, rt: Runtime, loose: set<Runtime>)
    requires Inv(w, loose) && rt in loose
    ensures Live(w, rt)
    ensures rt.EtsRuntime? ==> rt.ets in w.etsLog
    ensures rt !in w.held && w.slot != Some(rt)
    ensures forall u <- w.vms.log :: u < w.vms.next
  {
  }

  lemma CreateJsKeeps(w: World, o: Options, a: JsAnswers)
    requires Inv(w, {})
    ensures var (w', j) := CreateJs(w, o, a);
            Inv(w', {}) && (j.Some? ==> JsRuntime(j.value) in w'.held && (JsRuntime(j.value) in w'.preloadMade <==> o.preload))
  {
    hide Inv, Evolves, Initialize;
    AcquireJsKeeps(w, o, a);
    var (w1, j) := AcquireJs(w, o, a);
    LooseIsLive(w1, JsRuntime(j), {JsRuntime(j)});
    InitializeEvolves(w1.js[j], w1.vms, o, a);
    var (r, vms, ok) := Initialize(w1.js[j], w1.vms, o, a);
    EvolveLoose(w1, j, r, vms, {JsRuntime(j)});
    var w2 := w1.(js := w1.js[j := r], vms := vms);
    assert {JsRuntime(j)} - {JsRuntime(j)} == {};
    if !ok {
      DestroyLooseJs(w2, j, {JsRuntime(j)});
    } else {
      var made := if o.preload then w2.preloadMade + {JsRuntime(j)} else w2.preloadMade - {JsRuntime(j)};
      PutHeld(w2, JsRuntime(j), made, {JsRuntime(j)});
    }
  }

  lemma HeldPhase(w: World, j: JsId, loose: set<Runtime>)
    requires Inv(w, loose) && JsRuntime(j) in w.held
    ensures j in w.js && JsRuntime(j) !in loose
    ensures JsRuntime(j) in w.preloadMade ==> IsFresh(w.js, w.vms.log, j)
    ensures InPhase(w.js, w.vms.log, j)
  {
  }

  /** What an ETS runtime that nobody else owns may own. */
  ghost predicate OwnsOnlyFresh(w: World, e: EtsId) {
    forall j: JsId :: EtsOwns(w.ets, e, j) ==> IsFresh(w.js, w.vms.log, j)
  }

  /** Emptying the JS field of a loose ETS runtime. */
  lemma ClearEtsJs(w: World, e: EtsId, loose: set<Runtime>)
    requires Inv(w, loose) && EtsRuntime(e) in loose
    ensures e in w.ets
    ensures Inv(DestroyJsOption(w, w.ets[e].js).(ets := w.ets[e := Ets(None)]), loose)
  {
    hide PhasesOk, VmsOk, IdsOk, EtsLogsOk;
    if w.ets[e].js.Some? {
      var j := w.ets[e].js.value;
      assert EtsOwns(w.ets, e, j) && !OwnedJs(w, loose, j);
      TakeEtsJs(w, e, j, loose);
      DestroyLooseJs(w.(ets := w.ets[e := Ets(None)]), j, loose + {JsRuntime(j)});
      assert loose + {JsRuntime(j)} - {JsRuntime(j)} == loose;
    } else {
      assert w.ets[e := Ets(None)] == w.ets;
    }
  }

  lemma MoveWhenKeeps(w: World, e: EtsId, j: JsId, isMove: bool, loose: set<Runtime>)
    requires Inv(w, loose) && EtsRuntime(e) in loose
    ensures e in w.ets
    ensures var w' := MoveWhen(w, e, j, isMove);
            && Inv(w', loose) && w'.etsLog == w.etsLog && w'.preloadMade == w.preloadMade
            && w'.table == w.table && w'.slot == w.slot
            && (isMove && JsRuntime(j) in w.held ==> w'.ets[e].js == Some(j))
            && (isMove && JsRuntime(j) in w.held && JsRuntime(j) in w.preloadMade ==> IsFresh(w'.js, w'.vms.log, j))
            && (!isMove ==> w' == w)
  {
    hide Inv;
    LooseIsLive(w, EtsRuntime(e), loose);
    if isMove && JsRuntime(j) in w.held {
      ClearEtsJs(w, e, loose);
      var w1 := DestroyJsOption(w, w.ets[e].js).(ets := w.ets[e := Ets(None)]);
      HeldPhase(w1, j, loose);
      TakeHeld(w1, JsRuntime(j), loose);
      var w2 := w1.(held := w1.held - {JsRuntime(j)});
      PutEtsJs(w2, e, j, loose + {JsRuntime(j)});
      assert loose + {JsRuntime(j)} - {JsRuntime(j)} == loose;
      assert w2.ets[e := Ets(Some(j))] == w.ets[e := Ets(Some(j))];
    }
  }

  lemma PreForkEtsKeeps(w: World, j: JsId, o: Options, a: EtsAnswers, isMove: bool)
    requires Inv(w, {}) && JsRuntime(j) in w.held
    requires isMove && o.preload ==> JsRuntime(j) in w.preloadMade
    ensures var (w', instance) := PreForkEts(w, j, o, a, isMove);
            match instance
            case None => Inv(w', {})
            case Some(e) => && Inv(w', {EtsRuntime(e)}) && w'.table == w.table && w'.slot == w.slot && e in w'.etsLog
                            && w'.etsLog[e] == (if o.preload then [EtsInit] else [EtsInit, EtsFinishPreload])
                            && (o.preload ==> OwnsOnlyFresh(w', e))
  {
    hide Inv;
    var e := w.nextEts;
    var loose := {EtsRuntime(e)};
    AddLooseEts(w, {});
    assert {} + loose == loose && loose - loose == {};
    var w1 := NewEts(w);
    if o.lang != ETS {
      DestroyLooseEts(w1, e, loose);
    } else {
      MoveWhenKeeps(w1, e, j, isMove, loose);
      var w2 := MoveWhen(w1, e, j, isMove);
      LooseIsLive(w2, EtsRuntime(e), loose);
      if !a.envOk {
        DestroyLooseEts(w2, e, loose);
      } else {
        LogLooseEts(w2, e, EtsInit, loose);
        var w3 := LogEts(w2, e, EtsInit);
        if !a.aniOk || (!o.preload && !w.table.finishPreload) {
          DestroyLooseEts(w3, e, loose);
        } else if !o.preload {
          LogLooseEts(w3, e, EtsFinishPreload, loose);
        }
      }
    }
  }

  lemma GetPreloadedEts(w: World)
    requires Inv(w, {})
    ensures var (w', taken) := GetPreloaded(w, ETS);
            match taken
            case None => Inv(w', {}) && w' == w
            case Some(rt) => && Inv(w', {rt}) && w' == w.(slot := None) && taken == w.slot
                             && (rt.EtsRuntime? && w.table.postFork && TableOk(w.table) && rt.ets in w.etsLog ==>
                                   w.etsLog[rt.ets] == [EtsInit, EtsFinishPreload])
  {
    if w.slot.Some? {
      TakeSlot(w, {});
      assert {} + {w.slot.value} == {w.slot.value};
    }
  }

  lemma PostForkEtsKeeps(w: World, e: EtsId, j: JsId, isMove: bool)
    requires Inv(w, {EtsRuntime(e)})
    requires TableOk(w.table) && w.table.postFork && e in w.etsLog ==> w.etsLog[e] == [EtsInit, EtsFinishPreload]
    ensures e in w.ets && Inv(PostForkEts(w, e, j, isMove), {EtsRuntime(e)})
  {
    hide Inv;
    LooseIsLive(w, EtsRuntime(e), {EtsRuntime(e)});
    if w.table.postFork {
      MoveWhenKeeps(w, e, j, isMove, {EtsRuntime(e)});
      var w1 := MoveWhen(w, e, j, isMove);
      LooseIsLive(w1, EtsRuntime(e), {EtsRuntime(e)});
      LogLooseEts(w1, e, EtsPostFork, {EtsRuntime(e)});
    }
  }

  lemma AcquireEtsKeeps(w: World, j: JsId, o: Options, a: EtsAnswers, isMove: bool)
    requires Inv(w, {}) && JsRuntime(j) in w.held
    requires isMove && o.preload ==> JsRuntime(j) in w.preloadMade
    requires o.preload ==> !SlotIsEts(w)
    ensures var (w', instance) := AcquireEts(w, j, o, a, isMove);
            match instance
            case None => Inv(w', {})
            case Some(e) => && Inv(w', {EtsRuntime(e)})
                            && (o.preload ==> OwnsOnlyFresh(w', e) && e in w'.etsLog && w'.etsLog[e] == [EtsInit])
                            && (!o.preload && TableOk(w'.table) && w'.table.postFork && e in w'.etsLog ==>
                                  w'.etsLog[e] == [EtsInit, EtsFinishPreload])
  {
    hide Inv, OwnsOnlyFresh;
    GetPreloadedEts(w);
    var (w1, taken) := GetPreloaded(w, ETS);
    if !(taken.Some? && !a.pipelineChanged && taken.value.EtsRuntime?) {
      if taken.Some? { assert {} + {taken.value} == {taken.value}; }
      DestroyOptionKeeps(w1, taken, {});
      PreForkEtsKeeps(DestroyOption(w1, taken), j, o, a, isMove);
    }
  }

  lemma CreateEtsKeeps(w: World, j: JsId, o: Options, a: EtsAnswers, isMove: bool)
    requires Inv(w, {}) && JsRuntime(j) in w.held
    requires isMove && o.preload ==> JsRuntime(j) in w.preloadMade
    requires o.preload ==> !SlotIsEts(w)
    ensures Inv(CreateEts(w, Some(j), o, a, isMove).0, {})
  {
    hide Inv, AcquireEts, PostForkEts;
    if a.registered {
      AcquireEtsKeeps(w, j, o, a, isMove);
      var (w2, instance) := AcquireEts(w, j, o, a, isMove);
      if instance.Some? {
        var e := instance.value;
        var loose := {EtsRuntime(e)};
        LooseIsLive(w2, EtsRuntime(e), loose);
        var w3 := w2;
        if !o.preload {
          PostForkEtsKeeps(w2, e, j, isMove);
          w3 := PostForkEts(w2, e, j, isMove);
        }
        var made := if o.preload then w3.preloadMade + {EtsRuntime(e)} else w3.preloadMade - {EtsRuntime(e)};
        PutHeld(w3, EtsRuntime(e), made, loose);
        assert loose - {EtsRuntime(e)} == {};
      }
    }
  }

  lemma DropHeld(w: World, rt: Runtime)
    requires Inv(w, {}) && rt in w.held
    ensures Inv(Destroy(w, rt).(held := w.held - {rt}), {})
  {
    hide Inv;
    TakeHeld(w, rt, {});
    assert {} + {rt} == {rt} && {rt} - {rt} == {};
    DestroyLoose(w.(held := w.held - {rt}), rt, {rt});
  }

  lemma PreloadCreateJsKeepsSlot(w: World, o: Options, a: JsAnswers)
    requires o.preload
    ensures CreateJs(w, o, a).0.slot == w.slot
  {
  }

  lemma CreateKeeps(w: World, o: Options, ja: JsAnswers, ea: EtsAnswers)
    requires Inv(w, {})
    requires o.preload && o.lang == ETS ==> !SlotIsEts(w)
    ensures Inv(Create(w, o, ja, ea).0, {})
  {
    hide Inv, CreateJs, CreateEts;
    match o.lang
    case JS => CreateJsKeeps(w, o, ja);
    case ETS =>
      var jo := o.(lang := JS);
      CreateJsKeeps(w, jo, ja);
      if o.preload { PreloadCreateJsKeepsSlot(w, jo, ja); }
      var (w1, j) := CreateJs(w, jo, ja);
      if j.Some? {
        CreateEtsKeeps(w1, j.value, o, ea, true);
      } else {
        assert CreateEts(w1, j, o, ea, true) == (w1, None) by { NoJsNoEts(w1, o, ea); }
      }
      var w2 := CreateEts(w1, j, o, ea, true).0;
      if j.Some? && JsRuntime(j.value) in w2.held { DropHeld(w2, JsRuntime(j.value)); }
    case Unknown =>
  }

  lemma NoJsNoEts(w: World, o: Options, a: EtsAnswers)
    ensures CreateEts(w, None, o, a, true) == (w, None)
  {
  }

  lemma PreForkEvolves(r: Js, vms: Vms)
    requires forall u <- vms.log :: u < vms.next
    requires LogIs(r, vms, FRESH)
    ensures Evolves(r, vms, r, LogVm(vms, r.vm, PreFork)) && LogIs(r, LogVm(vms, r.vm, PreFork), SAVED)
  {
    assert FRESH + [PreFork] == SAVED;
  }

  lemma FinishLooseJs(w: World, j: JsId, loose: set<Runtime>)
    requires Inv(w, loose) && JsRuntime(j) in loose && IsFresh(w.js, w.vms.log, j)
    ensures Inv(JsFinishPreload(w, j), loose)
    ensures IsSaved(JsFinishPreload(w, j).js, JsFinishPreload(w, j).vms.log, j)
  {
    hide Inv, Evolves;
    LooseIsLive(w, JsRuntime(j), loose);
    PreForkEvolves(w.js[j], w.vms);
    EvolveLoose(w, j, w.js[j], LogVm(w.vms, w.js[j].vm, PreFork), loose);
    assert w.js[j := w.js[j]] == w.js;
  }

  /** Finishing the preload of an ETS runtime made in preload mode. */
  lemma FinishLooseEts(w: World, e: EtsId)
    requires Inv(w, {EtsRuntime(e)}) && OwnsOnlyFresh(w, e)
    requires TableOk(w.table) && e in w.etsLog ==> w.etsLog[e] == [EtsInit]
    ensures var w' := EtsFinish(w, e);
            && Inv(w', {EtsRuntime(e)}) && w'.table == w.table
            && (forall j: JsId :: EtsOwns(w'.ets, e, j) ==> IsSaved(w'.js, w'.vms.log, j))
            && (TableOk(w.table) && e in w'.etsLog ==>
                  w'.etsLog[e] == if w.table.finishPreload then [EtsInit, EtsFinishPreload] else [EtsInit])
  {
    hide Inv;
    var loose := {EtsRuntime(e)};
    LooseIsLive(w, EtsRuntime(e), loose);
    var w1 := w;
    if w.ets[e].js.Some? {
      var j := w.ets[e].js.value;
      assert EtsOwns(w.ets, e, j);
      TakeEtsJs(w, e, j, loose);
      var out := w.(ets := w.ets[e := Ets(None)]);
      FinishLooseJs(out, j, loose + {JsRuntime(j)});
      var done := JsFinishPreload(out, j);
      PutEtsJs(done, e, j, loose + {JsRuntime(j)});
      w1 := JsFinishPreload(w, j);
      assert done.ets[e := Ets(Some(j))] == w.ets;
      assert loose + {JsRuntime(j)} - {JsRuntime(j)} == loose;
    }
    if w.table.finishPreload { LogLooseEts(w1, e, EtsFinishPreload, loose); }
  }

  lemma DestroyJsKeepsSaved(w: World, k: JsId, j: JsId)
    requires VmsOk(w.js, w.vms.log) && k in w.js && k != j && IsSaved(w.js, w.vms.log, j)
    ensures IsSaved(DestroyJs(w, k).js, DestroyJs(w, k).vms.log, j)
  {
    assert w.js[j].vm != w.js[k].vm;
  }

  /** Destroying what the slot held does not touch a JS runtime that the slot did not own. */
  lemma SlotGoneKeeps(w: World, j: JsId, loose: set<Runtime>)
    requires Inv(w, loose) && w.slot.Some? && IsSaved(w.js, w.vms.log, j)
    requires w.slot != Some(JsRuntime(j)) && !(SlotIsEts(w) && EtsOwns(w.ets, w.slot.value.ets, j))
    ensures var w' := DestroyOption(w.(slot := None), w.slot); IsSaved(w'.js, w'.vms.log, j)
  {
    match w.slot.value
    case JsRuntime(k) => DestroyJsKeepsSaved(w.(slot := None), k, j);
    case EtsRuntime(f) =>
      if w.ets[f].js.Some? {
        assert EtsOwns(w.ets, f, w.ets[f].js.value);
        DestroyJsKeepsSaved(w.(slot := None), w.ets[f].js.value, j);
      }
  }

  lemma LooseIsNotOwned(w: World, j: JsId, loose: set<Runtime>)
    requires Inv(w, loose) && JsRuntime(j) in loose
    ensures w.slot != Some(JsRuntime(j))
    ensures forall e: EtsId :: !EtsOwns(w.ets, e, j)
  {
    assert OwnedJs(w, loose, j);
  }

  /** Destroying what the slot held changes no ETS runtime but the one in the slot. */
  lemma SlotGoneFrame(w: World, e: EtsId)
    requires w.slot.Some? && w.slot != Some(EtsRuntime(e))
    ensures var w' := DestroyOption(w.(slot := None), w.slot);
            && w'.etsLog == w.etsLog && w'.table == w.table
            && (forall j: JsId :: EtsOwns(w'.ets, e, j) <==> EtsOwns(w.ets, e, j))
  {
  }

  lemma SlotGoneKeepsEts(w: World, e: EtsId, loose: set<Runtime>)
    requires Inv(w, loose) && w.slot.Some? && EtsRuntime(e) in loose
    ensures var w' := DestroyOption(w.(slot := None), w.slot);
            && w'.etsLog == w.etsLog && w'.table == w.table
            && (forall j: JsId :: EtsOwns(w'.ets, e, j) <==> EtsOwns(w.ets, e, j))
            && (forall j: JsId :: EtsOwns(w.ets, e, j) ==>
                  w.slot != Some(JsRuntime(j)) && !(SlotIsEts(w) && EtsOwns(w.ets, w.slot.value.ets, j)))
  {
    hide VmsOk, IdsOk, PhasesOk, OwnedPhasesOk, EtsLogsOk, DestroyOption;
    SlotGoneFrame(w, e);
  }

  /** The slot, whatever it held, now holds a runtime that has finished its preload. */
  lemma ReplaceSlot(w: World, rt: Option<Runtime>)
    requires Inv(w, if rt.Some? then {rt.value} else {})
    requires match rt
      case None => true
      case Some(JsRuntime(j)) => IsSaved(w.js, w.vms.log, j)
      case Some(EtsRuntime(e)) =>
        && (forall j: JsId :: EtsOwns(w.ets, e, j) ==> IsSaved(w.js, w.vms.log, j))
        && (TableOk(w.table) && e in w.etsLog ==>
              w.etsLog[e] == if w.table.finishPreload then [EtsInit, EtsFinishPreload] else [EtsInit])
    ensures Inv(DestroyOption(w.(slot := None), w.slot).(slot := rt), {})
  {
    hide Inv;
    var loose := if rt.Some? then {rt.value} else {};
    var w1 := DestroyOption(w.(slot := None), w.slot);
    if w.slot.Some? {
      if rt.Some? { LooseIsLive(w, rt.value, loose); }
      TakeSlot(w, loose);
      DestroyOptionKeeps(w.(slot := None), w.slot, loose);
      if rt.Some? {
        match rt.value
        case JsRuntime(j) =>
          LooseIsNotOwned(w, j, loose);
          SlotGoneKeeps(w, j, loose);
        case EtsRuntime(e) =>
          SlotGoneKeepsEts(w, e, loose);
          forall j: JsId | EtsOwns(w1.ets, e, j) ensures IsSaved(w1.js, w1.vms.log, j) {
            SlotGoneKeeps(w, j, loose);
          }
      }
    }
    if rt.Some? {
      LooseIsLive(w1, rt.value, loose);
      PutSlot(w1, rt.value, loose);
      assert loose - {rt.value} == {};
    }
  }

  lemma SaveKeeps(w: World, rt: Option<Runtime>)
    requires Inv(w, {})
    requires rt.Some? ==> rt.value in w.held && rt.value in w.preloadMade
    ensures Inv(SavePreloaded(w, rt), {})
  {
    hide Inv, EtsFinish, JsFinishPreload, DestroyOption;
    match rt
    case None => ReplaceSlot(w, None);
    case Some(r) =>
      HeldPreload(w, r);
      TakeHeld(w, r, {});
      assert {} + {r} == {r};
      var w0 := w.(held := w.held - {r});
      match r {
        case JsRuntime(j) =>
          FinishLooseJs(w0, j, {r});
          ReplaceSlot(JsFinishPreload(w0, j), rt);
        case EtsRuntime(e) =>
          FinishLooseEts(w0, e);
          ReplaceSlot(EtsFinish(w0, e), rt);
      }
  }

  lemma HeldPreload(w: World, rt: Runtime)
    requires Inv(w, {}) && rt in w.held && rt in w.preloadMade
    ensures rt.JsRuntime? ==> IsFresh(w.js, w.vms.log, rt.js)
    ensures rt.EtsRuntime? ==> OwnsOnlyFresh(w, rt.ets)
    ensures rt.EtsRuntime? && TableOk(w.table) && rt.ets in w.etsLog ==> w.etsLog[rt.ets] == [EtsInit]
  {
  }

  lemma ApplyKeeps(w: World, op: Op)
    requires Inv(w, {}) && Disciplined(w, op)
    ensures Inv(Apply(w, op), {})
  {
    hide Inv, Create, CreateEts, SavePreloaded, Destroy;
    match op
    case CreateOp(o, ja, ea) => CreateKeeps(w, o, ja, ea);
    case AttachOp(j, o, ea) => if JsRuntime(j) in w.held { CreateEtsKeeps(w, j, o, ea, false); }
    case SaveOp(rt) => if rt.None? || rt.value in w.held { SaveKeeps(w, rt); }
    case DropOp(rt) => if rt in w.held { DropHeld(w, rt); }
  }

  /** Every disciplined run keeps owners, phases and logs in order. */
  lemma {:induction false} RunKeeps(table: Table, ops: seq<Op>)
    requires DisciplinedRun(Start(table), ops)
    ensures Inv(Run(Start(table), ops), {})
  {
    if ops != [] {
      RunKeeps(table, ops[..|ops| - 1]);
      ApplyKeeps(Run(Start(table), ops[..|ops| - 1]), ops[|ops| - 1]);
    }
  }
}
