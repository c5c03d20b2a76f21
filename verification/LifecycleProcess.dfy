/**
  The process as the runtimes change it: the global slot, the fields of every JS and ETS runtime, and
  what happened to every VM.  Each method makes its changes one by one and is proved against the
  function of the same operation.
*/
module LifecycleProcess {
  import opened Wrappers
  import opened Lifecycle
  import LifecycleProofs
  import LifecycleFactory

  class Process {
    const table: Table
    var slot: Option<Runtime>
    var held: set<Runtime>
    var preloadMade: set<Runtime>
    var js: map<JsId, Js>
    var ets: map<EtsId, Ets>
    var vmLog: map<VmId, seq<VmEvent>>
    var nextVm: nat
    var etsLog: map<EtsId, seq<EtsEvent>>
    var etsEnv: seq<EtsEvent>
    var nextJs: nat
    var nextEts: nat

    function Now(): World
      reads this
    {
      World(table, slot, held, preloadMade, js, ets, Vms(vmLog, nextVm), etsLog, etsEnv, nextJs, nextEts)
    }

    constructor (table: Table)
      ensures Now() == Start(table)
    {
      this.table := table;
      slot, held, preloadMade := None, {}, {};
      js, ets, vmLog, etsLog := map[], map[], map[], map[];
      etsEnv := [];
      nextVm, nextJs, nextEts := 0, 0, 0;
    }

    // -------------------------------------------------------------------------------------------
    // Events and destruction

    method NoteVm(vm: Option<VmId>, e: VmEvent)
      modifies this`vmLog
      ensures Now() == old(Now()).(vms := LogVm(old(Now()).vms, vm, e))
    {
      if vm.Some? && vm.value in vmLog {
        vmLog := vmLog[vm.value := vmLog[vm.value] + [e]];
      }
    }

    method NoteEts(e: EtsId, ev: EtsEvent)
      modifies this`etsLog, this`etsEnv
      ensures Now() == LogEts(old(Now()), e, ev)
    {
      etsEnv := etsEnv + [ev];
      if e in etsLog {
        etsLog := etsLog[e := etsLog[e] + [ev]];
      }
    }

    method DeleteJs(j: JsId)
      modifies this`vmLog, this`js
      ensures Now() == DestroyJs(old(Now()), j)
    {
      if j in js {
        NoteVm(js[j].vm, Destroyed);
      }
      js := js - {j};
    }

    method DeleteEts(e: EtsId)
      modifies this`vmLog, this`js, this`ets
      ensures Now() == DestroyEts(old(Now()), e)
    {
      if e in ets {
        if ets[e].js.Some? {
          DeleteJs(ets[e].js.value);
        }
        ets := ets - {e};
      }
    }

    method Reset(rt: Option<Runtime>)
      modifies this`vmLog, this`js, this`ets
      ensures Now() == DestroyOption(old(Now()), rt)
    {
      if rt.Some? {
        match rt.value {
          case JsRuntime(j) => DeleteJs(j);
          case EtsRuntime(e) => DeleteEts(e);
        }
      }
    }

    // -------------------------------------------------------------------------------------------
    // `Runtime`: the global slot

    method GetPreloadedInstance(key: Language) returns (taken: Option<Runtime>)
      modifies this`slot, this`ets
      ensures (Now(), taken) == GetPreloaded(old(Now()), key)
    {
      if slot.Some? && slot.value.EtsRuntime? && key == JS {
        taken := MoveJsRuntime(slot.value.ets);
      } else {
        taken := slot;
        slot := None;
      }
    }

    method MoveJsRuntime(e: EtsId) returns (taken: Option<Runtime>)
      modifies this`ets
      ensures e in old(ets) && old(ets[e]).js.Some? ==>
                ets == old(ets)[e := Ets(None)] && taken == Some(JsRuntime(old(ets[e]).js.value))
      ensures !(e in old(ets) && old(ets[e]).js.Some?) ==> ets == old(ets) && taken == None
    {
      taken := None;
      if e in ets && ets[e].js.Some? {
        taken := Some(JsRuntime(ets[e].js.value));
        ets := ets[e := Ets(None)];
      }
    }

    method FinishPreloadJs(j: JsId)
      modifies this`vmLog
      ensures Now() == JsFinishPreload(old(Now()), j)
    {
      if j in js {
        NoteVm(js[j].vm, PreFork);
      }
    }

    method FinishPreloadEts(e: EtsId)
      modifies this`vmLog, this`etsLog, this`etsEnv
      ensures Now() == EtsFinish(old(Now()), e)
    {
      if e in ets && ets[e].js.Some? {
        FinishPreloadJs(ets[e].js.value);
      }
      if !table.finishPreload {
        return;
      }
      NoteEts(e, EtsFinishPreload);
    }

    method Save(instance: Option<Runtime>)
      modifies this
      ensures Now() == SavePreloaded(old(Now()), instance)
    {
      if instance.Some? {
        held := held - {instance.value};
        match instance.value {
          case JsRuntime(j) => FinishPreloadJs(j);
          case EtsRuntime(e) => FinishPreloadEts(e);
        }
      }
      var before := slot;
      slot := None;
      Reset(before);
      slot := instance;
    }

    // -------------------------------------------------------------------------------------------
    // `JsRuntime`

    method CreateEnv(j: JsId, ok: bool)
      requires j in js
      modifies this`js, this`vmLog, this`nextVm
      ensures var (r, vms) := CreateJsEnv(old(js[j]), old(Now()).vms, ok);
              Now() == old(Now()).(js := old(js)[j := r], vms := vms)
    {
      NoteVm(js[j].vm, Destroyed);
      js := js[j := Js(false, None)];
      if ok {
        js := js[j := Js(false, Some(nextVm))];
        vmLog := vmLog[nextVm := [Created]];
        nextVm := nextVm + 1;
      }
    }

    /** The end of `Initialize`, after the environment is there. */
    method FinishInitializeJs(j: JsId, o: Options, a: JsAnswers) returns (ok: bool)
      requires j in js
      modifies this`js, this`vmLog
      ensures var (r, vms, done) := FinishInitialize(old(js[j]), old(Now()).vms, o, a);
              ok == done && Now() == old(Now()).(js := old(js)[j := r], vms := vms)
    {
      hide LogVm;
      ghost var start := js;
      if !js[j].preloaded {
        NoteVm(js[j].vm, Console);
      }
      if !o.preload {
        NoteVm(js[j].vm, Worker);
        if !a.loopOk {
          assert js == start[j := js[j]];
          return false;
        }
        NoteVm(js[j].vm, Loop);
      }
      js := js[j := js[j].(preloaded := o.preload)];
      return true;
    }

    method InitializeJs(j: JsId, o: Options, a: JsAnswers) returns (ok: bool)
      requires j in js
      modifies this`js, this`vmLog, this`nextVm
      ensures var (r, vms, done) := Initialize(old(js[j]), old(Now()).vms, o, a);
              ok == done && Now() == old(Now()).(js := old(js)[j := r], vms := vms)
    {
      hide LogVm, UseAbilityRuntime, FinishInitialize;
      ghost var start := js;
      if a.pipelineChangedAtInit {
        js := js[j := js[j].(preloaded := false)];
      }
      if !js[j].preloaded {
        CreateEnv(j, a.envOk);
        if !a.envOk {
          return false;
        }
      }
      if UseAbilityRuntime(o) {
        if !a.engineOk {
          assert js == start[j := js[j]];
          return false;
        }
        if js[j].preloaded {
          NoteVm(js[j].vm, PostFork);
        }
        if !a.globalOk {
          assert js == start[j := js[j]];
          return false;
        }
        if !js[j].preloaded {
          if !a.requireRefOk {
            return false;
          }
        }
      }
      ok := FinishInitializeJs(j, o, a);
      assert js == start[j := js[j]];
    }

    method MakeJs() returns (j: JsId)
      modifies this`js, this`nextJs
      ensures (Now(), j) == NewJs(old(Now()))
    {
      j := nextJs;
      js := js[j := Js(false, None)];
      nextJs := nextJs + 1;
    }

    method AcquireJsInstance(o: Options, a: JsAnswers) returns (instance: JsId)
      modifies this
      ensures (Now(), instance) == AcquireJs(old(Now()), o, a)
    {
      if !o.preload && o.isStageModel {
        var preloaded := GetPreloadedInstance(JS);
        if a.pipelineChangedAtCreate && preloaded.Some? {
          Reset(preloaded);
          preloaded := None;
        }
        if preloaded.Some? && preloaded.value.JsRuntime? {
          instance := preloaded.value.js;
        } else {
          Reset(preloaded);
          instance := MakeJs();
        }
      } else {
        instance := MakeJs();
      }
    }

    method CreateJsInstance(o: Options, a: JsAnswers) returns (made: Option<JsId>)
      modifies this
      ensures (Now(), made) == CreateJs(old(Now()), o, a)
    {
      hide AcquireJs, Initialize;
      var j := AcquireJsInstance(o, a);
      if j !in js {
        return None;
      }
      var ok := InitializeJs(j, o, a);
      if !ok {
        DeleteJs(j);
        return None;
      }
      held := held + {JsRuntime(j)};
      preloadMade := if o.preload then preloadMade + {JsRuntime(j)} else preloadMade - {JsRuntime(j)};
      return Some(j);
    }

    // -------------------------------------------------------------------------------------------
    // `ETSRuntime`

    /** The JS runtime of the caller moves into the ETS runtime, if the caller still has it. */
    method MoveIn(e: EtsId, j: JsId, isMove: bool)
      requires e in ets
      modifies this`vmLog, this`js, this`ets, this`held
      ensures Now() == MoveWhen(old(Now()), e, j, isMove)
    {
      if isMove && JsRuntime(j) in held {
        if ets[e].js.Some? {
          DeleteJs(ets[e].js.value);
        }
        ets := ets[e := Ets(Some(j))];
        held := held - {JsRuntime(j)};
      }
    }

    method InitializeEts(e: EtsId, j: JsId, o: Options, a: EtsAnswers, isMove: bool) returns (ok: bool)
      requires e in ets
      modifies this`vmLog, this`js, this`ets, this`held, this`etsLog, this`etsEnv
      ensures e in ets
      ensures o.lang != ETS ==> !ok && Now() == old(Now())
      ensures o.lang == ETS ==>
                var w := MoveWhen(old(Now()), e, j, isMove);
                && ok == (a.envOk && a.aniOk && (o.preload || table.finishPreload))
                && Now() == if !a.envOk then w
                            else if ok && !o.preload then LogEts(LogEts(w, e, EtsInit), e, EtsFinishPreload)
                            else LogEts(w, e, EtsInit)
    {
      if o.lang != ETS {
        return false;
      }
      MoveIn(e, j, isMove);
      if !a.envOk {
        return false;
      }
      NoteEts(e, EtsInit);
      if !a.aniOk {
        return false;
      }
      if !o.preload {
        if !table.finishPreload {
          return false;
        }
        NoteEts(e, EtsFinishPreload);
      }
      return true;
    }

    method PreForkInstance(j: JsId, o: Options, a: EtsAnswers, isMove: bool) returns (instance: Option<EtsId>)
      modifies this
      ensures (Now(), instance) == PreForkEts(old(Now()), j, o, a, isMove)
    {
      hide MoveWhen, LogEts, DestroyEts;
      var e := nextEts;
      ets := ets[e := Ets(None)];
      etsLog := etsLog[e := []];
      nextEts := nextEts + 1;
      var ok := InitializeEts(e, j, o, a, isMove);
      if !ok {
        DeleteEts(e);
        return None;
      }
      return Some(e);
    }

    method PostForkInstance(e: EtsId, j: JsId, isMove: bool)
      requires e in ets
      modifies this`vmLog, this`js, this`ets, this`held, this`etsLog, this`etsEnv
      ensures Now() == PostForkEts(old(Now()), e, j, isMove)
    {
      if !table.postFork {
        return;
      }
      MoveIn(e, j, isMove);
      NoteEts(e, EtsPostFork);
    }

    method CreateEtsInstance(j: Option<JsId>, o: Options, a: EtsAnswers, isMove: bool) returns (made: Option<EtsId>)
      modifies this
      ensures (Now(), made) == CreateEts(old(Now()), j, o, a, isMove)
    {
      hide PreForkEts, PostForkEts, DestroyOption, GetPreloaded;
      if !a.registered {
        return None;
      }
      if j.None? {
        return None;
      }
      var preloaded := GetPreloadedInstance(ETS);
      var instance;
      if preloaded.Some? && !a.pipelineChanged && preloaded.value.EtsRuntime? {
        instance := Some(preloaded.value.ets);
      } else {
        Reset(preloaded);
        instance := PreForkInstance(j.value, o, a, isMove);
      }
      if instance.None? || instance.value !in ets {
        return None;
      }
      var e := instance.value;
      if !o.preload {
        PostForkInstance(e, j.value, isMove);
      }
      held := held + {EtsRuntime(e)};
      preloadMade := if o.preload then preloadMade + {EtsRuntime(e)} else preloadMade - {EtsRuntime(e)};
      return Some(e);
    }

    // -------------------------------------------------------------------------------------------
    // The factory

    /** `Runtime::Create`; it changes the language of the caller's options for a while and restores it. */
    method CreateRuntime(given: Options, ja: JsAnswers, ea: EtsAnswers) returns (made: Option<Runtime>, options: Options)
      modifies this
      ensures (Now(), made) == Create(old(Now()), given, ja, ea)
      ensures options == given
      // In a process in order: a runtime comes back exactly when the answers are good, and is newly held.
      ensures Inv(old(Now()), {}) ==>
                && (made.Some? <==> LifecycleFactory.AnswersGood(old(Now()), given, ja, ea))
                && held == old(held) + (if made.Some? then {made.value} else {})
                && (made.Some? ==>
                      && made.value !in old(held) && Live(Now(), made.value)
                      && (made.value.JsRuntime? <==> given.lang == JS) && (made.value.EtsRuntime? <==> given.lang == ETS))
    {
      hide CreateJs, CreateEts, DestroyJs, Inv, LifecycleFactory.AnswersGood;
      ghost var before := Now();
      options := given;
      match options.lang {
        case JS =>
          var j := CreateJsInstance(options, ja);
          made := if j.Some? then Some(JsRuntime(j.value)) else None;
        case ETS =>
          options := options.(lang := JS);
          var j := CreateJsInstance(options, ja);
          options := options.(lang := ETS);
          var e := CreateEtsInstance(j, options, ea, true);
          if j.Some? && JsRuntime(j.value) in held {
            DeleteJs(j.value);
            held := held - {JsRuntime(j.value)};
          }
          made := if e.Some? then Some(EtsRuntime(e.value)) else None;
        case Unknown =>
          made := None;
      }
      if Inv(before, {}) { LifecycleFactory.CreateHandsOut(before, given, ja, ea); }
    }

    /** One step of a run. */
    method Step(op: Op)
      modifies this
      ensures Now() == Apply(old(Now()), op)
    {
      hide Create, CreateEts, SavePreloaded, Destroy;
      match op {
        case CreateOp(o, ja, ea) =>
          var made, options := CreateRuntime(o, ja, ea);
        case AttachOp(j, o, ea) =>
          if JsRuntime(j) in held {
            var made := CreateEtsInstance(Some(j), o, ea, false);
          }
        case SaveOp(rt) =>
          if rt.None? || rt.value in held {
            Save(rt);
          }
        case DropOp(rt) =>
          if rt in held {
            Reset(Some(rt));
            held := held - {rt};
          }
      }
    }

    /** A disciplined run of a new process keeps the invariant at its end. */
    method RunAll(ops: seq<Op>)
      requires Now() == Start(table) && DisciplinedRun(Now(), ops)
      modifies this
      ensures Now() == Run(old(Now()), ops)
      ensures Inv(Now(), {})
    {
      hide Apply, Inv, DisciplinedRun;
      for i := 0 to |ops|
        invariant Now() == Run(old(Now()), ops[..i])
      {
        assert ops[..i + 1][..i] == ops[..i];
        Step(ops[i]);
      }
      assert ops[..|ops|] == ops;
      LifecycleProofs.RunKeeps(table, ops);
    }
  }
}
