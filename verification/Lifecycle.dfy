/**
  The preload and fork life cycle of the language runtimes of one process.

  A process keeps one global slot for a preloaded runtime.  A JS runtime owns one VM, an ETS runtime
  may own one JS runtime, and the slot, an ETS runtime or the running code (`held`) owns each runtime
  through a unique pointer.  Runtimes and VMs are named by ids, so that sharing one of them between two
  owners, losing one, or touching a destroyed one would be visible in the state.  Every one-time step
  that a VM or an ETS runtime goes through is recorded in its log.
*/
module Lifecycle {
  import opened Wrappers

  type JsId = nat
  type EtsId = nat
  type VmId = nat

  datatype Language = JS | ETS | Unknown

  datatype Options = Options(lang: Language, preload: bool, isStageModel: bool, isTestFramework: bool)

  /** What the process environment answers while a JS runtime is created and initialised. */
  datatype JsAnswers = JsAnswers(
    pipelineChangedAtCreate: bool,
    pipelineChangedAtInit: bool,
    envOk: bool,
    engineOk: bool,
    globalOk: bool,
    requireRefOk: bool,
    loopOk: bool)

  /** What the process environment answers while an ETS runtime is created and initialised. */
  datatype EtsAnswers = EtsAnswers(registered: bool, pipelineChanged: bool, envOk: bool, aniOk: bool)

  datatype Runtime = JsRuntime(js: JsId) | EtsRuntime(ets: EtsId)

  datatype VmEvent = Created | Console | PreFork | PostFork | Worker | Loop | Destroyed
  datatype EtsEvent = EtsInit | EtsFinishPreload | EtsPostFork

  datatype Js = Js(preloaded: bool, vm: Option<VmId>)
  datatype Ets = Ets(js: Option<JsId>)

  /** Every VM ever made, with what happened to it. */
  datatype Vms = Vms(log: map<VmId, seq<VmEvent>>, next: nat)

  /** Which of the two optional entries the loaded ETS environment library offers. */
  datatype Table = Table(finishPreload: bool, postFork: bool)

  /**
    `etsLog` has what each ETS runtime asked of the ETS environment; `env` has the same calls in the order
    in which the one environment of the process got them.
  */
  datatype World = World(
    table: Table,
    slot: Option<Runtime>,
    held: set<Runtime>,
    preloadMade: set<Runtime>,
    js: map<JsId, Js>,
    ets: map<EtsId, Ets>,
    vms: Vms,
    etsLog: map<EtsId, seq<EtsEvent>>,
    env: seq<EtsEvent>,
    nextJs: nat,
    nextEts: nat)

  function Start(table: Table): World {
    World(table, None, {}, {}, map[], map[], Vms(map[], 0), map[], [], 0, 0)
  }

  // ---------------------------------------------------------------------------------------------
  // Destruction and logging

  function LogVm(vms: Vms, vm: Option<VmId>, e: VmEvent): Vms {
    if vm.Some? && vm.value in vms.log then vms.(log := vms.log[vm.value := vms.log[vm.value] + [e]]) else vms
  }

  function LogEts(w: World, e: EtsId, ev: EtsEvent): World {
    w.(env := w.env + [ev], etsLog := if e in w.etsLog then w.etsLog[e := w.etsLog[e] + [ev]] else w.etsLog)
  }

  /** The VM of a runtime; none for an id that was destroyed. */
  function VmOf(w: World, j: JsId): Option<VmId> {
    if j in w.js then w.js[j].vm else None
  }

  function DestroyJs(w: World, j: JsId): World {
    w.(vms := LogVm(w.vms, VmOf(w, j), Destroyed), js := w.js - {j})
  }

  function DestroyJsOption(w: World, j: Option<JsId>): World {
    if j.Some? then DestroyJs(w, j.value) else w
  }

  function DestroyEts(w: World, e: EtsId): World {
    if e in w.ets then DestroyJsOption(w, w.ets[e].js).(ets := w.ets - {e}) else w
  }

  function Destroy(w: World, rt: Runtime): World {
    match rt
    case JsRuntime(j) => DestroyJs(w, j)
    case EtsRuntime(e) => DestroyEts(w, e)
  }

  function DestroyOption(w: World, rt: Option<Runtime>): World {
    if rt.Some? then Destroy(w, rt.value) else w
  }

  // ---------------------------------------------------------------------------------------------
  // The global slot

  /** Asking for JS while the slot holds an ETS runtime moves the JS runtime out of that ETS runtime. */
  function GetPreloaded(w: World, key: Language): (World, Option<Runtime>) {
    if w.slot.Some? && w.slot.value.EtsRuntime? && key == JS then
      var e := w.slot.value.ets;
      if e in w.ets && w.ets[e].js.Some? then
        (w.(ets := w.ets[e := Ets(None)]), Some(JsRuntime(w.ets[e].js.value)))
      else (w, None)
    else (w.(slot := None), w.slot)
  }

  function JsFinishPreload(w: World, j: JsId): World {
    w.(vms := LogVm(w.vms, VmOf(w, j), PreFork))
  }

  function EtsFinish(w: World, e: EtsId): World {
    var w1 := if e in w.ets && w.ets[e].js.Some? then JsFinishPreload(w, w.ets[e].js.value) else w;
    if w.table.finishPreload then LogEts(w1, e, EtsFinishPreload) else w1
  }

  /** `rt` leaves the running code, finishes its preload and replaces what the slot held. */
  function SavePreloaded(w: World, rt: Option<Runtime>): World {
    var w0 := if rt.Some? then w.(held := w.held - {rt.value}) else w;
    var w1 :=
      match rt
      case None => w0
      case Some(JsRuntime(j)) => JsFinishPreload(w0, j)
      case Some(EtsRuntime(e)) => EtsFinish(w0, e);
    DestroyOption(w1.(slot := None), w1.slot).(slot := rt)
  }

  // ---------------------------------------------------------------------------------------------
  // JS runtimes

  /** A new environment replaces the old one, whose VM is destroyed, even when the new VM cannot be made. */
  function CreateJsEnv(r: Js, vms: Vms, ok: bool): (Js, Vms) {
    var vms1 := LogVm(vms, r.vm, Destroyed);
    if ok then (Js(false, Some(vms1.next)), Vms(vms1.log[vms1.next := [Created]], vms1.next + 1))
    else (Js(false, None), vms1)
  }

  /** The tail of `Initialize`: console, then worker and loop, then the new value of the preloaded flag. */
  function FinishInitialize(r: Js, vms: Vms, o: Options, a: JsAnswers): (Js, Vms, bool) {
    var vms1 := if r.preloaded then vms else LogVm(vms, r.vm, Console);
    if o.preload then (r.(preloaded := true), vms1, true)
    else
      var vms2 := LogVm(vms1, r.vm, Worker);
      if !a.loopOk then (r, vms2, false)
      else (r.(preloaded := false), LogVm(vms2, r.vm, Loop), true)
  }

  predicate UseAbilityRuntime(o: Options) {
    o.isStageModel || o.isTestFramework
  }

  /** `Initialize` of the runtime `r`; it reads and changes nothing but `r` and the VMs. */
  function Initialize(r: Js, vms: Vms, o: Options, a: JsAnswers): (Js, Vms, bool) {
    var preloaded := r.preloaded && !a.pipelineChangedAtInit;
    var (r1, vms1) := if preloaded then (r, vms) else CreateJsEnv(r, vms, a.envOk);
    if !preloaded && !a.envOk then (r1, vms1, false)
    else if UseAbilityRuntime(o) then
      if !a.engineOk then (r1, vms1, false)
      else
        var vms2 := if preloaded then LogVm(vms1, r1.vm, PostFork) else vms1;
        if !a.globalOk || (!preloaded && !a.requireRefOk) then (r1, vms2, false)
        else FinishInitialize(r1, vms2, o, a)
    else FinishInitialize(r1, vms1, o, a)
  }

  function NewJs(w: World): (World, JsId) {
    (w.(js := w.js[w.nextJs := Js(false, None)], nextJs := w.nextJs + 1), w.nextJs)
  }

  /** The runtime that `Create` will initialise: the preloaded one if there is one to take, else a new one. */
  function AcquireJs(w: World, o: Options, a: JsAnswers): (World, JsId) {
    if !o.preload && o.isStageModel then
      var (w1, taken) := GetPreloaded(w, JS);
      if taken.Some? && taken.value.JsRuntime? && !a.pipelineChangedAtCreate then (w1, taken.value.js)
      else NewJs(DestroyOption(w1, taken))
    else NewJs(w)
  }

  /** On success the new runtime is held by the running code. */
  function CreateJs(w: World, o: Options, a: JsAnswers): (World, Option<JsId>) {
    var (w1, j) := AcquireJs(w, o, a);
    if j !in w1.js then (w1, None)
    else
      var (r, vms, ok) := Initialize(w1.js[j], w1.vms, o, a);
      var w2 := w1.(js := w1.js[j := r], vms := vms);
      if !ok then (DestroyJs(w2, j), None)
      else (w2.(held := w2.held + {JsRuntime(j)},
                preloadMade := if o.preload then w2.preloadMade + {JsRuntime(j)} else w2.preloadMade - {JsRuntime(j)}),
            Some(j))
  }

  // ---------------------------------------------------------------------------------------------
  // ETS runtimes

  /** `jsRuntime_ = std::move(jsRuntime)`: what the ETS runtime owned before is destroyed. */
  function MoveJsIn(w: World, e: EtsId, j: JsId): World
    requires e in w.ets
  {
    var w1 := DestroyJsOption(w, w.ets[e].js);
    w1.(ets := w1.ets[e := Ets(Some(j))], held := w1.held - {JsRuntime(j)})
  }

  function MoveWhen(w: World, e: EtsId, j: JsId, isMove: bool): World
    requires e in w.ets
  {
    if isMove && JsRuntime(j) in w.held then MoveJsIn(w, e, j) else w
  }

  function NewEts(w: World): World {
    w.(ets := w.ets[w.nextEts := Ets(None)], etsLog := w.etsLog[w.nextEts := []], nextEts := w.nextEts + 1)
  }

  /** A new ETS runtime initialised for `j`; when initialisation fails the instance is destroyed. */
  function PreForkEts(w: World, j: JsId, o: Options, a: EtsAnswers, isMove: bool): (World, Option<EtsId>) {
    var e := w.nextEts;
    var w1 := NewEts(w);
    if o.lang != ETS then (DestroyEts(w1, e), None)
    else
      var w2 := MoveWhen(w1, e, j, isMove);
      if !a.envOk then (DestroyEts(w2, e), None)
      else
        var w3 := LogEts(w2, e, EtsInit);
        if !a.aniOk || (!o.preload && !w.table.finishPreload) then (DestroyEts(w3, e), None)
        else if o.preload then (w3, Some(e))
        else (LogEts(w3, e, EtsFinishPreload), Some(e))
  }

  function PostForkEts(w: World, e: EtsId, j: JsId, isMove: bool): World
    requires e in w.ets
  {
    if !w.table.postFork then w
    else LogEts(MoveWhen(w, e, j, isMove), e, EtsPostFork)
  }

  /** The instance that `CreateEts` goes on with: the saved ETS runtime, or one made now. */
  function AcquireEts(w: World, j: JsId, o: Options, a: EtsAnswers, isMove: bool): (World, Option<EtsId>) {
    var (w1, taken) := GetPreloaded(w, ETS);
    if taken.Some? && !a.pipelineChanged && taken.value.EtsRuntime? then (w1, Some(taken.value.ets))
    else PreForkEts(DestroyOption(w1, taken), j, o, a, isMove)
  }

  /** `j` is held by the running code; it stays there unless it is moved into the ETS runtime. */
  function CreateEts(w: World, j: Option<JsId>, o: Options, a: EtsAnswers, isMove: bool): (World, Option<EtsId>) {
    if !a.registered || j.None? then (w, None)
    else
      var (w2, instance) := AcquireEts(w, j.value, o, a, isMove);
      if instance.None? || instance.value !in w2.ets then (w2, None)
      else
        var e := instance.value;
        var w3 := if o.preload then w2 else PostForkEts(w2, e, j.value, isMove);
        (w3.(held := w3.held + {EtsRuntime(e)},
             preloadMade := if o.preload then w3.preloadMade + {EtsRuntime(e)} else w3.preloadMade - {EtsRuntime(e)}),
         Some(e))
  }

  /** The local pointer of `Runtime::Create` goes out of scope: a JS runtime that was not moved is destroyed. */
  function DropLocal(w: World, j: Option<JsId>): World {
    if j.Some? && JsRuntime(j.value) in w.held then DestroyJs(w, j.value).(held := w.held - {JsRuntime(j.value)})
    else w
  }

  /** The factory, with the default `isMove`. */
  function Create(w: World, o: Options, ja: JsAnswers, ea: EtsAnswers): (World, Option<Runtime>) {
    match o.lang
    case JS =>
      var (w1, j) := CreateJs(w, o, ja);
      (w1, if j.Some? then Some(JsRuntime(j.value)) else None)
    case ETS =>
      var (w1, j) := CreateJs(w, o.(lang := JS), ja);
      var (w2, e) := CreateEts(w1, j, o, ea, true);
      (DropLocal(w2, j), if e.Some? then Some(EtsRuntime(e.value)) else None)
    case Unknown => (w, None)
  }

  // ---------------------------------------------------------------------------------------------
  // Runs

  datatype Op =
    | CreateOp(o: Options, ja: JsAnswers, ea: EtsAnswers)
    | AttachOp(j: JsId, o: Options, ea: EtsAnswers)  // ETS beside a held JS runtime, `isMove` false
    | SaveOp(rt: Option<Runtime>)
    | DropOp(dropped: Runtime)

  function Apply(w: World, op: Op): World {
    match op
    case CreateOp(o, ja, ea) => Create(w, o, ja, ea).0
    case AttachOp(j, o, ea) => if JsRuntime(j) in w.held then CreateEts(w, Some(j), o, ea, false).0 else w
    case SaveOp(rt) => if rt.None? || rt.value in w.held then SavePreloaded(w, rt) else w
    case DropOp(rt) => if rt in w.held then Destroy(w, rt).(held := w.held - {rt}) else w
  }

  function Run(w: World, ops: seq<Op>): World {
    if ops == [] then w else Apply(Run(w, ops[..|ops| - 1]), ops[|ops| - 1])
  }

  predicate SlotIsEts(w: World) {
    w.slot.Some? && w.slot.value.EtsRuntime?
  }

  /** Only runtimes made in preload mode are saved, and an ETS preload does not meet a saved ETS runtime. */
  predicate Disciplined(w: World, op: Op) {
    match op
    case CreateOp(o, _, _) => o.preload && o.lang == ETS ==> !SlotIsEts(w)
    case AttachOp(_, o, _) => o.preload ==> !SlotIsEts(w)
    case SaveOp(rt) => rt.Some? ==> rt.value in w.preloadMade
    case DropOp(_) => true
  }

  predicate DisciplinedRun(w: World, ops: seq<Op>) {
    ops == [] ||
    (DisciplinedRun(w, ops[..|ops| - 1]) && Disciplined(Run(w, ops[..|ops| - 1]), ops[|ops| - 1]))
  }

  // ---------------------------------------------------------------------------------------------
  // What every run keeps

  const FRESH: seq<VmEvent> := [Created, Console]
  const SAVED: seq<VmEvent> := [Created, Console, PreFork]
  const DIRECT: seq<VmEvent> := [Created, Console, Worker, Loop]
  const FORKED: seq<VmEvent> := [Created, Console, PreFork, PostFork, Worker, Loop]
  const ETS_SCRIPT: seq<EtsEvent> := [EtsInit, EtsFinishPreload, EtsPostFork]

  /** The log of a VM that still exists: it follows one of the two scripts. */
  predicate Open(log: seq<VmEvent>) {
    log != [] && (log <= DIRECT || log <= FORKED)
  }

  predicate Closed(log: seq<VmEvent>) {
    log != [] && log[|log| - 1] == Destroyed
  }

  /** The log of any VM: one of the two scripts, cut off by at most one destruction. */
  predicate Scripted(log: seq<VmEvent>) {
    Open(log) || (Closed(log) && Open(log[..|log| - 1]))
  }

  type JsTable = map<JsId, Js>
  type VmLogs = map<VmId, seq<VmEvent>>

  predicate HasLog(js: JsTable, logs: VmLogs, j: JsId, log: seq<VmEvent>) {
    j in js && js[j].vm.Some? && js[j].vm.value in logs && logs[js[j].vm.value] == log
  }

  predicate IsFresh(js: JsTable, logs: VmLogs, j: JsId) {
    HasLog(js, logs, j, FRESH) && js[j].preloaded
  }

  predicate IsSaved(js: JsTable, logs: VmLogs, j: JsId) {
    HasLog(js, logs, j, SAVED) && js[j].preloaded
  }

  predicate IsReady(js: JsTable, logs: VmLogs, j: JsId) {
    (HasLog(js, logs, j, DIRECT) || HasLog(js, logs, j, FORKED)) && !js[j].preloaded
  }

  predicate IsNew(js: JsTable, j: JsId) {
    j in js && js[j] == Js(false, None)
  }

  /** `e` owns `j`. */
  predicate EtsOwns(ets: map<EtsId, Ets>, e: EtsId, j: JsId) {
    e in ets && ets[e].js == Some(j)
  }

  predicate Live(w: World, rt: Runtime) {
    if rt.JsRuntime? then rt.js in w.js else rt.ets in w.ets
  }

  ghost predicate IdsOk(w: World) {
    && (forall j <- w.js :: j < w.nextJs)
    && (forall e <- w.ets :: e < w.nextEts)
    && (forall v <- w.vms.log :: v < w.vms.next)
    && (forall e <- w.etsLog :: e < w.nextEts)
    && (forall e <- w.ets :: e in w.etsLog)
    && (forall j: JsId :: JsRuntime(j) in w.preloadMade ==> j < w.nextJs)
    && (forall e: EtsId :: EtsRuntime(e) in w.preloadMade ==> e < w.nextEts)
  }

  /** Each live VM has exactly one runtime, and every log follows a script. */
  ghost predicate VmsOk(js: JsTable, logs: VmLogs) {
    && (forall j <- js :: js[j].vm.Some? ==> js[j].vm.value in logs && !Closed(logs[js[j].vm.value]))
    && (forall i <- js, j <- js :: i != j && js[i].vm.Some? ==> js[i].vm != js[j].vm)
    && (forall v <- logs :: Scripted(logs[v]))
    && (forall v <- logs :: Closed(logs[v]) || exists j <- js :: js[j].vm == Some(v))
  }

  ghost predicate OwnedJs(w: World, loose: set<Runtime>, j: JsId) {
    JsRuntime(j) in w.held || JsRuntime(j) in loose || w.slot == Some(JsRuntime(j))
  }

  /** Every live runtime has exactly one owner; `loose` ones are held by a local pointer in mid-operation. */
  ghost predicate OwnersOk(w: World, loose: set<Runtime>) {
    && (forall rt <- w.held :: Live(w, rt) && rt !in loose)
    && (forall rt <- loose :: Live(w, rt))
    && (w.slot.Some? ==> Live(w, w.slot.value) && w.slot.value !in w.held && w.slot.value !in loose)
    && (forall e: EtsId, j: JsId :: EtsOwns(w.ets, e, j) ==> j in w.js && !OwnedJs(w, loose, j))
    && (forall e: EtsId, f: EtsId, j: JsId :: EtsOwns(w.ets, e, j) && EtsOwns(w.ets, f, j) ==> e == f)
    && (forall j <- w.js :: OwnedJs(w, loose, j) || exists e: EtsId :: EtsOwns(w.ets, e, j))
    && (forall e <- w.ets :: EtsRuntime(e) in w.held || EtsRuntime(e) in loose || w.slot == Some(EtsRuntime(e)))
  }

  /** How far each runtime is, by owner. */
  ghost predicate PhasesOk(w: World) {
    && (forall j: JsId :: JsRuntime(j) in w.held ==> IsFresh(w.js, w.vms.log, j) || IsReady(w.js, w.vms.log, j))
    && (forall j: JsId :: JsRuntime(j) in w.held && JsRuntime(j) in w.preloadMade ==> IsFresh(w.js, w.vms.log, j))
    && (forall e: EtsId, j: JsId :: EtsRuntime(e) in w.held && EtsOwns(w.ets, e, j) && EtsRuntime(e) in w.preloadMade ==>
          IsFresh(w.js, w.vms.log, j))
    && (w.slot.Some? && w.slot.value.JsRuntime? ==> IsSaved(w.js, w.vms.log, w.slot.value.js))
    && (forall j: JsId :: w.slot.Some? && w.slot.value.EtsRuntime? && EtsOwns(w.ets, w.slot.value.ets, j) ==>
          IsSaved(w.js, w.vms.log, j))
  }

  /** A JS runtime has finished its set-up for preloading, has been saved, or is ready to run. */
  predicate InPhase(js: JsTable, logs: VmLogs, j: JsId) {
    IsFresh(js, logs, j) || IsSaved(js, logs, j) || IsReady(js, logs, j)
  }

  ghost predicate OwnedPhasesOk(ets: map<EtsId, Ets>, js: JsTable, logs: VmLogs) {
    forall e: EtsId, j: JsId :: EtsOwns(ets, e, j) ==> InPhase(js, logs, j)
  }

  /** Whether the loaded ETS library can finish every preload that it can fork from. */
  predicate TableOk(t: Table) {
    t.postFork ==> t.finishPreload
  }

  ghost predicate EtsLogsOk(w: World) {
    && (forall e <- w.etsLog :: w.etsLog[e] <= ETS_SCRIPT)
    && (forall e: EtsId :: EtsRuntime(e) in w.held && EtsRuntime(e) in w.preloadMade && e in w.etsLog ==>
          w.etsLog[e] == [EtsInit])
    && (w.slot.Some? && w.slot.value.EtsRuntime? && w.slot.value.ets in w.etsLog ==>
          w.etsLog[w.slot.value.ets] == if w.table.finishPreload then [EtsInit, EtsFinishPreload] else [EtsInit])
  }

  ghost predicate Inv(w: World, loose: set<Runtime>) {
    && IdsOk(w)
    && VmsOk(w.js, w.vms.log)
    && OwnersOk(w, loose)
    && PhasesOk(w)
    && OwnedPhasesOk(w.ets, w.js, w.vms.log)
    && (TableOk(w.table) ==> EtsLogsOk(w))
  }
}
