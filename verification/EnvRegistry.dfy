/**
  `JsRuntimeLite`: the per-thread registry of child JS environments.

  Two tables guarded by one lock, the ids of the threads that have an environment and the map from engine
  pointers to environments, must stay in step while many threads create and destroy environments.
  `CreateNapiEnv` takes the lock twice, so other threads run between registering an environment and
  initialising it.
*/
module EnvRegistry {
  import opened Wrappers

  type Tid = nat
  type Env = nat
  const NULL: Env := 0

  /** An environment knows its engine and the thread that made it. */
  datatype JsEnv = JsEnv(engine: Env, thread: Tid)

  datatype Status = Ok | InvalidArg | GenericFailure | OnlyOneEnvPerThread | EnvNotExist

  datatype Registry = Registry(threadIds: set<Tid>, envMap: map<Env, JsEnv>)

  // ---------------------------------------------------------------------------------------------
  // The critical sections

  function Added(r: Registry, t: Tid, env: Env, jsEnv: JsEnv): (Registry, Status) {
    if t in r.threadIds then (r, OnlyOneEnvPerThread)
    else
      var r1 := r.(threadIds := r.threadIds + {t});
      if env !in r1.envMap then (r1.(envMap := r1.envMap[env := jsEnv]), Ok) else (r1, GenericFailure)
  }

  function Removed(r: Registry, t: Tid, env: Env): (Registry, Status) {
    var r1 := r.(threadIds := r.threadIds - {t});
    if env in r1.envMap then (r1.(envMap := r1.envMap - {env}), Ok) else (r1, EnvNotExist)
  }

  function Found(r: Registry, env: Env): Option<JsEnv> {
    if env in r.envMap then Some(r.envMap[env]) else None
  }

  /** What the engine answers when an environment is made; `engine` is NULL unless `initOk`. */
  datatype Engine = Engine(initOk: bool, engine: Env)

  /** Engine trouble is reported as success, with a null engine and nothing registered. */
  function Made(r: Registry, t: Tid, a: Engine): (Registry, Status, Env) {
    if !a.initOk || a.engine == NULL then (r, Ok, NULL)
    else
      var (r', status) := Added(r, t, a.engine, JsEnv(a.engine, t));
      (r', status, a.engine)
  }

  /** What `Init` meets once it has found the environment. */
  datatype InitAnswers = InitAnswers(vmOk: bool, preload: bool, loopOk: bool)

  function Initialised(r: Registry, env: Env, a: InitAnswers): Status {
    if Found(r, env).None? || !a.vmOk || (!a.preload && !a.loopOk) then GenericFailure else Ok
  }

  /** In debug mode an unknown environment is reported before anything is removed. */
  function Destroyed(r: Registry, t: Tid, env: Env, debugMode: bool): (Registry, Status) {
    if debugMode && (env !in r.envMap || r.envMap[env].engine == NULL) then (r, GenericFailure)
    else Removed(r, t, env)
  }

  class JsRuntimeLite {
    var threadIds: set<Tid>
    var envMap: map<Env, JsEnv>

    function Tables(): Registry
      reads this
    {
      Registry(threadIds, envMap)
    }

    constructor ()
      ensures Tables() == Registry({}, map[])
    {
      threadIds, envMap := {}, map[];
    }

    method AddEnv(t: Tid, env: Env, jsEnv: JsEnv) returns (status: Status)
      modifies this
      ensures (Tables(), status) == Added(old(Tables()), t, env, jsEnv)
      ensures status == if t in old(threadIds) then OnlyOneEnvPerThread else if env in old(envMap) then GenericFailure else Ok
      ensures threadIds == old(threadIds) + {t}
      ensures envMap == if status == Ok then old(envMap)[env := jsEnv] else old(envMap)
    {
      if t in threadIds {
        return OnlyOneEnvPerThread;
      }
      threadIds := threadIds + {t};
      if env !in envMap {
        envMap := envMap[env := jsEnv];
        return Ok;
      }
      return GenericFailure;
    }

    method RemoveJsEnv(t: Tid, env: Env) returns (status: Status)
      modifies this
      ensures (Tables(), status) == Removed(old(Tables()), t, env)
      ensures status == if env in old(envMap) then Ok else EnvNotExist
      ensures threadIds == old(threadIds) - {t} && envMap == old(envMap) - {env}
    {
      threadIds := threadIds - {t};
      if env in envMap {
        envMap := envMap - {env};
        return Ok;
      }
      return EnvNotExist;
    }

    method CreateJsEnv(t: Tid, a: Engine) returns (status: Status, engine: Env)
      modifies this
      ensures (Tables(), status, engine) == Made(old(Tables()), t, a)
      ensures !a.initOk || a.engine == NULL ==> status == Ok && engine == NULL && Tables() == old(Tables())
    {
      if !a.initOk || a.engine == NULL {
        return Ok, NULL;
      }
      status := AddEnv(t, a.engine, JsEnv(a.engine, t));
      engine := a.engine;
    }

    /** With no other thread in between: `env` is what the caller's pointer holds before and after. */
    method CreateNapiEnv(t: Tid, haveOptions: bool, a: Engine, i: InitAnswers, env: Option<Env>)
      returns (status: Status, env': Option<Env>)
      modifies this
      ensures status == Ok ==> env'.Some? && env'.value in envMap
      ensures status == Ok && NULL !in old(envMap) ==> t in threadIds && envMap[env'.value] == JsEnv(env'.value, t)
      ensures env.None? ==> status == InvalidArg && env' == env && Tables() == old(Tables())
      ensures t in old(threadIds) ==> Tables() == old(Tables())
      // The status, when null was not registered: every refusal in the order in which it is met.
      ensures NULL !in old(envMap) ==>
                status == if env.None? then InvalidArg
                          else if !haveOptions || !a.initOk || a.engine == NULL then GenericFailure
                          else if t in old(threadIds) then OnlyOneEnvPerThread
                          else if a.engine in old(envMap) || !i.vmOk || !(i.preload || i.loopOk) then GenericFailure
                          else Ok
      ensures NULL !in old(envMap) && status == Ok ==>
                env' == Some(a.engine) && envMap == old(envMap)[a.engine := JsEnv(a.engine, t)]
    {
      env' := env;
      if env.None? {
        return InvalidArg, env;
      }
      if !haveOptions {
        return GenericFailure, env;
      }
      var engine;
      status, engine := CreateJsEnv(t, a);
      if status != Ok {
        return status, env;
      }
      env' := Some(engine);
      status := Initialised(Tables(), engine, i);
    }

    /** `env` is what the caller's pointer holds before and after; in debug mode an unknown one is refused first. */
    method DestroyNapiEnv(t: Tid, env: Option<Env>, debugMode: bool) returns (status: Status, env': Option<Env>)
      modifies this
      ensures env.Some? ==> (Tables(), status) == Destroyed(old(Tables()), t, env.value, debugMode)
      ensures status == if env.None? then InvalidArg
                        else if env.value in old(envMap) && (!debugMode || old(envMap[env.value]).engine != NULL) then Ok
                        else if debugMode then GenericFailure
                        else EnvNotExist
      ensures env' == if status == Ok then Some(NULL) else env
      ensures status == Ok || status == EnvNotExist ==>
                threadIds == old(threadIds) - {t} && envMap == old(envMap) - {env.value}
      ensures status == InvalidArg || status == GenericFailure ==> Tables() == old(Tables())
    {
      env' := env;
      if env.None? {
        return InvalidArg, env;
      }
      if debugMode {
        if env.value !in envMap {
          return GenericFailure, env;
        }
        if envMap[env.value].engine == NULL {
          return GenericFailure, env;
        }
      }
      status := RemoveJsEnv(t, env.value);
      if status == Ok {
        env' := Some(NULL);
      }
    }
  }

  // ---------------------------------------------------------------------------------------------
  // The two tables in step

  /** `env` is registered and was made by `t`. */
  predicate MadeBy(envMap: map<Env, JsEnv>, env: Env, t: Tid) {
    env in envMap && envMap[env].thread == t
  }

  /** The listed threads and the registered environments match one to one, and null is not registered. */
  ghost predicate InStep(r: Registry) {
    && NULL !in r.envMap
    && (forall env <- r.envMap :: r.envMap[env].thread in r.threadIds && r.envMap[env].engine == env)
    && (forall e: Env, f: Env, t: Tid :: MadeBy(r.envMap, e, t) && MadeBy(r.envMap, f, t) ==> e == f)
    && (forall t <- r.threadIds :: exists env: Env :: MadeBy(r.envMap, env, t))
  }

  /** Registering keeps the tables in step exactly when the thread is refused or the engine is not null and new. */
  lemma AddKeepsIff(r: Registry, t: Tid, env: Env)
    requires InStep(r)
    ensures InStep(Added(r, t, env, JsEnv(env, t)).0) <==> t in r.threadIds || (env != NULL && env !in r.envMap)
  {
    var r' := Added(r, t, env, JsEnv(env, t)).0;
    if t !in r.threadIds {
      if env != NULL && env !in r.envMap {
        assert MadeBy(r'.envMap, env, t);
        assert forall e: Env, u: Tid :: MadeBy(r'.envMap, e, u) <==> MadeBy(r.envMap, e, u) || (e == env && u == t);
        assert forall e: Env :: !MadeBy(r.envMap, e, t);
        forall u | u in r.threadIds ensures exists e: Env :: MadeBy(r'.envMap, e, u) {
          var e: Env :| MadeBy(r.envMap, e, u);
          assert MadeBy(r'.envMap, e, u);
        }
      } else if env in r.envMap {
        assert t in r'.threadIds && r'.envMap == r.envMap;
        assert !exists e: Env :: MadeBy(r'.envMap, e, t);
      }
    }
  }

  /** Removing keeps the tables in step exactly when the thread names its own environment, or has none and names none. */
  lemma RemoveKeepsIff(r: Registry, t: Tid, env: Env)
    requires InStep(r)
    ensures InStep(Removed(r, t, env).0) <==>
      if env in r.envMap then r.envMap[env].thread == t else t !in r.threadIds
  {
    var r' := Removed(r, t, env).0;
    if env in r.envMap {
      if r.envMap[env].thread == t {
        assert MadeBy(r.envMap, env, t);
        forall u | u in r'.threadIds ensures exists e: Env :: MadeBy(r'.envMap, e, u) {
          var e: Env :| MadeBy(r.envMap, e, u);
          assert MadeBy(r'.envMap, e, u);
        }
        forall e | e in r'.envMap ensures r'.envMap[e].thread in r'.threadIds {
          if r'.envMap[e].thread == t { assert MadeBy(r.envMap, e, t); }
        }
        assert forall e: Env, u: Tid :: MadeBy(r'.envMap, e, u) ==> MadeBy(r.envMap, e, u);
      } else {
        var u := r.envMap[env].thread;
        assert u in r'.threadIds && MadeBy(r.envMap, env, u);
        assert forall e: Env :: MadeBy(r'.envMap, e, u) ==> MadeBy(r.envMap, e, u);
      }
    } else if t in r.threadIds {
      var e: Env :| MadeBy(r.envMap, e, t);
      assert r'.envMap[e].thread !in r'.threadIds;
    } else {
      assert r'.threadIds == r.threadIds;
    }
  }

  // ---------------------------------------------------------------------------------------------
  // Many threads

  /** Where a thread is inside `CreateNapiEnv`: between the two critical sections it remembers what the first returned. */
  datatype Pc = Outside | Registered(status: Status, engine: Env)

  datatype World = World(r: Registry, pcs: map<Tid, Pc>, results: map<Tid, (Status, Env)>)

  datatype Op =
    | BeginCreate(t: Tid, a: Engine)
    | EndCreate(t: Tid, i: InitAnswers)
    | DestroyEnv(t: Tid, env: Env, debugMode: bool)

  function PcOf(w: World, t: Tid): Pc {
    if t in w.pcs then w.pcs[t] else Outside
  }

  /** One critical section of one thread; a section the thread is not at changes nothing. */
  function Step(w: World, op: Op): World {
    match op
    case BeginCreate(t, a) =>
      if PcOf(w, t).Outside? then
        var (r, status, engine) := Made(w.r, t, a);
        w.(r := r, pcs := w.pcs[t := Registered(status, engine)])
      else w
    case EndCreate(t, i) =>
      if PcOf(w, t).Registered? then
        var pc := PcOf(w, t);
        var status := if pc.status == Ok then Initialised(w.r, pc.engine, i) else pc.status;
        w.(pcs := w.pcs[t := Outside], results := w.results[t := (status, pc.engine)])
      else w
    case DestroyEnv(t, env, debugMode) =>
      if PcOf(w, t).Outside? then w.(r := Destroyed(w.r, t, env, debugMode).0) else w
  }

  function Run(ops: seq<Op>): World {
    if ops == [] then World(Registry({}, map[]), map[], map[])
    else Step(Run(ops[..|ops| - 1]), ops[|ops| - 1])
  }

  /** Engine pointers are new, and a thread destroys its own environment or, having none, an unknown one. */
  predicate Disciplined(w: World, op: Op) {
    match op
    case BeginCreate(_, a) => a.engine !in w.r.envMap
    case EndCreate(_, _) => true
    case DestroyEnv(t, env, _) => if env in w.r.envMap then w.r.envMap[env].thread == t else t !in w.r.threadIds
  }

  predicate DisciplinedRun(ops: seq<Op>) {
    ops == [] || (DisciplinedRun(ops[..|ops| - 1]) && Disciplined(Run(ops[..|ops| - 1]), ops[|ops| - 1]))
  }

  /** A thread between its two critical sections still has the environment it registered. */
  ghost predicate Inv(w: World) {
    && InStep(w.r)
    && (forall t <- w.pcs :: w.pcs[t].Registered? && w.pcs[t].status == Ok && w.pcs[t].engine != NULL ==>
          MadeBy(w.r.envMap, w.pcs[t].engine, t))
  }

  lemma StepKeeps(w: World, op: Op)
    requires Inv(w) && Disciplined(w, op)
    ensures Inv(Step(w, op))
  {
    match op
    case BeginCreate(t, a) => AddKeepsIff(w.r, t, a.engine);
    case EndCreate(_, _) =>
    case DestroyEnv(t, env, _) => RemoveKeepsIff(w.r, t, env);
  }

  lemma {:induction false} RunKeeps(ops: seq<Op>)
    requires DisciplinedRun(ops)
    ensures Inv(Run(ops))
  {
    if ops != [] {
      RunKeeps(ops[..|ops| - 1]);
      StepKeeps(Run(ops[..|ops| - 1]), ops[|ops| - 1]);
    }
  }

  /** Every interleaving of disciplined threads keeps the two tables in step. */
  lemma TablesStayInStep(ops: seq<Op>)
    requires DisciplinedRun(ops)
    ensures InStep(Run(ops).r)
  {
    RunKeeps(ops);
  }

  lemma RunNext(ops: seq<Op>, n: nat)
    requires n < |ops|
    ensures Run(ops[..n + 1]) == Step(Run(ops[..n]), ops[n])
  {
    assert ops[..n + 1][..n] == ops[..n];
  }

  /** Thread `t` begins a create at step `b` and has not come to its end at `n`. */
  predicate Creating(ops: seq<Op>, t: Tid, a: Engine, b: nat, n: nat) {
    && b < n <= |ops| && ops[b] == BeginCreate(t, a) && PcOf(Run(ops[..b]), t).Outside?
    && (forall k :: b < k < n ==> !(ops[k].EndCreate? && ops[k].t == t))
  }

  /** Whatever the other threads do, the thread remembers what its first section returned. */
  lemma {:induction false} CreatingRemembers(ops: seq<Op>, t: Tid, a: Engine, b: nat, n: nat)
    requires Creating(ops, t, a, b, n)
    ensures var r := Run(ops[..b]).r;
            PcOf(Run(ops[..n]), t)
            == if !a.initOk || a.engine == NULL then Registered(Ok, NULL)
               else if t in r.threadIds then Registered(OnlyOneEnvPerThread, a.engine)
               else if a.engine in r.envMap then Registered(GenericFailure, a.engine)
               else Registered(Ok, a.engine)
  {
    RunNext(ops, n - 1);
    if b < n - 1 {
      CreatingRemembers(ops, t, a, b, n - 1);
    }
  }

  lemma {:induction false} PrefixDisciplined(ops: seq<Op>, n: nat)
    requires DisciplinedRun(ops) && n <= |ops|
    ensures DisciplinedRun(ops[..n])
    ensures n < |ops| ==> Disciplined(Run(ops[..n]), ops[n])
    decreases |ops|
  {
    if n < |ops| {
      var before := ops[..|ops| - 1];
      assert before[..n] == ops[..n];
      if n < |before| { PrefixDisciplined(before, n); } else { assert before == ops[..n]; }
    } else {
      assert ops[..n] == ops;
    }
  }

  /**
    In every such interleaving `CreateNapiEnv` reports success exactly when the engine was made, the thread
    had no environment when it began, the VM is there, and the create is a preload or the loop came up;
    then the environment is this thread's and is registered at that moment.  Engine trouble, which is
    reported as success inside, ends as a failure like the rest.
  */
  lemma OkMeansRegistered(ops: seq<Op>, t: Tid, a: Engine, b: nat, i: InitAnswers)
    requires DisciplinedRun(ops) && Creating(ops, t, a, b, |ops|)
    ensures var w := Step(Run(ops), EndCreate(t, i));
            && t in w.results
            && w.results[t].0 == (if !a.initOk || a.engine == NULL then GenericFailure
                                  else if t in Run(ops[..b]).r.threadIds then OnlyOneEnvPerThread
                                  else if i.vmOk && (i.preload || i.loopOk) then Ok
                                  else GenericFailure)
            && (w.results[t].0 == Ok ==>
                  w.results[t].1 == a.engine && MadeBy(w.r.envMap, a.engine, t) && t in w.r.threadIds)
  {
    RunKeeps(ops);
    PrefixDisciplined(ops, b);
    CreatingRemembers(ops, t, a, b, |ops|);
    assert ops[..|ops|] == ops;
  }

  /** A create on a thread that has an environment changes neither table and never reports success with a live engine. */
  lemma SecondCreateChangesNothing(w: World, t: Tid, a: Engine)
    requires t in w.r.threadIds
    ensures Step(w, BeginCreate(t, a)).r == w.r
    ensures PcOf(w, t).Outside? && a.initOk && a.engine != NULL ==>
      PcOf(Step(w, BeginCreate(t, a)), t) == Registered(OnlyOneEnvPerThread, a.engine)
  {
  }

  /** When `Init` fails after registering, the environment stays registered and the thread can make no other until it destroys that one. */
  lemma FailedInitStaysRegistered(ops: seq<Op>, t: Tid, i: InitAnswers)
    requires DisciplinedRun(ops) && PcOf(Run(ops), t).Registered? && PcOf(Run(ops), t).status == Ok
    requires PcOf(Run(ops), t).engine != NULL && (!i.vmOk || (!i.preload && !i.loopOk))
    ensures var w := Step(Run(ops), EndCreate(t, i));
            && w.results[t] == (GenericFailure, PcOf(Run(ops), t).engine)
            && t in w.r.threadIds && MadeBy(w.r.envMap, w.results[t].1, t)
            && Disciplined(w, DestroyEnv(t, w.results[t].1, false))
            && t !in Step(w, DestroyEnv(t, w.results[t].1, false)).r.threadIds
  {
    RunKeeps(ops);
  }
}
