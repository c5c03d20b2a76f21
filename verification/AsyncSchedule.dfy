/**
  Handing tasks over to the event loop: `NapiAsyncTask::Schedule*`, `Start*`, `SendNapiEvent`, `Execute`,
  `Complete` and the destructor, as a protocol of small steps.

  Any number of clients run `Schedule*` on tasks they own through a unique pointer, one statement at a
  time, while the worker pool and the loop run `Execute` and `Complete` on what was accepted, at any
  moment in between.  Touching a task that is no longer alive raises `fault`.
*/
module AsyncSchedule {
  import opened Wrappers

  type Env = nat
  type TaskId = nat
  type WorkId = nat
  type ClientId = nat
  type PendingId = nat

  /** The four ways to schedule: Schedule, ScheduleHighQos, ScheduleLowQos, ScheduleWithDefaultQos. */
  datatype Qos = Plain | High | Low | Default

  /** The fields of a task that the hand-over reads and writes. */
  datatype Task = Task(hasExecute: bool, work: Option<WorkId>, env: Option<Env>)

  /** Where a client is inside `Schedule*`; `Return(ok)` is the point between `Start*` and `release()`. */
  datatype Pc =
    | Idle
    | Prepare(q: Qos, maybeEnv: Option<Env>)
    | Dispatch(q: Qos, env: Env)
    | Queue(q: Qos, env: Env)
    | Return(ok: bool)

  datatype Client = Client(ptr: Option<TaskId>, pc: Pc)

  /** What the loop has accepted and not yet completed. */
  datatype Pending = PendingWork(task: TaskId, executed: bool) | PendingEvent(task: TaskId)

  datatype Work = Work(task: TaskId, q: Qos)

  /** How far the hand-over of a task got; a history variable that no step looks at. */
  datatype Stage = Owned(c: ClientId) | InLoop(p: PendingId) | Refused | FreedByOwner | FreedByLoop

  datatype State = State(
    live: map<TaskId, Task>,
    nextTask: nat,
    clients: map<ClientId, Client>,
    pending: map<PendingId, Pending>,
    nextPending: nat,
    stage: map<TaskId, Stage>,
    freedByOwner: multiset<TaskId>,
    freedByLoop: multiset<TaskId>,
    works: map<WorkId, Work>,
    nextWork: nat,
    deletedWorks: multiset<WorkId>,
    fault: bool)

  function Start(): State {
    State(map[], 0, map[], map[], 0, map[], multiset{}, multiset{}, map[], 0, multiset{}, false)
  }

  function At(s: State, c: ClientId): Client {
    if c in s.clients then s.clients[c] else Client(None, Idle)
  }

  // ---------------------------------------------------------------------------------------------
  // Steps

  datatype Step =
    | New(c: ClientId, hasExecute: bool)
    | Enter(c: ClientId, q: Qos, env: Option<Env>)
    | Advance(c: ClientId, answer: bool)  // the answer of the engine call that the statement makes
    | Drop(c: ClientId)
    | Execute(p: PendingId)
    | Complete(p: PendingId)

  function Goto(s: State, c: ClientId, pc: Pc): State {
    s.(clients := s.clients[c := At(s, c).(pc := pc)])
  }

  /** The destructor deletes the work only if both the work and the environment were recorded. */
  function Destruct(s: State, t: TaskId): State {
    if t !in s.live then s.(fault := true)
    else
      var task := s.live[t];
      s.(live := s.live - {t},
         deletedWorks := if task.work.Some? && task.env.Some? then s.deletedWorks + multiset{task.work.value}
                         else s.deletedWorks)
  }

  /** `if (work_) { napi_delete_async_work(env, work_); work_ = nullptr; }`, then the null check of `env`. */
  function StepPrepare(s: State, c: ClientId, t: TaskId, q: Qos, env: Option<Env>): State
    requires t in s.live
  {
    var task := s.live[t];
    var s1 :=
      if task.work.Some? then
        s.(live := s.live[t := task.(work := None)],
           deletedWorks := if env.Some? then s.deletedWorks + multiset{task.work.value} else s.deletedWorks)
      else s;
    Goto(s1, c, if env.Some? then Dispatch(q, env.value) else Return(false))
  }

  /** A task without an execute callback goes to the loop as an event; the others get an async work. */
  function StepDispatch(s: State, c: ClientId, t: TaskId, q: Qos, env: Env, answer: bool): State
    requires t in s.live
  {
    var task := s.live[t];
    if !task.hasExecute then
      var s1 := if q == High || q == Low then s.(live := s.live[t := task.(env := Some(env))]) else s;
      if answer then
        Goto(s1.(pending := s1.pending[s1.nextPending := PendingEvent(t)], nextPending := s1.nextPending + 1,
                 stage := s1.stage[t := InLoop(s1.nextPending)]), c, Return(true))
      else Goto(s1, c, Return(false))
    else
      var env' := if q == Default then task.env else Some(env);
      if answer then
        Goto(s.(live := s.live[t := task.(env := env', work := Some(s.nextWork))],
                works := s.works[s.nextWork := Work(t, q)], nextWork := s.nextWork + 1), c, Queue(q, env))
      else Goto(s.(live := s.live[t := task.(env := env', work := None)]), c, Queue(q, env))
  }

  /** The queueing call; its result is not looked at, and `Start*` returns true. */
  function StepQueue(s: State, c: ClientId, t: TaskId, answer: bool): State
    requires t in s.live
  {
    if answer && s.live[t].work.Some? then
      Goto(s.(pending := s.pending[s.nextPending := PendingWork(t, false)], nextPending := s.nextPending + 1,
              stage := s.stage[t := InLoop(s.nextPending)]), c, Return(true))
    else Goto(s.(stage := s.stage[t := Refused]), c, Return(true))
  }

  /** The next statement of `Schedule*` in client `c`. */
  function StepAdvance(s: State, c: ClientId, answer: bool): State {
    var cl := At(s, c);
    if cl.ptr.None? || cl.pc.Idle? then s
    else if cl.pc == Return(true) then s.(clients := s.clients[c := Client(None, Idle)])
    else if cl.pc == Return(false) then Goto(s, c, Idle)
    else
      var t := cl.ptr.value;
      if t !in s.live then s.(fault := true)
      else if cl.pc.Prepare? then StepPrepare(s, c, t, cl.pc.q, cl.pc.maybeEnv)
      else if cl.pc.Dispatch? then StepDispatch(s, c, t, cl.pc.q, cl.pc.env, answer)
      else StepQueue(s, c, t, answer)
  }

  function StepComplete(s: State, p: PendingId): State
    requires p in s.pending
  {
    var t := s.pending[p].task;
    Destruct(s.(pending := s.pending - {p}, freedByLoop := s.freedByLoop + multiset{t},
                 stage := s.stage[t := FreedByLoop]), t)
  }

  /** A step that is not enabled changes nothing. */
  function Next(s: State, step: Step): State {
    match step
    case New(c, hasExecute) =>
      if At(s, c) == Client(None, Idle) then
        s.(live := s.live[s.nextTask := Task(hasExecute, None, None)], nextTask := s.nextTask + 1,
           clients := s.clients[c := Client(Some(s.nextTask), Idle)], stage := s.stage[s.nextTask := Owned(c)])
      else s
    case Enter(c, q, env) =>
      if At(s, c).pc.Idle? && At(s, c).ptr.Some? then Goto(s, c, Prepare(q, env)) else s
    case Advance(c, answer) => StepAdvance(s, c, answer)
    case Drop(c) =>
      if At(s, c).pc.Idle? && At(s, c).ptr.Some? then
        var t := At(s, c).ptr.value;
        Destruct(s.(clients := s.clients[c := Client(None, Idle)],
                    freedByOwner := s.freedByOwner + multiset{t}, stage := s.stage[t := FreedByOwner]), t)
      else s
    case Execute(p) =>
      if p in s.pending && s.pending[p].PendingWork? && !s.pending[p].executed then
        if s.pending[p].task !in s.live then s.(fault := true)
        else s.(pending := s.pending[p := PendingWork(s.pending[p].task, true)])
      else s
    case Complete(p) =>
      if p in s.pending && (s.pending[p].PendingEvent? || s.pending[p].executed) then StepComplete(s, p) else s
  }

  function Run(steps: seq<Step>): State {
    if steps == [] then Start() else Next(Run(steps[..|steps| - 1]), steps[|steps| - 1])
  }

  // ---------------------------------------------------------------------------------------------
  // What every step keeps

  type Stages = map<TaskId, Stage>
  type Clients = map<ClientId, Client>
  type Pendings = map<PendingId, Pending>

  /** Each task is where its stage says. */
  ghost predicate StagesOk(stage: Stages, clients: Clients, pending: Pendings) {
    && (forall t <- stage :: stage[t].Owned? ==>
          stage[t].c in clients && clients[stage[t].c].ptr == Some(t) && clients[stage[t].c].pc != Return(true))
    && (forall t <- stage :: stage[t].InLoop? ==> stage[t].p in pending && pending[stage[t].p].task == t)
  }

  predicate IsFreed(stage: Stage) {
    stage.FreedByOwner? || stage.FreedByLoop?
  }

  /** Exactly the tasks made so far have a stage, and they are alive until they are freed. */
  ghost predicate LiveOk(stage: Stages, live: map<TaskId, Task>, nextTask: nat) {
    && (forall t: TaskId :: t in stage <==> t < nextTask)
    && (forall t <- stage :: t in live <==> !IsFreed(stage[t]))
    && (forall t <- live :: t in stage)
  }

  /** A client's pointer is the owner of its task, except between the hand-over and `release()`. */
  ghost predicate ClientsOk(clients: Clients, stage: Stages) {
    && (forall c <- clients :: !clients[c].pc.Idle? ==> clients[c].ptr.Some?)
    && (forall c <- clients :: clients[c].ptr.Some? ==> clients[c].ptr.value in stage)
    && (forall c <- clients :: clients[c].ptr.Some? ==>
          if clients[c].pc == Return(true) then !stage[clients[c].ptr.value].Owned?
          else stage[clients[c].ptr.value] == Owned(c))
  }

  ghost predicate LoopOk(pending: Pendings, nextPending: nat, stage: Stages) {
    forall p <- pending :: p < nextPending && pending[p].task in stage && stage[pending[p].task] == InLoop(p)
  }

  ghost predicate FreedOk(stage: Stages, byOwner: multiset<TaskId>, byLoop: multiset<TaskId>) {
    && (forall t: TaskId :: byOwner[t] == if t in stage && stage[t].FreedByOwner? then 1 else 0)
    && (forall t: TaskId :: byLoop[t] == if t in stage && stage[t].FreedByLoop? then 1 else 0)
  }

  /** A task that its owner has not yet queued has no work, and no environment if it will need a work. */
  ghost predicate UnqueuedOk(clients: Clients, live: map<TaskId, Task>) {
    forall c <- clients :: clients[c].ptr.Some? && !clients[c].pc.Queue? && clients[c].pc != Return(true) ==>
      && clients[c].ptr.value in live && live[clients[c].ptr.value].work.None?
      && (live[clients[c].ptr.value].hasExecute ==> live[clients[c].ptr.value].env.None?)
  }

  /** A live task has its work; a freed one has had it deleted once, unless it was made with default QoS. */
  ghost predicate WorksOk(works: map<WorkId, Work>, nextWork: nat, live: map<TaskId, Task>, nextTask: nat,
                          deleted: multiset<WorkId>) {
    && (forall w <- works :: w < nextWork && works[w].task < nextTask)
    && (forall w <- works :: works[w].task in live ==> live[works[w].task].work == Some(w))
    && (forall w <- works :: deleted[w] == if works[w].task in live || works[w].q == Default then 0 else 1)
    && (forall t <- live :: live[t].work.Some? ==>
          && live[t].work.value in works && works[live[t].work.value].task == t
          && (live[t].env.Some? <==> works[live[t].work.value].q != Default))
    && (forall w <- deleted :: w in works)
  }

  ghost predicate OwnersOk(s: State) {
    && !s.fault
    && StagesOk(s.stage, s.clients, s.pending)
    && LiveOk(s.stage, s.live, s.nextTask)
    && ClientsOk(s.clients, s.stage)
    && LoopOk(s.pending, s.nextPending, s.stage)
  }

  ghost predicate AssetsOk(s: State) {
    UnqueuedOk(s.clients, s.live) && WorksOk(s.works, s.nextWork, s.live, s.nextTask, s.deletedWorks)
  }

  ghost predicate Inv(s: State) {
    OwnersOk(s) && FreedOk(s.stage, s.freedByOwner, s.freedByLoop) && AssetsOk(s)
  }

  // The owners, one change at a time

  /** What is known of a client in the middle of `Schedule*`, before the hand-over. */
  lemma Owner(s: State, c: ClientId)
    requires OwnersOk(s) && At(s, c).ptr.Some? && At(s, c).pc != Return(true)
    ensures c in s.clients && s.clients[c].ptr.value in s.live
    ensures s.clients[c].ptr.value in s.stage && s.stage[s.clients[c].ptr.value] == Owned(c)
  {
  }

  lemma MovePc(s: State, c: ClientId, pc: Pc)
    requires OwnersOk(s) && At(s, c).ptr.Some? && At(s, c).pc != Return(true) && pc != Return(true)
    ensures OwnersOk(Goto(s, c, pc))
  {
  }

  /** Fields of a live task, and the record of works, are no concern of the owners. */
  lemma WriteTask(s: State, s': State, t: TaskId)
    requires OwnersOk(s) && t in s.live && t in s'.live
    requires s' == s.(live := s.live[t := s'.live[t]], works := s'.works, nextWork := s'.nextWork,
                      deletedWorks := s'.deletedWorks)
    ensures OwnersOk(s')
  {
  }

  lemma HandOverClients(clients: Clients, stage: Stages, c: ClientId, t: TaskId, g: Stage)
    requires ClientsOk(clients, stage) && c in clients && clients[c].ptr == Some(t) && clients[c].pc != Return(true)
    requires !g.Owned?
    ensures ClientsOk(clients[c := Client(Some(t), Return(true))], stage[t := g])
    ensures ClientsOk(clients[c := Client(None, Idle)], stage[t := g])
  {
  }

  lemma HandOverStages(stage: Stages, clients: Clients, pending: Pendings, c: ClientId, t: TaskId, p: PendingId, x: Pending)
    requires StagesOk(stage, clients, pending) && ClientsOk(clients, stage) && p !in pending && x.task == t
    requires c in clients && clients[c].ptr == Some(t) && clients[c].pc != Return(true)
    ensures StagesOk(stage[t := InLoop(p)], clients[c := Client(Some(t), Return(true))], pending[p := x])
    ensures StagesOk(stage[t := Refused], clients[c := Client(Some(t), Return(true))], pending)
    ensures StagesOk(stage[t := FreedByOwner], clients[c := Client(None, Idle)], pending)
  {
  }

  /** The instant at which the loop accepts a task: from here on the client must not touch it. */
  lemma Accept(s: State, c: ClientId, t: TaskId, x: Pending)
    requires OwnersOk(s) && At(s, c).ptr == Some(t) && At(s, c).pc != Return(true) && x.task == t
    ensures OwnersOk(Goto(s.(pending := s.pending[s.nextPending := x], nextPending := s.nextPending + 1,
                             stage := s.stage[t := InLoop(s.nextPending)]), c, Return(true)))
  {
    hide ClientsOk, StagesOk;
    Owner(s, c);
    HandOverClients(s.clients, s.stage, c, t, InLoop(s.nextPending));
    HandOverStages(s.stage, s.clients, s.pending, c, t, s.nextPending, x);
  }

  lemma Refuse(s: State, c: ClientId, t: TaskId)
    requires OwnersOk(s) && At(s, c).ptr == Some(t) && At(s, c).pc != Return(true)
    ensures OwnersOk(Goto(s.(stage := s.stage[t := Refused]), c, Return(true)))
  {
    hide ClientsOk, StagesOk;
    Owner(s, c);
    HandOverClients(s.clients, s.stage, c, t, Refused);
    HandOverStages(s.stage, s.clients, s.pending, c, t, s.nextPending, PendingEvent(t));
  }

  lemma NewClient(s: State, c: ClientId)
    requires OwnersOk(s) && At(s, c) == Client(None, Idle)
    ensures s.nextTask !in s.stage
    ensures ClientsOk(s.clients[c := Client(Some(s.nextTask), Idle)], s.stage[s.nextTask := Owned(c)])
  {
    hide StagesOk, LoopOk;
  }

  lemma NewStages(s: State, c: ClientId)
    requires OwnersOk(s) && At(s, c) == Client(None, Idle)
    ensures StagesOk(s.stage[s.nextTask := Owned(c)], s.clients[c := Client(Some(s.nextTask), Idle)], s.pending)
  {
    hide LoopOk, ClientsOk;
  }

  lemma NewOwners(s: State, c: ClientId, hasExecute: bool)
    requires OwnersOk(s)
    ensures OwnersOk(Next(s, New(c, hasExecute)))
  {
    if At(s, c) == Client(None, Idle) {
      hide ClientsOk, StagesOk;
      NewClient(s, c);
      NewStages(s, c);
    }
  }

  lemma FreedLive(s: State, t: TaskId, stage: Stages)
    requires LiveOk(s.stage, s.live, s.nextTask) && t in s.live && stage == s.stage[t := FreedByOwner]
    ensures LiveOk(stage, s.live - {t}, s.nextTask)
  {
  }

  lemma OthersInLoop(s: State, t: TaskId, c: ClientId)
    requires LoopOk(s.pending, s.nextPending, s.stage) && t in s.stage && s.stage[t] == Owned(c)
    ensures LoopOk(s.pending, s.nextPending, s.stage[t := FreedByOwner])
  {
  }

  lemma DropOwners(s: State, c: ClientId)
    requires OwnersOk(s)
    ensures OwnersOk(Next(s, Drop(c)))
  {
    if At(s, c).pc.Idle? && At(s, c).ptr.Some? {
      var t := At(s, c).ptr.value;
      hide ClientsOk, StagesOk;
      Owner(s, c);
      FreedLive(s, t, s.stage[t := FreedByOwner]);
      OthersInLoop(s, t, c);
      hide LiveOk, LoopOk;
      HandOverClients(s.clients, s.stage, c, t, FreedByOwner);
      HandOverStages(s.stage, s.clients, s.pending, c, t, s.nextPending, PendingEvent(t));
    }
  }

  lemma ExecuteOwners(s: State, p: PendingId)
    requires OwnersOk(s)
    ensures OwnersOk(Next(s, Execute(p)))
  {
  }

  lemma LoopLetsGo(s: State, p: PendingId, t: TaskId)
    requires OwnersOk(s) && p in s.pending && s.pending[p].task == t
    ensures t in s.live && s.stage[t] == InLoop(p)
    ensures StagesOk(s.stage[t := FreedByLoop], s.clients, s.pending - {p})
    ensures LoopOk(s.pending - {p}, s.nextPending, s.stage[t := FreedByLoop])
  {
    hide ClientsOk;
  }

  lemma LoopClients(s: State, p: PendingId, t: TaskId)
    requires ClientsOk(s.clients, s.stage) && t in s.stage && s.stage[t] == InLoop(p)
    ensures ClientsOk(s.clients, s.stage[t := FreedByLoop])
  {
  }

  lemma CompleteOwners(s: State, p: PendingId)
    requires OwnersOk(s)
    ensures OwnersOk(Next(s, Complete(p)))
  {
    if p in s.pending {
      hide ClientsOk, StagesOk, LoopOk;
      LoopLetsGo(s, p, s.pending[p].task);
      LoopClients(s, p, s.pending[p].task);
    }
  }

  lemma PrepareOwners(s: State, c: ClientId)
    requires OwnersOk(s) && At(s, c).pc.Prepare? && At(s, c).ptr.Some?
    ensures OwnersOk(StepAdvance(s, c, true)) && OwnersOk(StepAdvance(s, c, false))
  {
    hide OwnersOk;
    Owner(s, c);
    var t, env := s.clients[c].ptr.value, s.clients[c].pc.maybeEnv;
    var task := s.live[t];
    var s1 :=
      if task.work.Some? then
        s.(live := s.live[t := task.(work := None)],
           deletedWorks := if env.Some? then s.deletedWorks + multiset{task.work.value} else s.deletedWorks)
      else s;
    if task.work.Some? { WriteTask(s, s1, t); }
    MovePc(s1, c, if env.Some? then Dispatch(s.clients[c].pc.q, env.value) else Return(false));
  }

  lemma DispatchOwners(s: State, c: ClientId, answer: bool)
    requires OwnersOk(s) && At(s, c).pc.Dispatch? && At(s, c).ptr.Some?
    ensures OwnersOk(StepAdvance(s, c, answer))
  {
    hide OwnersOk;
    Owner(s, c);
    var t, q, env := s.clients[c].ptr.value, s.clients[c].pc.q, s.clients[c].pc.env;
    var task := s.live[t];
    if !task.hasExecute {
      var s1 := if q == High || q == Low then s.(live := s.live[t := task.(env := Some(env))]) else s;
      if s1 != s { WriteTask(s, s1, t); }
      if answer { Accept(s1, c, t, PendingEvent(t)); } else { MovePc(s1, c, Return(false)); }
    } else {
      var env' := if q == Default then task.env else Some(env);
      var s1 :=
        if answer then
          s.(live := s.live[t := task.(env := env', work := Some(s.nextWork))],
             works := s.works[s.nextWork := Work(t, q)], nextWork := s.nextWork + 1)
        else s.(live := s.live[t := task.(env := env', work := None)]);
      WriteTask(s, s1, t);
      MovePc(s1, c, Queue(q, env));
    }
  }

  lemma QueueOwners(s: State, c: ClientId, answer: bool)
    requires OwnersOk(s) && At(s, c).pc.Queue? && At(s, c).ptr.Some?
    ensures OwnersOk(StepAdvance(s, c, answer))
  {
    hide OwnersOk;
    Owner(s, c);
    var t := s.clients[c].ptr.value;
    if answer && s.live[t].work.Some? { Accept(s, c, t, PendingWork(t, false)); } else { Refuse(s, c, t); }
  }

  lemma ReleaseOwners(s: State, c: ClientId)
    requires OwnersOk(s) && At(s, c).pc == Return(true)
    ensures OwnersOk(s.(clients := s.clients[c := Client(None, Idle)]))
  {
  }

  lemma AdvanceOwners(s: State, c: ClientId, answer: bool)
    requires OwnersOk(s)
    ensures OwnersOk(StepAdvance(s, c, answer))
  {
    hide OwnersOk;
    var cl := At(s, c);
    if cl.ptr.Some? && !cl.pc.Idle? {
      match cl.pc
      case Prepare(_, _) => PrepareOwners(s, c);
      case Dispatch(_, _) => DispatchOwners(s, c, answer);
      case Queue(_, _) => QueueOwners(s, c, answer);
      case Return(ok) => if ok { ReleaseOwners(s, c); } else { MovePc(s, c, Idle); }
    }
  }

  // Works and environments

  lemma DestructWorks(s: State, t: TaskId)
    requires t in s.live && WorksOk(s.works, s.nextWork, s.live, s.nextTask, s.deletedWorks)
    ensures WorksOk(s.works, s.nextWork, s.live - {t}, s.nextTask, Destruct(s, t).deletedWorks)
  {
  }

  lemma NewAssets(s: State, c: ClientId, hasExecute: bool)
    requires OwnersOk(s) && AssetsOk(s)
    ensures AssetsOk(Next(s, New(c, hasExecute)))
  {
  }

  lemma DropAssets(s: State, c: ClientId)
    requires OwnersOk(s) && AssetsOk(s)
    ensures AssetsOk(Next(s, Drop(c)))
  {
    if At(s, c).pc.Idle? && At(s, c).ptr.Some? {
      Owner(s, c);
      DestructWorks(s, At(s, c).ptr.value);
      hide WorksOk, StagesOk, LoopOk, LiveOk;
    }
  }

  /** The loop frees a task that no client owns any more. */
  lemma CompleteAssets(s: State, p: PendingId)
    requires OwnersOk(s) && AssetsOk(s)
    ensures AssetsOk(Next(s, Complete(p)))
  {
    if p in s.pending {
      var t := s.pending[p].task;
      assert t in s.live && s.stage[t] == InLoop(p);
      DestructWorks(s, t);
      LoopFrees(s, t);
    }
    hide WorksOk, UnqueuedOk;
  }

  lemma LoopFrees(s: State, t: TaskId)
    requires ClientsOk(s.clients, s.stage) && UnqueuedOk(s.clients, s.live) && t in s.stage && s.stage[t].InLoop?
    ensures UnqueuedOk(s.clients, s.live - {t})
  {
  }

  /** The owner of a task writes to it and moves on; no other client is concerned. */
  lemma OwnerWrites(clients: Clients, stage: Stages, live: map<TaskId, Task>, c: ClientId, t: TaskId, task: Task, pc: Pc)
    requires ClientsOk(clients, stage) && UnqueuedOk(clients, live) && t in live
    requires c in clients && clients[c].ptr == Some(t) && clients[c].pc != Return(true)
    requires pc.Queue? || pc == Return(true) || (task.work.None? && (task.hasExecute ==> task.env.None?))
    ensures UnqueuedOk(clients[c := Client(Some(t), pc)], live[t := task])
  {
  }

  lemma WorklessWrite(s: State, t: TaskId, task: Task)
    requires t in s.live && s.live[t].work.None? && task.work.None?
    requires WorksOk(s.works, s.nextWork, s.live, s.nextTask, s.deletedWorks)
    ensures WorksOk(s.works, s.nextWork, s.live[t := task], s.nextTask, s.deletedWorks)
  {
  }

  lemma WorkMade(s: State, t: TaskId, task: Task, q: Qos)
    requires t in s.live && t < s.nextTask && s.live[t].work.None? && task.work == Some(s.nextWork)
    requires task.env.Some? <==> q != Default
    requires WorksOk(s.works, s.nextWork, s.live, s.nextTask, s.deletedWorks)
    ensures WorksOk(s.works[s.nextWork := Work(t, q)], s.nextWork + 1, s.live[t := task], s.nextTask, s.deletedWorks)
  {
  }

  lemma OwnedTask(s: State, c: ClientId)
    requires OwnersOk(s) && AssetsOk(s) && At(s, c).ptr.Some? && At(s, c).pc != Return(true)
    ensures c in s.clients && s.clients[c].ptr.value in s.live && s.clients[c].ptr.value < s.nextTask
    ensures !s.clients[c].pc.Queue? ==>
      && s.live[s.clients[c].ptr.value].work.None?
      && (s.live[s.clients[c].ptr.value].hasExecute ==> s.live[s.clients[c].ptr.value].env.None?)
  {
  }

  lemma SendAssets(s: State, c: ClientId, answer: bool)
    requires OwnersOk(s) && AssetsOk(s) && At(s, c).pc.Dispatch? && At(s, c).ptr.Some?
    requires At(s, c).ptr.value in s.live && !s.live[At(s, c).ptr.value].hasExecute
    ensures AssetsOk(StepAdvance(s, c, answer))
  {
    OwnedTask(s, c);
    hide StagesOk, LoopOk, LiveOk, ClientsOk, UnqueuedOk, WorksOk;
    var t, q, env := s.clients[c].ptr.value, s.clients[c].pc.q, s.clients[c].pc.env;
    var task := s.live[t];
    var task' := if q == High || q == Low then task.(env := Some(env)) else task;
    WorklessWrite(s, t, task');
    OwnerWrites(s.clients, s.stage, s.live, c, t, task', Return(answer));
    assert task' == task ==> s.live[t := task'] == s.live;
  }

  /** The task as it is after the engine was asked for a work. */
  function WithWork(s: State, task: Task, q: Qos, env: Env, answer: bool): Task {
    task.(env := if q == Default then task.env else Some(env), work := if answer then Some(s.nextWork) else None)
  }

  lemma MakesWork(s: State, c: ClientId, t: TaskId, q: Qos, env: Env, answer: bool)
    requires At(s, c).ptr == Some(t) && At(s, c).pc == Dispatch(q, env) && t in s.live && s.live[t].hasExecute
    ensures var s' := StepAdvance(s, c, answer);
            && s'.live == s.live[t := WithWork(s, s.live[t], q, env, answer)]
            && s'.clients == s.clients[c := Client(Some(t), Queue(q, env))]
            && s'.works == (if answer then s.works[s.nextWork := Work(t, q)] else s.works)
            && s'.nextWork == (if answer then s.nextWork + 1 else s.nextWork)
            && s'.nextTask == s.nextTask && s'.deletedWorks == s.deletedWorks
  {
  }

  lemma MakeWorkAssets(s: State, c: ClientId, answer: bool)
    requires OwnersOk(s) && AssetsOk(s) && At(s, c).pc.Dispatch? && At(s, c).ptr.Some?
    requires At(s, c).ptr.value in s.live && s.live[At(s, c).ptr.value].hasExecute
    ensures AssetsOk(StepAdvance(s, c, answer))
  {
    OwnedTask(s, c);
    hide StagesOk, LoopOk, LiveOk, ClientsOk, UnqueuedOk, WorksOk, StepAdvance;
    var t, q, env := s.clients[c].ptr.value, s.clients[c].pc.q, s.clients[c].pc.env;
    MakesWork(s, c, t, q, env, answer);
    var task' := WithWork(s, s.live[t], q, env, answer);
    if answer { WorkMade(s, t, task', q); } else { WorklessWrite(s, t, task'); }
    OwnerWrites(s.clients, s.stage, s.live, c, t, task', Queue(q, env));
  }

  lemma DispatchAssets(s: State, c: ClientId, answer: bool)
    requires OwnersOk(s) && AssetsOk(s) && At(s, c).pc.Dispatch? && At(s, c).ptr.Some?
    ensures AssetsOk(StepAdvance(s, c, answer))
  {
    hide AssetsOk, StepAdvance;
    Owner(s, c);
    hide OwnersOk;
    if s.live[At(s, c).ptr.value].hasExecute { MakeWorkAssets(s, c, answer); } else { SendAssets(s, c, answer); }
  }

  lemma AdvanceAssets(s: State, c: ClientId, answer: bool)
    requires OwnersOk(s) && AssetsOk(s)
    ensures AssetsOk(StepAdvance(s, c, answer))
  {
    var cl := At(s, c);
    if cl.ptr.Some? && !cl.pc.Idle? && cl.pc != Return(true) {
      OwnedTask(s, c);
      hide StagesOk, LoopOk, LiveOk, ClientsOk, UnqueuedOk, WorksOk;
      var t := cl.ptr.value;
      assert s.live[t := s.live[t]] == s.live;
      match cl.pc
      case Prepare(q, env) =>
        OwnerWrites(s.clients, s.stage, s.live, c, t, s.live[t],
                    if env.Some? then Dispatch(q, env.value) else Return(false));
      case Dispatch(_, _) => DispatchAssets(s, c, answer);
      case Queue(_, _) => OwnerWrites(s.clients, s.stage, s.live, c, t, s.live[t], Return(true));
      case Return(_) => OwnerWrites(s.clients, s.stage, s.live, c, t, s.live[t], Idle);
    } else if cl.pc == Return(true) && cl.ptr.Some? {
      ReleaseAssets(s.clients, s.live, c);
      hide WorksOk, UnqueuedOk;
    }
  }

  lemma ReleaseAssets(clients: Clients, live: map<TaskId, Task>, c: ClientId)
    requires UnqueuedOk(clients, live)
    ensures UnqueuedOk(clients[c := Client(None, Idle)], live)
  {
  }

  // ---------------------------------------------------------------------------------------------
  // Every run

  lemma NextKeeps(s: State, step: Step)
    requires Inv(s)
    ensures Inv(Next(s, step))
  {
    match step {
      case New(c, hasExecute) => NewOwners(s, c, hasExecute); NewAssets(s, c, hasExecute);
      case Enter(c, q, env) => EnterKeeps(s, c, q, env);
      case Advance(c, answer) => AdvanceOwners(s, c, answer); AdvanceAssets(s, c, answer);
      case Drop(c) => DropOwners(s, c); DropAssets(s, c);
      case Execute(p) => ExecuteOwners(s, p);
      case Complete(p) => CompleteOwners(s, p); CompleteAssets(s, p);
    }
    hide OwnersOk, AssetsOk;
    FreedKept(s, step);
  }

  lemma EnterKeeps(s: State, c: ClientId, q: Qos, env: Option<Env>)
    requires Inv(s)
    ensures Inv(Next(s, Enter(c, q, env)))
  {
  }

  // What each step does to the stages

  /** The step takes the pointer of an idle client. */
  predicate Drops(s: State, c: ClientId) {
    At(s, c).pc.Idle? && At(s, c).ptr.Some?
  }

  predicate Completes(s: State, p: PendingId) {
    p in s.pending && (s.pending[p].PendingEvent? || s.pending[p].executed)
  }

  lemma NewStage(s: State, c: ClientId, hasExecute: bool)
    ensures var s' := Next(s, New(c, hasExecute));
            && s'.stage == (if At(s, c) == Client(None, Idle) then s.stage[s.nextTask := Owned(c)] else s.stage)
            && s'.freedByOwner == s.freedByOwner && s'.freedByLoop == s.freedByLoop
  {
  }

  lemma DropStage(s: State, c: ClientId)
    ensures var s' := Next(s, Drop(c));
            && s'.stage == (if Drops(s, c) then s.stage[At(s, c).ptr.value := FreedByOwner] else s.stage)
            && s'.freedByOwner == (if Drops(s, c) then s.freedByOwner + multiset{At(s, c).ptr.value} else s.freedByOwner)
            && s'.freedByLoop == s.freedByLoop
  {
  }

  lemma CompleteStage(s: State, p: PendingId)
    ensures var s' := Next(s, Complete(p));
            && s'.stage == (if Completes(s, p) then s.stage[s.pending[p].task := FreedByLoop] else s.stage)
            && s'.freedByLoop == (if Completes(s, p) then s.freedByLoop + multiset{s.pending[p].task} else s.freedByLoop)
            && s'.freedByOwner == s.freedByOwner
  {
  }

  lemma QuietStage(s: State, step: Step)
    requires step.Enter? || step.Execute?
    ensures var s' := Next(s, step);
            s'.stage == s.stage && s'.freedByOwner == s.freedByOwner && s'.freedByLoop == s.freedByLoop
  {
  }

  lemma NextAdvance(s: State, c: ClientId, answer: bool)
    ensures Next(s, Advance(c, answer)) == StepAdvance(s, c, answer)
  {
  }

  /** From `s` to `s'` at most the task `t` is restaged, handed over or refused, and nothing is freed. */
  predicate HandsOver(s: State, s': State, t: TaskId) {
    && s'.freedByOwner == s.freedByOwner && s'.freedByLoop == s.freedByLoop
    && (s'.stage == s.stage || s'.stage == s.stage[t := Refused] || s'.stage == s.stage[t := InLoop(s.nextPending)])
  }

  lemma PrepareHandsOver(s: State, c: ClientId, t: TaskId, q: Qos, env: Option<Env>)
    requires t in s.live
    ensures HandsOver(s, StepPrepare(s, c, t, q, env), t)
  {
  }

  lemma DispatchHandsOver(s: State, c: ClientId, t: TaskId, q: Qos, env: Env, answer: bool)
    requires t in s.live
    ensures HandsOver(s, StepDispatch(s, c, t, q, env, answer), t)
  {
  }

  lemma QueueHandsOver(s: State, c: ClientId, t: TaskId, answer: bool)
    requires t in s.live
    ensures HandsOver(s, StepQueue(s, c, t, answer), t)
  {
  }

  /** A client in `Schedule*` restages its own task or none, and frees nothing. */
  lemma AdvanceHandsOver(s: State, c: ClientId, answer: bool)
    requires At(s, c).ptr.Some?
    ensures HandsOver(s, StepAdvance(s, c, answer), At(s, c).ptr.value)
    ensures At(s, c).pc == Return(true) ==> StepAdvance(s, c, answer).stage == s.stage
  {
    hide StepPrepare, StepDispatch, StepQueue;
    var cl := At(s, c);
    if cl.ptr.value in s.live {
      match cl.pc
      case Prepare(q, env) => PrepareHandsOver(s, c, cl.ptr.value, q, env);
      case Dispatch(q, env) => DispatchHandsOver(s, c, cl.ptr.value, q, env, answer);
      case Queue(_, _) => QueueHandsOver(s, c, cl.ptr.value, answer);
      case _ =>
    }
  }

  lemma AdvanceNothing(s: State, c: ClientId, answer: bool)
    requires At(s, c).ptr.None?
    ensures StepAdvance(s, c, answer) == s
  {
  }

  lemma NextIsUnstaged(s: State)
    requires OwnersOk(s)
    ensures s.nextTask !in s.stage
  {
  }

  lemma PendingIsInLoop(s: State, p: PendingId)
    requires OwnersOk(s) && p in s.pending
    ensures s.pending[p].task in s.stage && s.stage[s.pending[p].task] == InLoop(p)
  {
  }

  /** A task that was not freed yet enters a new stage; only the two freed stages are counted. */
  lemma Restage(stage: Stages, byOwner: multiset<TaskId>, byLoop: multiset<TaskId>, t: TaskId, g: Stage)
    requires FreedOk(stage, byOwner, byLoop) && (t in stage ==> !IsFreed(stage[t])) && !IsFreed(g)
    ensures FreedOk(stage[t := g], byOwner, byLoop)
  {
  }

  lemma RestageFreed(stage: Stages, byOwner: multiset<TaskId>, byLoop: multiset<TaskId>, t: TaskId)
    requires FreedOk(stage, byOwner, byLoop) && (t in stage ==> !IsFreed(stage[t]))
    ensures FreedOk(stage[t := FreedByOwner], byOwner + multiset{t}, byLoop)
  {
  }

  lemma RestageCompleted(stage: Stages, byOwner: multiset<TaskId>, byLoop: multiset<TaskId>, t: TaskId)
    requires FreedOk(stage, byOwner, byLoop) && (t in stage ==> !IsFreed(stage[t]))
    ensures FreedOk(stage[t := FreedByLoop], byOwner, byLoop + multiset{t})
  {
  }

  lemma FreedKept(s: State, step: Step)
    requires Inv(s)
    ensures var s' := Next(s, step); FreedOk(s'.stage, s'.freedByOwner, s'.freedByLoop)
  {
    hide Next, OwnersOk, AssetsOk, FreedOk, StepAdvance;
    match step
    case New(c, hasExecute) =>
      NewStage(s, c, hasExecute);
      NextIsUnstaged(s);
      Restage(s.stage, s.freedByOwner, s.freedByLoop, s.nextTask, Owned(c));
    case Enter(_, _, _) => QuietStage(s, step);
    case Advance(c, answer) =>
      NextAdvance(s, c, answer);
      if At(s, c).ptr.None? {
        AdvanceNothing(s, c, answer);
      } else {
        AdvanceHandsOver(s, c, answer);
        if At(s, c).pc != Return(true) {
          Owner(s, c);
          Restage(s.stage, s.freedByOwner, s.freedByLoop, At(s, c).ptr.value, Refused);
          Restage(s.stage, s.freedByOwner, s.freedByLoop, At(s, c).ptr.value, InLoop(s.nextPending));
        }
      }
    case Drop(c) =>
      DropStage(s, c);
      if Drops(s, c) {
        Owner(s, c);
        RestageFreed(s.stage, s.freedByOwner, s.freedByLoop, At(s, c).ptr.value);
      }
    case Execute(_) => QuietStage(s, step);
    case Complete(p) =>
      CompleteStage(s, p);
      if Completes(s, p) {
        PendingIsInLoop(s, p);
        RestageCompleted(s.stage, s.freedByOwner, s.freedByLoop, s.pending[p].task);
      }
  }

  lemma {:induction false} RunKeeps(steps: seq<Step>)
    ensures Inv(Run(steps))
  {
    if steps != [] {
      RunKeeps(steps[..|steps| - 1]);
      NextKeeps(Run(steps[..|steps| - 1]), steps[|steps| - 1]);
    }
  }

  /** In no interleaving is a task touched after it was freed, not even between the hand-over and `release()`. */
  lemma NeverTouchedAfterFree(steps: seq<Step>)
    ensures !Run(steps).fault
  {
    RunKeeps(steps);
  }

  /** In no interleaving is a task freed twice, by whomever. */
  lemma FreedAtMostOnce(steps: seq<Step>, t: TaskId)
    ensures var s := Run(steps); s.freedByOwner[t] + s.freedByLoop[t] <= 1
  {
    RunKeeps(steps);
  }

  /** Nothing is in flight: every client has let go of its pointer and the loop has nothing pending. */
  ghost predicate AtRest(s: State) {
    (forall p: PendingId :: p !in s.pending) && forall c <- s.clients :: s.clients[c].ptr.None?
  }

  /** This step queues the work of task `t`, and the engine refuses: there is no work, or it is not taken. */
  predicate Refuses(s: State, step: Step, t: TaskId) {
    && step.Advance? && At(s, step.c).ptr == Some(t) && At(s, step.c).pc.Queue?
    && t in s.live && (!step.answer || s.live[t].work.None?)
  }

  predicate RefusedAt(steps: seq<Step>, i: nat, t: TaskId) {
    i < |steps| && Refuses(Run(steps[..i]), steps[i], t)
  }

  predicate IsRefused(s: State, t: TaskId) {
    t in s.stage && s.stage[t] == Refused
  }

  lemma PrepareRefusesNone(s: State, c: ClientId, t: TaskId, q: Qos, env: Option<Env>)
    requires t in s.live
    ensures StepPrepare(s, c, t, q, env).stage == s.stage
  {
  }

  /** A client in `Schedule*` restages its own task to refused in no other way. */
  lemma AdvanceRefused(s: State, c: ClientId, answer: bool, t: TaskId)
    requires At(s, c).ptr == Some(t) && At(s, c).pc != Return(true) && t in s.live
    requires t in s.stage && s.stage[t].Owned?
    ensures IsRefused(StepAdvance(s, c, answer), t) <==> Refuses(s, Advance(c, answer), t)
  {
    if At(s, c).pc.Prepare? {
      PrepareRefusesNone(s, c, t, At(s, c).pc.q, At(s, c).pc.maybeEnv);
    }
  }

  lemma RefusedNext(s: State, step: Step, t: TaskId)
    requires Inv(s)
    ensures IsRefused(Next(s, step), t) <==> IsRefused(s, t) || Refuses(s, step, t)
  {
    hide Next, OwnersOk, AssetsOk, FreedOk, StepAdvance;
    match step
    case New(c, hasExecute) => NewStage(s, c, hasExecute); NextIsUnstaged(s);
    case Enter(_, _, _) => QuietStage(s, step);
    case Advance(c, answer) => NextAdvance(s, c, answer); AdvanceRefuses(s, c, answer, t);
    case Drop(c) =>
      DropStage(s, c);
      if Drops(s, c) { Owner(s, c); }
    case Execute(_) => QuietStage(s, step);
    case Complete(p) =>
      CompleteStage(s, p);
      if p in s.pending { PendingIsInLoop(s, p); }
  }

  lemma AdvanceRefuses(s: State, c: ClientId, answer: bool, t: TaskId)
    requires Inv(s)
    ensures IsRefused(StepAdvance(s, c, answer), t) <==> IsRefused(s, t) || Refuses(s, Advance(c, answer), t)
  {
    hide AssetsOk, FreedOk, StagesOk, LoopOk, StepAdvance;
    if At(s, c).ptr == Some(t) && At(s, c).pc != Return(true) {
      Owner(s, c);
      AdvanceRefused(s, c, answer, t);
    } else if t in s.stage {
      AdvanceStage(s, c, answer, t);
    } else {
      if At(s, c).ptr.Some? && At(s, c).pc != Return(true) { Owner(s, c); }
      AdvanceUnstaged(s, c, answer, t);
    }
  }

  lemma AdvanceUnstaged(s: State, c: ClientId, answer: bool, t: TaskId)
    requires t !in s.stage && At(s, c).ptr != Some(t)
    ensures t !in StepAdvance(s, c, answer).stage
  {
    hide StepAdvance;
    if At(s, c).ptr.None? { AdvanceNothing(s, c, answer); } else { AdvanceHandsOver(s, c, answer); }
  }

  /** A task is in the refused stage exactly when one step of the run was its refusal. */
  lemma {:induction false} RefusedIff(steps: seq<Step>, t: TaskId)
    ensures IsRefused(Run(steps), t) <==> exists i: nat :: RefusedAt(steps, i, t)
  {
    hide Next, Inv, Refuses, IsRefused;
    if steps == [] {
      StartRefusesNone(t);
    } else {
      var n := |steps| - 1;
      var before := steps[..n];
      RefusedIff(before, t);
      RunKeeps(before);
      RefusedNext(Run(before), steps[n], t);
      forall i: nat | i < n ensures RefusedAt(before, i, t) <==> RefusedAt(steps, i, t) {
        assert before[..i] == steps[..i];
      }
      if exists i: nat :: RefusedAt(before, i, t) {
        var i: nat :| RefusedAt(before, i, t);
        assert RefusedAt(steps, i, t);
      }
      if exists i: nat :: RefusedAt(steps, i, t) {
        var i: nat :| RefusedAt(steps, i, t);
        assert i == n || RefusedAt(before, i, t);
      }
      assert RefusedAt(steps, n, t) <==> Refuses(Run(before), steps[n], t);
    }
  }

  lemma StartRefusesNone(t: TaskId)
    ensures !IsRefused(Run([]), t)
  {
  }

  /**
    At rest, each task made so far has been freed exactly once, if and only if in no step of the run the
    engine refused the work that the hand-over queued; a task so refused is still alive.
  */
  lemma FreedExactlyOnceUnlessRefused(steps: seq<Step>, t: TaskId)
    requires AtRest(Run(steps)) && t < Run(steps).nextTask
    ensures var s := Run(steps);
            && (s.freedByOwner[t] + s.freedByLoop[t] == 1 <==> !exists i: nat :: RefusedAt(steps, i, t))
            && ((exists i: nat :: RefusedAt(steps, i, t)) ==> t in s.live && s.freedByOwner[t] + s.freedByLoop[t] == 0)
  {
    RunKeeps(steps);
    RefusedIff(steps, t);
    hide Run, RefusedAt;
    var s := Run(steps);
    assert !s.stage[t].Owned? && !s.stage[t].InLoop?;
  }

  lemma RunNext(steps: seq<Step>, step: Step)
    ensures Run(steps + [step]) == Next(Run(steps), step)
  {
    assert (steps + [step])[..|steps|] == steps;
  }

  /** A client schedules one task up to the queueing call. */
  function ToQueue(q: Qos): seq<Step> {
    [New(0, true)] + [Enter(0, q, Some(0))] + [Advance(0, true)] + [Advance(0, true)]
  }

  lemma AtQueue(q: Qos)
    ensures var s := Run(ToQueue(q));
            && s.live == map[0 := Task(true, Some(0), if q == Default then None else Some(0))]
            && s.nextTask == 1 && s.clients == map[0 := Client(Some(0), Queue(q, 0))]
            && s.pending == map[] && s.nextPending == 0
            && s.works == map[0 := Work(0, q)] && s.deletedWorks == multiset{}
            && s.freedByOwner == multiset{} && s.freedByLoop == multiset{}
  {
    var a, b := [New(0, true)], [New(0, true)] + [Enter(0, q, Some(0))];
    assert [] + a == a;
    RunNext([], New(0, true));
    RunNext(a, Enter(0, q, Some(0)));
    RunNext(b, Advance(0, true));
    RunNext(b + [Advance(0, true)], Advance(0, true));
  }

  /** A run in which the engine refuses one work: everything is at rest and the task was never freed. */
  lemma RefusedTaskLeaks() returns (steps: seq<Step>)
    ensures AtRest(Run(steps)) && Run(steps).nextTask == 1 && RefusedAt(steps, 4, 0)
    ensures 0 in Run(steps).live && Run(steps).freedByOwner[0] + Run(steps).freedByLoop[0] == 0
  {
    hide Run;
    AtQueue(Plain);
    var queue, release := Advance(0, false), Advance(0, true);
    RunNext(ToQueue(Plain), queue);
    RunNext(ToQueue(Plain) + [queue], release);
    steps := ToQueue(Plain) + [queue] + [release];
    assert steps[..4] == ToQueue(Plain) && steps[4] == queue;
  }

  /** A run in which a work of default QoS is done: its task was freed and the work was not deleted. */
  lemma DefaultQosWorkLeaks() returns (steps: seq<Step>)
    ensures AtRest(Run(steps)) && Run(steps).freedByLoop[0] == 1
    ensures 0 in Run(steps).works && Run(steps).works[0].task == 0 && Run(steps).deletedWorks[0] == 0
  {
    hide Run;
    AtQueue(Default);
    var s0, next, done := ToQueue(Default), Advance(0, true), Complete(0);
    RunNext(s0, next);
    var s1 := Run(s0 + [next]);
    assert s1.pending == map[0 := PendingWork(0, false)] && s1.clients == map[0 := Client(Some(0), Return(true))];
    RunNext(s0 + [next], next);
    var s2 := Run(s0 + [next] + [next]);
    assert s2 == s1.(clients := map[0 := Client(None, Idle)]);
    RunNext(s0 + [next] + [next], Execute(0));
    var s3 := Run(s0 + [next] + [next] + [Execute(0)]);
    assert s3 == s2.(pending := map[0 := PendingWork(0, true)]);
    steps := s0 + [next] + [next] + [Execute(0)] + [done];
    RunNext(s0 + [next] + [next] + [Execute(0)], done);
  }

  predicate WithLoop(s: State, t: TaskId) {
    t in s.stage && (s.stage[t].InLoop? || s.stage[t].FreedByLoop?)
  }

  /** A task that was ever in the loop's hands is never freed by its owner, whatever happens later. */
  lemma {:induction false} AcceptedIsFreedByLoop(steps: seq<Step>, more: seq<Step>, t: TaskId)
    requires WithLoop(Run(steps), t)
    ensures WithLoop(Run(steps + more), t) && Run(steps + more).freedByOwner[t] == 0
    decreases |more|
  {
    hide Next, OwnersOk, AssetsOk;
    if more == [] {
      assert steps + more == steps;
    } else {
      var most := more[..|more| - 1];
      AcceptedIsFreedByLoop(steps, most, t);
      assert (steps + more)[..|steps + more| - 1] == steps + most;
      RunKeeps(steps + most);
      StaysWithLoop(Run(steps + most), more[|more| - 1], t);
    }
    RunKeeps(steps + more);
  }

  lemma StaysWithLoop(s: State, step: Step, t: TaskId)
    requires Inv(s) && WithLoop(s, t)
    ensures WithLoop(Next(s, step), t)
  {
    hide Next, OwnersOk, AssetsOk, FreedOk, StepAdvance;
    match step
    case New(c, hasExecute) => NewStage(s, c, hasExecute); NextIsUnstaged(s);
    case Enter(_, _, _) => QuietStage(s, step);
    case Advance(c, answer) =>
      NextAdvance(s, c, answer);
      if At(s, c).ptr.Some? && At(s, c).pc != Return(true) { Owner(s, c); }
      AdvanceStage(s, c, answer, t);
    case Drop(c) =>
      DropStage(s, c);
      if Drops(s, c) { Owner(s, c); }
    case Execute(_) => QuietStage(s, step);
    case Complete(p) => CompleteStage(s, p);
  }

  /** `Schedule*` restages no task but the client's own, and that one only before the hand-over. */
  lemma AdvanceStage(s: State, c: ClientId, answer: bool, t: TaskId)
    requires t in s.stage && (At(s, c).ptr != Some(t) || At(s, c).pc == Return(true))
    ensures t in StepAdvance(s, c, answer).stage && StepAdvance(s, c, answer).stage[t] == s.stage[t]
  {
    hide StepAdvance;
    if At(s, c).ptr.None? { AdvanceNothing(s, c, answer); } else { AdvanceHandsOver(s, c, answer); }
  }

  /**
    Each work is deleted exactly once when its task is freed, except that `ScheduleWithDefaultQos` never
    records the environment, so that its works are never deleted.
  */
  lemma WorkDeletedWithItsTask(steps: seq<Step>, w: WorkId)
    requires w in Run(steps).works
    ensures var s := Run(steps);
            && s.deletedWorks[w] <= 1
            && (s.deletedWorks[w] == 1 <==> s.works[w].task !in s.live && s.works[w].q != Default)
  {
    RunKeeps(steps);
  }

  // ---------------------------------------------------------------------------------------------
  // What the loop accepts

  /** The engine takes the task: its event at `Dispatch`, when it has no execute callback, or its work at `Queue`. */
  predicate Accepts(s: State, step: Step, t: TaskId) {
    && step.Advance? && step.answer && At(s, step.c).ptr == Some(t) && t in s.live
    && ((At(s, step.c).pc.Dispatch? && !s.live[t].hasExecute) || (At(s, step.c).pc.Queue? && s.live[t].work.Some?))
  }

  predicate AcceptedAt(steps: seq<Step>, i: nat, t: TaskId) {
    i < |steps| && Accepts(Run(steps[..i]), steps[i], t)
  }

  lemma PrepareAccepts(s: State, c: ClientId, t: TaskId, answer: bool)
    requires OwnersOk(s) && At(s, c).ptr == Some(t) && At(s, c).pc.Prepare?
    ensures !WithLoop(StepAdvance(s, c, answer), t)
  {
    Owner(s, c);
    hide OwnersOk;
    PrepareRefusesNone(s, c, t, At(s, c).pc.q, At(s, c).pc.maybeEnv);
  }

  lemma DispatchAccepts(s: State, c: ClientId, t: TaskId, answer: bool)
    requires OwnersOk(s) && At(s, c).ptr == Some(t) && At(s, c).pc.Dispatch?
    ensures WithLoop(StepAdvance(s, c, answer), t) <==> Accepts(s, Advance(c, answer), t)
  {
    Owner(s, c);
    hide OwnersOk;
  }

  lemma QueueAccepts(s: State, c: ClientId, t: TaskId, answer: bool)
    requires OwnersOk(s) && At(s, c).ptr == Some(t) && At(s, c).pc.Queue?
    ensures WithLoop(StepAdvance(s, c, answer), t) <==> Accepts(s, Advance(c, answer), t)
  {
    Owner(s, c);
    hide OwnersOk;
  }

  lemma AdvanceAccepts(s: State, c: ClientId, answer: bool, t: TaskId)
    requires OwnersOk(s)
    ensures WithLoop(StepAdvance(s, c, answer), t) <==> WithLoop(s, t) || Accepts(s, Advance(c, answer), t)
  {
    hide OwnersOk, StepAdvance, WithLoop;
    if At(s, c).ptr != Some(t) || At(s, c).pc == Return(true) {
      OthersKeepLoop(s, c, answer, t);
    } else {
      NotYetWithLoop(s, c, t);
      match At(s, c).pc
      case Idle => IdleStays(s, c, answer);
      case Prepare(_, _) => PrepareAccepts(s, c, t, answer);
      case Dispatch(_, _) => DispatchAccepts(s, c, t, answer);
      case Queue(_, _) => QueueAccepts(s, c, t, answer);
      case Return(_) => ReturnStays(s, c, answer, t);
    }
  }

  lemma NotYetWithLoop(s: State, c: ClientId, t: TaskId)
    requires OwnersOk(s) && At(s, c).ptr == Some(t) && At(s, c).pc != Return(true)
    ensures !WithLoop(s, t)
  {
    Owner(s, c);
  }

  lemma IdleStays(s: State, c: ClientId, answer: bool)
    requires At(s, c).pc.Idle?
    ensures StepAdvance(s, c, answer) == s
  {
  }

  lemma ReturnStays(s: State, c: ClientId, answer: bool, t: TaskId)
    requires At(s, c).pc == Return(false)
    ensures WithLoop(StepAdvance(s, c, answer), t) <==> WithLoop(s, t)
  {
  }

  lemma OthersKeepLoop(s: State, c: ClientId, answer: bool, t: TaskId)
    requires At(s, c).ptr != Some(t) || At(s, c).pc == Return(true)
    ensures WithLoop(StepAdvance(s, c, answer), t) <==> WithLoop(s, t)
  {
    hide StepAdvance;
    if At(s, c).ptr.None? {
      AdvanceNothing(s, c, answer);
    } else {
      AdvanceHandsOver(s, c, answer);
    }
  }

  lemma AcceptedNext(s: State, step: Step, t: TaskId)
    requires Inv(s)
    ensures WithLoop(Next(s, step), t) <==> WithLoop(s, t) || Accepts(s, step, t)
  {
    hide Next, OwnersOk, AssetsOk, FreedOk, StepAdvance;
    match step
    case New(c, hasExecute) => NewStage(s, c, hasExecute); NextIsUnstaged(s);
    case Enter(_, _, _) => QuietStage(s, step);
    case Advance(c, answer) => NextAdvance(s, c, answer); AdvanceAccepts(s, c, answer, t);
    case Drop(c) =>
      DropStage(s, c);
      if Drops(s, c) { Owner(s, c); }
    case Execute(_) => QuietStage(s, step);
    case Complete(p) =>
      CompleteStage(s, p);
      if p in s.pending { PendingIsInLoop(s, p); }
  }

  /** A task was at some time with the loop exactly when one step of the run was its acceptance. */
  lemma {:induction false} AcceptedIff(steps: seq<Step>, t: TaskId)
    ensures WithLoop(Run(steps), t) <==> exists i: nat :: AcceptedAt(steps, i, t)
  {
    hide Next, Inv, Accepts, WithLoop;
    if steps == [] {
      StartHoldsNone(t);
    } else {
      var n := |steps| - 1;
      var before := steps[..n];
      AcceptedIff(before, t);
      RunKeeps(before);
      AcceptedNext(Run(before), steps[n], t);
      forall i: nat | i < n ensures AcceptedAt(before, i, t) <==> AcceptedAt(steps, i, t) {
        assert before[..i] == steps[..i];
      }
      if exists i: nat :: AcceptedAt(before, i, t) {
        var i: nat :| AcceptedAt(before, i, t);
        assert AcceptedAt(steps, i, t);
      }
      if exists i: nat :: AcceptedAt(steps, i, t) {
        var i: nat :| AcceptedAt(steps, i, t);
        assert i == n || AcceptedAt(before, i, t);
      }
      assert AcceptedAt(steps, n, t) <==> Accepts(Run(before), steps[n], t);
    }
  }

  lemma StartHoldsNone(t: TaskId)
    ensures !WithLoop(Run([]), t)
  {
  }

  /** What the loop is given for a task: an event, or a work that was queued. */
  function Item(pc: Pc, t: TaskId): Pending {
    if pc.Queue? then PendingWork(t, false) else PendingEvent(t)
  }

  /**
    An acceptance gives the loop one new item, the only one that names the task, and leaves the client
    about to let go; an event that is declined gives the loop nothing, and the client keeps the task.
  */
  lemma AcceptanceIs(steps: seq<Step>, c: ClientId, answer: bool, t: TaskId)
    requires At(Run(steps), c).ptr == Some(t)
    ensures var s, s' := Run(steps), Run(steps + [Advance(c, answer)]);
            && (Accepts(s, Advance(c, answer), t) ==>
                  && s.nextPending !in s.pending
                  && s'.pending == s.pending[s.nextPending := Item(At(s, c).pc, t)]
                  && (forall p <- s.pending :: s.pending[p].task != t)
                  && At(s', c) == Client(Some(t), Return(true)))
            && (At(s, c).pc.Dispatch? && !answer && t in s.live && !s.live[t].hasExecute ==>
                  s'.pending == s.pending && t in s'.live && At(s', c) == Client(Some(t), Return(false)))
  {
    RunKeeps(steps);
    RunNext(steps, Advance(c, answer));
    var s := Run(steps);
    hide Run, Inv, OwnersOk, AssetsOk, FreedOk;
    if Accepts(s, Advance(c, answer), t) { NoItemYet(s, c, t); }
    AcceptStep(s, c, answer, t);
  }

  lemma NoItemYet(s: State, c: ClientId, t: TaskId)
    requires OwnersOk(s) && At(s, c).ptr == Some(t) && At(s, c).pc != Return(true)
    ensures s.nextPending !in s.pending
    ensures forall p <- s.pending :: s.pending[p].task != t
  {
    Owner(s, c);
  }

  lemma AcceptStep(s: State, c: ClientId, answer: bool, t: TaskId)
    requires At(s, c).ptr == Some(t)
    ensures var s' := Next(s, Advance(c, answer));
            && (Accepts(s, Advance(c, answer), t) ==>
                  s'.pending == s.pending[s.nextPending := Item(At(s, c).pc, t)] && At(s', c) == Client(Some(t), Return(true)))
            && (At(s, c).pc.Dispatch? && !answer && t in s.live && !s.live[t].hasExecute ==>
                  s'.pending == s.pending && t in s'.live && At(s', c) == Client(Some(t), Return(false)))
  {
  }

  // ---------------------------------------------------------------------------------------------
  // A whole call of `Schedule*`

  /** The call with no other step in between; `made` and `taken` answer for the first and second engine call. */
  function ScheduleAlone(s: State, c: ClientId, q: Qos, env: Option<Env>, made: bool, taken: bool): State {
    var entered := Next(s, Enter(c, q, env));
    var prepared := Next(entered, Advance(c, true));
    var dispatched := Next(prepared, Advance(c, made));
    var queued := Next(dispatched, Advance(c, taken));
    Next(queued, Advance(c, true))
  }

  lemma AfterPrepare(s: State, c: ClientId, t: TaskId, q: Qos, env: Option<Env>)
    requires At(s, c) == Client(Some(t), Idle) && t in s.live && s.live[t].work.None?
    ensures var s' := Next(Next(s, Enter(c, q, env)), Advance(c, true));
            && s'.live == s.live && s'.pending == s.pending && s'.nextPending == s.nextPending
            && At(s', c) == Client(Some(t), if env.Some? then Dispatch(q, env.value) else Return(false))
  {
  }

  lemma AfterMake(s: State, c: ClientId, t: TaskId, answer: bool)
    requires At(s, c).ptr == Some(t) && At(s, c).pc.Dispatch? && t in s.live && s.live[t].hasExecute
    ensures var s' := Next(s, Advance(c, answer));
            && t in s'.live && s'.live[t].hasExecute && (s'.live[t].work.Some? <==> answer)
            && s'.pending == s.pending && s'.nextPending == s.nextPending
            && At(s', c) == Client(Some(t), Queue(At(s, c).pc.q, At(s, c).pc.env))
  {
    hide StepAdvance, Next;
    NextAdvance(s, c, answer);
    MakesWork(s, c, t, At(s, c).pc.q, At(s, c).pc.env, answer);
    MakesNoItem(s, c, t, answer);
  }

  lemma MakesNoItem(s: State, c: ClientId, t: TaskId, answer: bool)
    requires At(s, c).ptr == Some(t) && At(s, c).pc.Dispatch? && t in s.live && s.live[t].hasExecute
    ensures StepAdvance(s, c, answer).pending == s.pending && StepAdvance(s, c, answer).nextPending == s.nextPending
  {
  }

  lemma AfterSend(s: State, c: ClientId, t: TaskId, answer: bool)
    requires At(s, c).ptr == Some(t) && At(s, c).pc.Dispatch? && t in s.live && !s.live[t].hasExecute
    ensures var s' := Next(s, Advance(c, answer));
            && t in s'.live && At(s', c) == Client(Some(t), Return(answer))
            && s'.pending == if answer then s.pending[s.nextPending := PendingEvent(t)] else s.pending
  {
  }

  lemma AfterQueue(s: State, c: ClientId, t: TaskId, answer: bool)
    requires At(s, c).ptr == Some(t) && At(s, c).pc.Queue? && t in s.live
    ensures var s' := Next(s, Advance(c, answer));
            && t in s'.live && At(s', c) == Client(Some(t), Return(true))
            && s'.pending == if answer && s.live[t].work.Some? then s.pending[s.nextPending := PendingWork(t, false)]
                             else s.pending
  {
  }

  lemma AfterReturn(s: State, c: ClientId, t: TaskId, ok: bool, answer: bool)
    requires At(s, c) == Client(Some(t), Return(ok))
    ensures var s' := Next(s, Advance(c, answer));
            && s'.live == s.live && s'.pending == s.pending
            && At(s', c) == Client(if ok then None else Some(t), Idle)
  {
  }

  lemma AfterIdle(s: State, c: ClientId, answer: bool)
    requires At(s, c).pc.Idle?
    ensures Next(s, Advance(c, answer)) == s
  {
  }

  /**
    A whole call, on a task that the client owns: without an environment, or when its event is declined,
    the client keeps the task and the loop gets nothing; otherwise the client lets go, and the loop has one
    more item for the task, unless the work was not made or not taken.
  */
  lemma ScheduleAloneIs(s: State, c: ClientId, t: TaskId, q: Qos, env: Option<Env>, made: bool, taken: bool)
    requires Inv(s) && At(s, c) == Client(Some(t), Idle)
    ensures t in s.live
    ensures var s' := ScheduleAlone(s, c, q, env, made, taken);
            var hasExecute := s.live[t].hasExecute;
            && t in s'.live
            && At(s', c) == Client(if env.None? || (!hasExecute && !made) then Some(t) else None, Idle)
            && s'.pending == if env.Some? && made && (hasExecute ==> taken)
                             then s.pending[s.nextPending := if hasExecute then PendingWork(t, false) else PendingEvent(t)]
                             else s.pending
  {
    OwnedTask(s, c);
    hide Inv, OwnersOk, AssetsOk, Next, At;
    var s1 := Next(Next(s, Enter(c, q, env)), Advance(c, true));
    AfterPrepare(s, c, t, q, env);
    var s2 := Next(s1, Advance(c, made));
    var s3 := Next(s2, Advance(c, taken));
    if env.None? {
      AfterReturn(s1, c, t, false, made);
      AfterIdle(s2, c, taken);
      AfterIdle(s3, c, true);
    } else {
      if s.live[t].hasExecute {
        AfterMake(s1, c, t, made);
        AfterQueue(s2, c, t, taken);
        AfterReturn(s3, c, t, true, true);
      } else {
        AfterSend(s1, c, t, made);
        AfterReturn(s2, c, t, made, taken);
        AfterIdle(s3, c, true);
      }
    }
  }

  // ---------------------------------------------------------------------------------------------
  // What the loop completes

  predicate IsExecuted(s: State, p: PendingId) {
    p in s.pending && s.pending[p].PendingWork? && s.pending[p].executed
  }

  lemma HandedUnexecuted(s: State, c: ClientId, answer: bool, p: PendingId)
    ensures IsExecuted(StepAdvance(s, c, answer), p) ==> IsExecuted(s, p)
  {
    hide StepPrepare, StepDispatch, StepQueue;
    var cl := At(s, c);
    if cl.ptr.Some? && cl.ptr.value in s.live {
      match cl.pc
      case Prepare(q, env) => PrepareUnexecuted(s, c, cl.ptr.value, q, env, p);
      case Dispatch(q, env) => DispatchUnexecuted(s, c, cl.ptr.value, q, env, answer, p);
      case Queue(_, _) => QueueUnexecuted(s, c, cl.ptr.value, answer, p);
      case _ =>
    }
  }

  lemma PrepareUnexecuted(s: State, c: ClientId, t: TaskId, q: Qos, env: Option<Env>, p: PendingId)
    requires t in s.live
    ensures IsExecuted(StepPrepare(s, c, t, q, env), p) ==> IsExecuted(s, p)
  {
  }

  lemma DispatchUnexecuted(s: State, c: ClientId, t: TaskId, q: Qos, env: Env, answer: bool, p: PendingId)
    requires t in s.live
    ensures IsExecuted(StepDispatch(s, c, t, q, env, answer), p) ==> IsExecuted(s, p)
  {
  }

  lemma QueueUnexecuted(s: State, c: ClientId, t: TaskId, answer: bool, p: PendingId)
    requires t in s.live
    ensures IsExecuted(StepQueue(s, c, t, answer), p) ==> IsExecuted(s, p)
  {
  }

  lemma NextExecuted(s: State, step: Step, p: PendingId)
    ensures IsExecuted(Next(s, step), p) ==> IsExecuted(s, p) || (step == Execute(p) && p in s.pending)
  {
    hide StepAdvance;
    if step.Advance? { HandedUnexecuted(s, step.c, step.answer, p); }
  }

  predicate ExecutedAt(steps: seq<Step>, k: nat, p: PendingId) {
    k < |steps| && steps[k] == Execute(p) && p in Run(steps[..k]).pending
  }

  lemma {:induction false} ExecutedByStep(steps: seq<Step>, p: PendingId)
    requires IsExecuted(Run(steps), p)
    ensures exists k: nat :: ExecutedAt(steps, k, p)
  {
    hide Next, IsExecuted;
    if steps == [] {
      StartExecutesNone(p);
    } else {
      var n := |steps| - 1;
      var before := steps[..n];
      NextExecuted(Run(before), steps[n], p);
      if IsExecuted(Run(before), p) {
        ExecutedByStep(before, p);
        var k: nat :| ExecutedAt(before, k, p);
        assert before[..k] == steps[..k];
        assert ExecutedAt(steps, k, p);
      } else {
        assert ExecutedAt(steps, n, p);
      }
    }
  }

  lemma StartExecutesNone(p: PendingId)
    ensures !IsExecuted(Run([]), p)
  {
  }

  /**
    The loop completes an event at any time and a work only after it was executed: the item goes and the
    task is freed; a work that was not executed stays as it is.
  */
  lemma CompletionIs(steps: seq<Step>, p: PendingId)
    requires p in Run(steps).pending
    ensures var s, s' := Run(steps), Run(steps + [Complete(p)]);
            var t := s.pending[p].task;
            && t in s.live
            && (s.pending[p].PendingEvent? || (exists k: nat :: ExecutedAt(steps, k, p)) <==> p !in s'.pending)
            && (p !in s'.pending ==>
                  && s'.pending == s.pending - {p} && t !in s'.live
                  && s'.freedByLoop[t] == 1 && s'.freedByOwner[t] == 0)
            && (p in s'.pending ==> s' == s)
  {
    RunKeeps(steps);
    RunKeeps(steps + [Complete(p)]);
    RunNext(steps, Complete(p));
    var s := Run(steps);
    CompleteStep(s, p);
    FreedCounts(Next(s, Complete(p)), s.pending[p].task);
    if exists k: nat :: ExecutedAt(steps, k, p) {
      var k: nat :| ExecutedAt(steps, k, p);
      StaysExecuted(steps, k, p, |steps|);
      assert steps[..|steps|] == steps;
    }
    if IsExecuted(s, p) { ExecutedByStep(steps, p); }
  }

  lemma CompleteStep(s: State, p: PendingId)
    requires Inv(s) && p in s.pending
    ensures var s', t := Next(s, Complete(p)), s.pending[p].task;
            && t in s.live
            && (if s.pending[p].PendingEvent? || IsExecuted(s, p)
                then s'.pending == s.pending - {p} && t !in s'.live && t in s'.stage && s'.stage[t] == FreedByLoop
                else s' == s)
  {
    hide AssetsOk, FreedOk, StagesOk, ClientsOk;
  }

  lemma FreedCounts(s: State, t: TaskId)
    requires Inv(s)
    ensures t in s.stage && s.stage[t] == FreedByLoop ==> s.freedByLoop[t] == 1 && s.freedByOwner[t] == 0
  {
    hide OwnersOk, AssetsOk;
  }

  /** The items that the loop had are as they were, and new ones have new numbers. */
  predicate KeepsItems(s: State, s': State) {
    && s.nextPending <= s'.nextPending
    && (forall p: PendingId :: p < s.nextPending && p in s.pending ==> p in s'.pending && s'.pending[p] == s.pending[p])
    && (forall p: PendingId :: p < s.nextPending && p in s'.pending ==> p in s.pending)
  }

  lemma PrepareKeepsItems(s: State, c: ClientId, t: TaskId, q: Qos, env: Option<Env>)
    requires t in s.live
    ensures KeepsItems(s, StepPrepare(s, c, t, q, env))
  {
  }

  lemma DispatchKeepsItems(s: State, c: ClientId, t: TaskId, q: Qos, env: Env, answer: bool)
    requires t in s.live
    ensures KeepsItems(s, StepDispatch(s, c, t, q, env, answer))
  {
  }

  lemma QueueKeepsItems(s: State, c: ClientId, t: TaskId, answer: bool)
    requires t in s.live
    ensures KeepsItems(s, StepQueue(s, c, t, answer))
  {
  }

  lemma AdvanceKeepsItems(s: State, c: ClientId, answer: bool)
    ensures KeepsItems(s, StepAdvance(s, c, answer))
  {
    hide StepPrepare, StepDispatch, StepQueue;
    var cl := At(s, c);
    if cl.ptr.Some? && cl.ptr.value in s.live {
      match cl.pc
      case Prepare(q, env) => PrepareKeepsItems(s, c, cl.ptr.value, q, env);
      case Dispatch(q, env) => DispatchKeepsItems(s, c, cl.ptr.value, q, env, answer);
      case Queue(_, _) => QueueKeepsItems(s, c, cl.ptr.value, answer);
      case _ =>
    }
  }

  /** An item that is there, and executed if it is a work, stays so until it goes for good. */
  predicate DoneOrGone(s: State, p: PendingId) {
    p < s.nextPending && (p in s.pending ==> s.pending[p].PendingEvent? || s.pending[p].executed)
  }

  lemma KeepsDone(s: State, step: Step, p: PendingId)
    requires DoneOrGone(s, p)
    ensures DoneOrGone(Next(s, step), p)
  {
    hide StepAdvance;
    if step.Advance? { AdvanceKeepsItems(s, step.c, step.answer); }
  }

  lemma ExecuteStep(s: State, p: PendingId)
    requires Inv(s) && p in s.pending
    ensures DoneOrGone(Next(s, Execute(p)), p)
  {
    hide AssetsOk, FreedOk, StagesOk, ClientsOk;
  }

  lemma {:induction false} StaysExecuted(steps: seq<Step>, k: nat, p: PendingId, n: nat)
    requires ExecutedAt(steps, k, p) && k < n <= |steps|
    ensures DoneOrGone(Run(steps[..n]), p)
  {
    hide Next, Inv, DoneOrGone;
    var before := steps[..n - 1];
    assert steps[..n] == before + [steps[n - 1]];
    RunNext(before, steps[n - 1]);
    if n == k + 1 {
      RunKeeps(before);
      ExecuteStep(Run(before), p);
    } else {
      StaysExecuted(steps, k, p, n - 1);
      KeepsDone(Run(before), steps[n - 1], p);
    }
  }

  /** At rest, the loop freed exactly the tasks that it accepted. */
  lemma FreedByLoopIffAccepted(steps: seq<Step>, t: TaskId)
    requires AtRest(Run(steps)) && t < Run(steps).nextTask
    ensures Run(steps).freedByLoop[t] == 1 <==> exists i: nat :: AcceptedAt(steps, i, t)
  {
    RunKeeps(steps);
    AcceptedIff(steps, t);
    hide Run, AcceptedAt;
    FreedCounts(Run(steps), t);
  }

  /** An owner that is not inside a call drops its task: the task is freed once, by its owner. */
  lemma DropIs(steps: seq<Step>, c: ClientId, t: TaskId)
    requires At(Run(steps), c) == Client(Some(t), Idle)
    ensures t in Run(steps).live
    ensures var s' := Run(steps + [Drop(c)]);
            && t !in s'.live && At(s', c) == Client(None, Idle) && s'.pending == Run(steps).pending
            && s'.freedByOwner[t] == 1 && s'.freedByLoop[t] == 0
  {
    RunKeeps(steps);
    RunKeeps(steps + [Drop(c)]);
    RunNext(steps, Drop(c));
    var s := Run(steps);
    Owner(s, c);
    DropStep(s, c, t);
    FreedByOwnerCounts(Next(s, Drop(c)), t);
  }

  lemma DropStep(s: State, c: ClientId, t: TaskId)
    requires At(s, c) == Client(Some(t), Idle) && t in s.live
    ensures var s' := Next(s, Drop(c));
            && t !in s'.live && At(s', c) == Client(None, Idle) && s'.pending == s.pending
            && t in s'.stage && s'.stage[t] == FreedByOwner
  {
  }

  lemma FreedByOwnerCounts(s: State, t: TaskId)
    requires Inv(s) && t in s.stage && s.stage[t] == FreedByOwner
    ensures s.freedByOwner[t] == 1 && s.freedByLoop[t] == 0
  {
    hide OwnersOk, AssetsOk;
  }
}
