/** The socket protector: connecting threads call back into the host through a reference another thread may
    replace or release. Any number of threads may be inside the upcall. Every read, write, lock and reference
    operation of every thread is one step, steps interleave freely, and what a step does is decided by memory
    alone. */
module Protector {
  import opened Text

  /** A host object, and a handle to one that keeps it alive. */
  type Object = nat

  type GlobalRef = nat

  /** Upcalling threads are numbered. */
  datatype Holder = Nobody | Upcaller(id: nat) | TheOwner

  /** `jni_socket_protector_t`. */
  datatype Struct = Struct(vm: bool, mutex: bool, holder: Holder, service: Option<GlobalRef>, released: bool)

  /** The references an upcalling thread holds. */
  datatype LocalRef = ServiceRef(obj: Object) | ClassRef(obj: Object)

  /** What `protect` did. */
  datatype Answer = Yes | No | Threw

  /** Where an upcalling thread is: the background connect thread, or the connect thread itself when it opens
      the first additional connection. `here` is `attached_here`. */
  datatype Worker =
    | Idle
    | Starting
    | CheckHook
    | LoadHook
    | LoadCtx
    | Enter(ctx: Option<nat>)
    | GetEnv(p: nat)
    | Attach(p: nat)
    | Lock(p: nat, here: bool)
    | Read(p: nat, here: bool)
    | TakeRef(p: nat, here: bool)
    | Unlock(p: nat, here: bool, taken: Option<Object>)
    | GetClass(p: nat, here: bool, obj: Object)
    | GetMethod(p: nat, here: bool, obj: Object)
    | Call(p: nat, here: bool, obj: Object)
    | DropClass(p: nat, here: bool, obj: Object, protected: bool)
    | DropService(p: nat, here: bool, obj: Object, protected: bool)
    | Detach(p: nat, here: bool, protected: bool)
    | Return(protected: bool)
    | Finish

  /** An upcalling thread: its point in the code and what the VM holds for it. */
  datatype Thread = Thread(at: Worker, wasAttached: bool, attached: bool, locals: set<LocalRef>, pending: bool)

  /** The thread that registers protectors and finally destroys the connection. */
  datatype Owner =
    | Resting
    | SetReadCtx(obj: Object)
    | SetAlloc(obj: Object)
    | SetMutexInit(obj: Object, p: nat)
    | SetNewGlobal(obj: Object, p: nat, isNew: bool)
    | SetLock(p: nat, isNew: bool, g: GlobalRef)
    | SetRead(p: nat, isNew: bool, g: GlobalRef)
    | SetWrite(p: nat, isNew: bool, g: GlobalRef, was: Option<GlobalRef>)
    | SetOpen(p: nat, isNew: bool, was: Option<GlobalRef>)
    | SetUnlock(p: nat, isNew: bool, was: Option<GlobalRef>)
    | SetDelete(p: nat, isNew: bool, was: Option<GlobalRef>)
    | SetArmHook(p: nat, isNew: bool)
    | SetArmCtx(p: nat, isNew: bool)
    | DestroyReadCtx
    | DestroyClearHook(ctx: Option<nat>)
    | DestroyClearCtx(ctx: Option<nat>)
    | DestroyJoin(ctx: Option<nat>)
    | DestroyLock(p: nat)
    | DestroyRead(p: nat)
    | DestroyClear(p: nat, was: Option<GlobalRef>)
    | DestroyMark(p: nat, was: Option<GlobalRef>)
    | DestroyUnlock(p: nat, was: Option<GlobalRef>)
    | DestroyDelete(p: nat, was: Option<GlobalRef>)
    | DestroyMutex(p: nat)
    | DestroyFree(p: nat)
    | Destroyed

  datatype Event =
    | Stored(obj: Object)
    | Cleared
    | Launched(id: nat)
    | Took(id: nat, obj: Object)
    | LookupFailed(id: nat)
    | Answered(id: nat, obj: Object, answer: Answer)
    | Returned(id: nat, protected: bool)

  /** `hook` and `ctx` are the connection's fields; `heap` the structs not yet freed; `globals` the global
      references not yet deleted. `leaked` and `log` are history. */
  datatype State = State(
    hook: bool, ctx: Option<nat>,
    heap: map<nat, Struct>, nextStruct: nat,
    globals: map<GlobalRef, Object>, nextGlobal: nat,
    threads: map<nat, Thread>, owner: Owner,
    leaked: set<nat>, log: seq<Event>)

  datatype Fault = NullHook | FreedStruct | NoMutex | MutexInUse | Unlocked | DeadGlobal | DeadLocal

  datatype Outcome = Next(s: State) | Blocked | Crash(fault: Fault)

  /** `ok` is whether a call that may fail succeeds, `answer` what `protect` does. */
  datatype Action =
    | Launch(id: nat, attached: bool)
    | Register(obj: Object)
    | Destroy
    | WorkerRuns(id: nat, ok: bool, answer: Answer)
    | OwnerRuns(ok: bool)

  function Init(): State {
    State(false, None, map[], 0, map[], 0, map[], Resting, {}, [])
  }

  // ---------- memory ----------

  function Acquire(s: State, p: nat, who: Holder, next: State): Outcome {
    if p !in s.heap then Crash(FreedStruct)
    else if !s.heap[p].mutex then Crash(NoMutex)
    else if s.heap[p].holder != Nobody then Blocked
    else Next(next.(heap := s.heap[p := s.heap[p].(holder := who)]))
  }

  function Release(s: State, p: nat, who: Holder, next: State): Outcome {
    if p !in s.heap then Crash(FreedStruct)
    else if !s.heap[p].mutex then Crash(NoMutex)
    else if s.heap[p].holder != who then Crash(Unlocked)
    else Next(next.(heap := s.heap[p := s.heap[p].(holder := Nobody)]))
  }

  /** An access to `service` or `released`. */
  function Guarded(s: State, p: nat, who: Holder, next: State): Outcome {
    if p !in s.heap then Crash(FreedStruct)
    else if s.heap[p].holder != who then Crash(Unlocked)
    else Next(next)
  }

  function DeleteGlobal(s: State, g: Option<GlobalRef>, next: State): Outcome {
    if g.None? then Next(next)
    else if g.value !in s.globals then Crash(DeadGlobal)
    else Next(next.(globals := s.globals - {g.value}))
  }

  // ---------- an upcalling thread ----------

  /** The thread goes on at `w`, otherwise as it is. */
  function Goes(s: State, id: nat, w: Worker): State
    requires id in s.threads
  {
    Becomes(s, id, s.threads[id].(at := w))
  }

  function Becomes(s: State, id: nat, t: Thread): State {
    s.(threads := s.threads[id := t])
  }

  function Logs(s: State, e: Event): State {
    s.(log := s.log + [e])
  }

  /** From the start of the connect to the call of the hook, and after it. */
  function DialStep(s: State, id: nat, ok: bool): Outcome
    requires id in s.threads
  {
    match s.threads[id].at
    case Starting => Next(Goes(s, id, if ok then CheckHook else Finish))
    case CheckHook => Next(Goes(s, id, if s.hook then LoadHook else Finish))
    case LoadHook => if s.hook then Next(Goes(s, id, LoadCtx)) else Crash(NullHook)
    case LoadCtx => Next(Goes(s, id, Enter(s.ctx)))
    case Return(protected) => Next(Logs(Goes(s, id, Finish), Returned(id, protected)))
    case Finish => Next(Goes(s, id, Idle))
    case _ => Blocked
  }

  /** The upcall up to its critical section. */
  function EnterStep(s: State, id: nat, ok: bool): Outcome
    requires id in s.threads
  {
    var t := s.threads[id];
    match t.at
    case Enter(None) => Next(Goes(s, id, Return(false)))
    case Enter(Some(p)) =>
      if p !in s.heap then Crash(FreedStruct)
      else Next(Goes(s, id, if s.heap[p].vm && ok then GetEnv(p) else Return(false)))
    case GetEnv(p) =>
      if p !in s.heap then Crash(FreedStruct)
      else Next(Goes(s, id, if !ok then Return(false) else if t.attached then Lock(p, false) else Attach(p)))
    case Attach(p) =>
      if p !in s.heap then Crash(FreedStruct)
      else Next(if ok then Becomes(s, id, t.(at := Lock(p, true), attached := true)) else Goes(s, id, Return(false)))
    case _ => Blocked
  }

  /** The critical section. */
  function LockStep(s: State, id: nat, ok: bool): Outcome
    requires id in s.threads
  {
    var t, me := s.threads[id], Upcaller(id);
    match t.at
    case Lock(p, here) => Acquire(s, p, me, Goes(s, id, Read(p, here)))
    case Read(p, here) =>
      var there := p in s.heap && !s.heap[p].released && s.heap[p].service.Some?;
      Guarded(s, p, me, Goes(s, id, if there then TakeRef(p, here) else Unlock(p, here, None)))
    case TakeRef(p, here) =>
      if p !in s.heap then Crash(FreedStruct)
      else if s.heap[p].service.None? || s.heap[p].service.value !in s.globals then Crash(DeadGlobal)
      else
        var obj := s.globals[s.heap[p].service.value];
        var taken := t.(at := Unlock(p, here, Some(obj)), locals := t.locals + {ServiceRef(obj)});
        Guarded(s, p, me, if ok then Logs(Becomes(s, id, taken), Took(id, obj)) else Goes(s, id, Unlock(p, here, None)))
    case Unlock(p, here, taken) =>
      Release(s, p, me, Goes(s, id, if taken.Some? then GetClass(p, here, taken.value) else Detach(p, here, false)))
    case _ => Blocked
  }

  /** The call of `protect` and the dropping of the references: the thread alone. A reference that is not live
      cannot be used. */
  function CallThread(t: Thread, ok: bool, answer: Answer): Thread {
    match t.at
    case GetClass(p, here, obj) =>
      if ok then t.(at := GetMethod(p, here, obj), locals := t.locals + {ClassRef(obj)})
      else t.(at := DropService(p, here, obj, false))
    case GetMethod(p, here, obj) =>
      if ok then t.(at := Call(p, here, obj)) else t.(at := DropClass(p, here, obj, false), pending := true)
    case Call(p, here, obj) => t.(at := DropClass(p, here, obj, answer == Yes))
    case DropClass(p, here, obj, protected) =>
      t.(at := DropService(p, here, obj, protected), locals := t.locals - {ClassRef(obj)})
    case DropService(p, here, obj, protected) =>
      t.(at := Detach(p, here, protected), locals := t.locals - {ServiceRef(obj)})
    case _ => t
  }

  function RefUsed(w: Worker): LocalRef
    requires Calling(w)
  {
    match w
    case GetMethod(_, _, obj) => ClassRef(obj)
    case DropClass(_, _, obj, _) => ClassRef(obj)
    case _ => ServiceRef(w.obj)
  }

  function CallEvents(w: Worker, id: nat, ok: bool, answer: Answer): seq<Event> {
    if w.GetMethod? && !ok then [LookupFailed(id)] else if w.Call? then [Answered(id, w.obj, answer)] else []
  }

  function CallStep(s: State, id: nat, ok: bool, answer: Answer): Outcome
    requires id in s.threads && Calling(s.threads[id].at)
  {
    var t := s.threads[id];
    if RefUsed(t.at) !in t.locals then Crash(DeadLocal)
    else Next(s.(threads := s.threads[id := CallThread(t, ok, answer)], log := s.log + CallEvents(t.at, id, ok, answer)))
  }

  function DetachStep(s: State, id: nat): Outcome
    requires id in s.threads && s.threads[id].at.Detach?
  {
    var t := s.threads[id];
    if !t.at.here then Next(Goes(s, id, Return(t.at.protected)))
    else if t.at.p !in s.heap then Crash(FreedStruct)
    else Next(Becomes(s, id, t.(at := Return(t.at.protected), attached := false)))
  }

  /** Between the critical section and the detaching. */
  predicate Calling(w: Worker) {
    w.GetClass? || w.GetMethod? || w.Call? || w.DropClass? || w.DropService?
  }

  predicate Dialling(w: Worker) {
    w.Starting? || w.CheckHook? || w.LoadHook? || w.LoadCtx? || w.Return? || w.Finish?
  }

  predicate Entering(w: Worker) {
    w.Enter? || w.GetEnv? || w.Attach?
  }

  predicate Locking(w: Worker) {
    w.Lock? || w.Read? || w.TakeRef? || w.Unlock?
  }

  function WorkerStep(s: State, id: nat, ok: bool, answer: Answer): Outcome {
    if id !in s.threads || s.threads[id].at == Idle then Blocked
    else if Dialling(s.threads[id].at) then DialStep(s, id, ok)
    else if Entering(s.threads[id].at) then EnterStep(s, id, ok)
    else if Locking(s.threads[id].at) then LockStep(s, id, ok)
    else if Calling(s.threads[id].at) then CallStep(s, id, ok, answer)
    else DetachStep(s, id)
  }

  // ---------- the owner ----------

  function OwnerSetStep(s: State, ok: bool): Outcome {
    match s.owner
    case SetReadCtx(obj) =>
      Next(s.(owner := if s.ctx.Some? then SetNewGlobal(obj, s.ctx.value, false) else SetAlloc(obj)))
    case SetAlloc(obj) =>
      if !ok then Next(s.(owner := Resting))
      else Next(s.(owner := SetMutexInit(obj, s.nextStruct), nextStruct := s.nextStruct + 1,
                   heap := s.heap[s.nextStruct := Struct(false, false, Nobody, None, false)]))
    case SetMutexInit(obj, p) =>
      if p !in s.heap then Crash(FreedStruct)
      else if ok then Next(s.(owner := SetNewGlobal(obj, p, true), heap := s.heap[p := s.heap[p].(mutex := true, vm := true)]))
      else Next(s.(owner := Resting, heap := s.heap - {p}))
    case SetNewGlobal(obj, p, isNew) =>
      if ok then Next(s.(owner := SetLock(p, isNew, s.nextGlobal), nextGlobal := s.nextGlobal + 1,
                         globals := s.globals[s.nextGlobal := obj]))
      else Next(s.(owner := Resting, leaked := if isNew then s.leaked + {p} else s.leaked))
    case SetLock(p, isNew, g) => Acquire(s, p, TheOwner, s.(owner := SetRead(p, isNew, g)))
    case SetRead(p, isNew, g) =>
      Guarded(s, p, TheOwner, s.(owner := SetWrite(p, isNew, g, if p in s.heap then s.heap[p].service else None)))
    case SetWrite(p, isNew, g, was) =>
      if p !in s.heap then Crash(FreedStruct)
      else Guarded(s, p, TheOwner, s.(owner := SetOpen(p, isNew, was),
                                      heap := s.heap[p := s.heap[p].(service := Some(g))],
                                      log := if g in s.globals then s.log + [Stored(s.globals[g])] else s.log))
    case SetOpen(p, isNew, was) =>
      if p !in s.heap then Crash(FreedStruct)
      else Guarded(s, p, TheOwner, s.(owner := SetUnlock(p, isNew, was), heap := s.heap[p := s.heap[p].(released := false)]))
    case SetUnlock(p, isNew, was) => Release(s, p, TheOwner, s.(owner := SetDelete(p, isNew, was)))
    case SetDelete(p, isNew, was) => DeleteGlobal(s, was, s.(owner := SetArmHook(p, isNew)))
    case SetArmHook(p, isNew) => Next(s.(owner := SetArmCtx(p, isNew), hook := true))
    case SetArmCtx(p, isNew) => Next(s.(owner := Resting, ctx := Some(p)))
    case _ => Blocked
  }

  function OwnerDestroyStep(s: State): Outcome {
    match s.owner
    case DestroyReadCtx => Next(s.(owner := DestroyClearHook(s.ctx)))
    case DestroyClearHook(ctx) => Next(s.(owner := DestroyClearCtx(ctx), hook := false))
    case DestroyClearCtx(ctx) => Next(s.(owner := DestroyJoin(ctx), ctx := None))
    case DestroyJoin(ctx) =>
      if exists id :: id in s.threads && s.threads[id].at != Idle then Blocked
      else Next(s.(owner := if ctx.Some? then DestroyLock(ctx.value) else Destroyed))
    case DestroyLock(p) => Acquire(s, p, TheOwner, s.(owner := DestroyRead(p)))
    case DestroyRead(p) =>
      Guarded(s, p, TheOwner, s.(owner := DestroyClear(p, if p in s.heap then s.heap[p].service else None)))
    case DestroyClear(p, was) =>
      if p !in s.heap then Crash(FreedStruct)
      else Guarded(s, p, TheOwner, s.(owner := DestroyMark(p, was), heap := s.heap[p := s.heap[p].(service := None)],
                                      log := s.log + [Cleared]))
    case DestroyMark(p, was) =>
      if p !in s.heap then Crash(FreedStruct)
      else Guarded(s, p, TheOwner, s.(owner := DestroyUnlock(p, was), heap := s.heap[p := s.heap[p].(released := true)]))
    case DestroyUnlock(p, was) => Release(s, p, TheOwner, s.(owner := DestroyDelete(p, was)))
    case DestroyDelete(p, was) => DeleteGlobal(s, was, s.(owner := DestroyMutex(p)))
    case DestroyMutex(p) =>
      if p !in s.heap then Crash(FreedStruct)
      else if !s.heap[p].mutex then Crash(NoMutex)
      else if s.heap[p].holder != Nobody then Crash(MutexInUse)
      else Next(s.(owner := DestroyFree(p), heap := s.heap[p := s.heap[p].(mutex := false)]))
    case DestroyFree(p) =>
      if p !in s.heap then Crash(FreedStruct) else Next(s.(owner := Destroyed, heap := s.heap - {p}))
    case _ => Blocked
  }

  predicate Destroying(o: Owner) {
    o.DestroyReadCtx? || o.DestroyClearHook? || o.DestroyClearCtx? || o.DestroyJoin?
  }

  /** Past the join: the host starts no more background connects. */
  predicate Joined(o: Owner) {
    o.DestroyLock? || o.DestroyRead? || o.DestroyClear? || o.DestroyMark? || o.DestroyUnlock? || o.DestroyDelete? ||
    o.DestroyMutex? || o.DestroyFree? || o.Destroyed?
  }

  function Step(s: State, a: Action): Outcome {
    match a
    case Launch(id, attached) =>
      if (id in s.threads && s.threads[id].at != Idle) || Joined(s.owner) then Blocked
      else Next(Logs(Becomes(s, id, Thread(Starting, attached, attached, {}, false)), Launched(id)))
    case Register(obj) => if s.owner == Resting then Next(s.(owner := SetReadCtx(obj))) else Blocked
    case Destroy => if s.owner == Resting then Next(s.(owner := DestroyReadCtx)) else Blocked
    case WorkerRuns(id, ok, answer) => WorkerStep(s, id, ok, answer)
    case OwnerRuns(ok) => if Destroying(s.owner) || Joined(s.owner) then OwnerDestroyStep(s) else OwnerSetStep(s, ok)
  }

  /** A run tries the actions in order; one that cannot happen yet is passed over. */
  function Run(actions: seq<Action>): Outcome {
    if actions == [] then Next(Init())
    else
      var n := |actions| - 1;
      match Run(actions[..n])
      case Next(s) => var r := Step(s, actions[n]); if r.Blocked? then Next(s) else r
      case other => other
  }
}
