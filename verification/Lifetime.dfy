/** What every interleaving of the socket protector keeps. */
module Lifetime {
  import opened Protector
  import opened Text

  // ---------- what each point of a thread's code implies ----------

  /** The struct the worker was handed. */
  function WorkerStruct(w: Worker): Option<nat> {
    match w
    case Enter(ctx) => ctx
    case GetEnv(p) => Some(p)
    case Attach(p) => Some(p)
    case Lock(p, _) => Some(p)
    case Read(p, _) => Some(p)
    case TakeRef(p, _) => Some(p)
    case Unlock(p, _, _) => Some(p)
    case GetClass(p, _, _) => Some(p)
    case GetMethod(p, _, _) => Some(p)
    case Call(p, _, _) => Some(p)
    case DropClass(p, _, _, _) => Some(p)
    case DropService(p, _, _, _) => Some(p)
    case Detach(p, _, _) => Some(p)
    case _ => None
  }

  predicate WorkerCritical(w: Worker) {
    w.Read? || w.TakeRef? || w.Unlock?
  }

  /** The local references that are live at each point. */
  function WorkerLocals(w: Worker): set<LocalRef> {
    match w
    case Unlock(_, _, Some(obj)) => {ServiceRef(obj)}
    case GetClass(_, _, obj) => {ServiceRef(obj)}
    case GetMethod(_, _, obj) => {ServiceRef(obj), ClassRef(obj)}
    case Call(_, _, obj) => {ServiceRef(obj), ClassRef(obj)}
    case DropClass(_, _, obj, _) => {ServiceRef(obj), ClassRef(obj)}
    case DropService(_, _, obj, _) => {ServiceRef(obj)}
    case _ => {}
  }

  /** Whether this upcall attached the thread and has not detached it yet. */
  predicate AttachedHere(w: Worker) {
    match w
    case Lock(_, here) => here
    case Read(_, here) => here
    case TakeRef(_, here) => here
    case Unlock(_, here, _) => here
    case GetClass(_, here, _) => here
    case GetMethod(_, here, _) => here
    case Call(_, here, _) => here
    case DropClass(_, here, _, _) => here
    case DropService(_, here, _, _) => here
    case Detach(_, here, _) => here
    case _ => false
  }

  /** The struct the owner is working on. */
  function OwnerStruct(o: Owner): Option<nat> {
    match o
    case SetMutexInit(_, p) => Some(p)
    case SetNewGlobal(_, p, _) => Some(p)
    case SetLock(p, _, _) => Some(p)
    case SetRead(p, _, _) => Some(p)
    case SetWrite(p, _, _, _) => Some(p)
    case SetOpen(p, _, _) => Some(p)
    case SetUnlock(p, _, _) => Some(p)
    case SetDelete(p, _, _) => Some(p)
    case SetArmHook(p, _) => Some(p)
    case SetArmCtx(p, _) => Some(p)
    case DestroyClearHook(ctx) => ctx
    case DestroyClearCtx(ctx) => ctx
    case DestroyJoin(ctx) => ctx
    case DestroyLock(p) => Some(p)
    case DestroyRead(p) => Some(p)
    case DestroyClear(p, _) => Some(p)
    case DestroyMark(p, _) => Some(p)
    case DestroyUnlock(p, _) => Some(p)
    case DestroyDelete(p, _) => Some(p)
    case DestroyMutex(p) => Some(p)
    case DestroyFree(p) => Some(p)
    case _ => None
  }

  predicate OwnerCritical(o: Owner) {
    o.SetRead? || o.SetWrite? || o.SetOpen? || o.SetUnlock? ||
    o.DestroyRead? || o.DestroyClear? || o.DestroyMark? || o.DestroyUnlock?
  }

  /** The owner's local copies of global references it still has to store or to delete. */
  function Transit(o: Owner): set<GlobalRef> {
    match o
    case SetLock(_, _, g) => {g}
    case SetRead(_, _, g) => {g}
    case SetWrite(_, _, g, _) => {g}
    case SetOpen(_, _, was) => OptionSet(was)
    case SetUnlock(_, _, was) => OptionSet(was)
    case SetDelete(_, _, was) => OptionSet(was)
    case DestroyMark(_, was) => OptionSet(was)
    case DestroyUnlock(_, was) => OptionSet(was)
    case DestroyDelete(_, was) => OptionSet(was)
    case _ => {}
  }

  function OptionSet(g: Option<nat>): set<nat> {
    if g.Some? then {g.value} else {}
  }

  /** The references the live structs own. */
  function Services(heap: map<nat, Struct>): set<GlobalRef> {
    set p | p in heap && heap[p].service.Some? :: heap[p].service.value
  }

  predicate Usable(heap: map<nat, Struct>, p: nat) {
    p in heap && heap[p].mutex && heap[p].vm
  }

  /** Registering on a new struct: the connection does not know it yet. Otherwise it is the connection's. */
  predicate Registering(hook: bool, ctx: Option<nat>, heap: map<nat, Struct>, p: nat, isNew: bool) {
    Usable(heap, p) && if isNew then !hook && ctx == None else hook && ctx == Some(p)
  }

  predicate Detached(hook: bool, ctx: Option<nat>) {
    !hook && ctx == None
  }

  predicate OwnerAt(hook: bool, ctx: Option<nat>, heap: map<nat, Struct>, owner: Owner) {
    match owner
    case SetAlloc(_) => Detached(hook, ctx)
    case SetMutexInit(_, p) => Detached(hook, ctx) && p in heap && heap[p] == Struct(false, false, Nobody, None, false)
    case SetNewGlobal(_, p, isNew) =>
      Registering(hook, ctx, heap, p, isNew) && (isNew ==> heap[p].service == None && heap[p].holder == Nobody)
    case SetLock(p, isNew, g) => Registering(hook, ctx, heap, p, isNew)
    case SetRead(p, isNew, g) => Registering(hook, ctx, heap, p, isNew)
    case SetWrite(p, isNew, g, was) => Registering(hook, ctx, heap, p, isNew) && heap[p].service == was
    case SetOpen(p, isNew, _) => Registering(hook, ctx, heap, p, isNew)
    case SetUnlock(p, isNew, _) => Registering(hook, ctx, heap, p, isNew)
    case SetDelete(p, isNew, _) => Registering(hook, ctx, heap, p, isNew)
    case SetArmHook(p, isNew) => Registering(hook, ctx, heap, p, isNew)
    case SetArmCtx(p, isNew) => Usable(heap, p) && hook && ctx == if isNew then None else Some(p)
    case DestroyClearHook(q) => ctx == q && (hook <==> q.Some?)
    case DestroyClearCtx(q) => ctx == q && !hook
    case DestroyJoin(q) => Detached(hook, ctx) && (q.Some? ==> Usable(heap, q.value))
    case DestroyLock(p) => Detached(hook, ctx) && Usable(heap, p)
    case DestroyRead(p) => Detached(hook, ctx) && Usable(heap, p)
    case DestroyClear(p, was) => Detached(hook, ctx) && Usable(heap, p) && heap[p].service == was
    case DestroyMark(p, _) => Detached(hook, ctx) && Usable(heap, p) && heap[p].service == None
    case DestroyUnlock(p, _) => Detached(hook, ctx) && Usable(heap, p) && heap[p].service == None
    case DestroyDelete(p, _) => Detached(hook, ctx) && Usable(heap, p) && heap[p].service == None
    case DestroyMutex(p) => Detached(hook, ctx) && Usable(heap, p) && heap[p].service == None
    case DestroyFree(p) => Detached(hook, ctx) && p in heap && heap[p].service == None && heap[p].holder == Nobody
    case Destroyed => Detached(hook, ctx)
    case _ => hook <==> ctx.Some?
  }

  /** While a thread is inside an upcall its struct is usable and still known to the connection or to the owner
      waiting for the thread; it holds exactly the references of its point, and is attached exactly if it was
      before or attached itself. */
  predicate ThreadAt(hook: bool, ctx: Option<nat>, heap: map<nat, Struct>, owner: Owner, t: Thread) {
    && (WorkerStruct(t.at).Some? ==>
         && Usable(heap, WorkerStruct(t.at).value)
         && (ctx == WorkerStruct(t.at) || owner == DestroyJoin(WorkerStruct(t.at))))
    && (t.at.TakeRef? ==> heap[t.at.p].service.Some?)
    && (t.at != Idle ==> !Joined(owner))
    && (t.at == LoadHook ==> hook || owner.DestroyClearCtx? || owner.DestroyJoin?)
    && t.locals == WorkerLocals(t.at)
    && (t.attached <==> t.wasAttached || AttachedHere(t.at))
    && (AttachedHere(t.at) || t.at.Attach? ==> !t.wasAttached)
  }

  predicate ThreadsAt(hook: bool, ctx: Option<nat>, heap: map<nat, Struct>, owner: Owner, threads: map<nat, Thread>) {
    forall id :: id in threads ==> ThreadAt(hook, ctx, heap, owner, threads[id])
  }

  predicate Inside(threads: map<nat, Thread>, id: nat, p: nat) {
    id in threads && WorkerCritical(threads[id].at) && WorkerStruct(threads[id].at) == Some(p)
  }

  ghost predicate LockAt(x: Struct, p: nat, threads: map<nat, Thread>, owner: Owner) {
    && (forall id :: x.holder == Upcaller(id) <==> Inside(threads, id, p))
    && (x.holder == TheOwner <==> OwnerCritical(owner) && OwnerStruct(owner) == Some(p))
  }

  /** A mutex is held by exactly the thread inside its critical section, and there is at most one. */
  ghost predicate LocksAt(heap: map<nat, Struct>, threads: map<nat, Thread>, owner: Owner) {
    forall p :: p in heap ==> LockAt(heap[p], p, threads, owner)
  }

  /** Only the connection's struct and the owner's own one matter; every other live struct is a leak. */
  predicate StructsAt(heap: map<nat, Struct>, ctx: Option<nat>, owner: Owner, leaked: set<nat>, nextStruct: nat) {
    && (ctx.Some? ==> Usable(heap, ctx.value))
    && heap.Keys == leaked + OptionSet(ctx) + OptionSet(OwnerStruct(owner))
    && leaked !! OptionSet(ctx) + OptionSet(OwnerStruct(owner))
    && (forall p :: p in heap ==> p < nextStruct)
    && (forall p :: p in leaked ==> p in heap && heap[p].service == None)
  }

  /** Conservation: the live global references are the ones the live structs own and the ones in the owner's
      hands, and no reference is both. */
  predicate GlobalsAt(globals: map<GlobalRef, Object>, heap: map<nat, Struct>, owner: Owner, nextGlobal: nat) {
    && globals.Keys == Services(heap) + Transit(owner)
    && Services(heap) !! Transit(owner)
    && (forall g :: g in globals ==> g < nextGlobal)
  }

  ghost predicate Inv(s: State) {
    && OwnerAt(s.hook, s.ctx, s.heap, s.owner)
    && ThreadsAt(s.hook, s.ctx, s.heap, s.owner, s.threads)
    && LocksAt(s.heap, s.threads, s.owner)
    && StructsAt(s.heap, s.ctx, s.owner, s.leaked, s.nextStruct)
    && GlobalsAt(s.globals, s.heap, s.owner, s.nextGlobal)
  }

  // ---------- one step ----------

  /** The worker leaves the owner's affairs alone. */
  predicate WorkerFrame(s: State, t: State) {
    t.owner == s.owner && t.leaked == s.leaked
  }

  /** Registering leads back to rest, and leaks a struct exactly when the reference for a struct the
      connection does not know yet cannot be made. */
  predicate SetFrame(s: State, ok: bool, t: State) {
    && !Destroying(t.owner) && !Joined(t.owner) && s.leaked <= t.leaked
    && (t.leaked != s.leaked <==> s.owner.SetNewGlobal? && s.owner.isNew && !ok)
  }

  /** A step that changes one struct's service moves exactly that reference. */
  lemma ServicesAfter(heap: map<nat, Struct>, p: nat, x: Struct)
    requires forall q :: q in heap && q != p ==> heap[q].service == None
    ensures Services(heap[p := x]) == OptionSet(x.service)
    ensures Services(heap) == if p in heap then OptionSet(heap[p].service) else {}
    ensures Services(heap - {p}) == {}
  {
    var after := heap[p := x];
    assert p in after && after[p] == x;
  }

  lemma ThreadOf(s: State, id: nat)
    requires Inv(s) && id in s.threads
    ensures ThreadAt(s.hook, s.ctx, s.heap, s.owner, s.threads[id])
  {
    hide OwnerAt, ThreadAt, StructsAt, GlobalsAt, LocksAt;
  }

  /** What is left to show for a step of thread `id` that touches no struct. */
  lemma ThreadMoved(s: State, t: State, id: nat)
    requires Inv(s) && id in s.threads && id in t.threads
    requires t == s.(threads := s.threads[id := t.threads[id]], log := t.log)
    requires ThreadAt(s.hook, s.ctx, s.heap, s.owner, t.threads[id])
    requires WorkerCritical(s.threads[id].at) == WorkerCritical(t.threads[id].at)
    requires WorkerCritical(s.threads[id].at) ==> WorkerStruct(s.threads[id].at) == WorkerStruct(t.threads[id].at)
    ensures Inv(t)
  {
    hide OwnerAt, GlobalsAt, StructsAt, ThreadAt, WorkerCritical, WorkerStruct;
    forall p | p in t.heap ensures LockAt(t.heap[p], p, t.threads, t.owner) {
      assert LockAt(s.heap[p], p, s.threads, s.owner);
      forall i ensures Inside(t.threads, i, p) <==> Inside(s.threads, i, p) {
      }
    }
  }

  lemma DiallingKeeps(s: State, id: nat, ok: bool)
    requires Inv(s) && id in s.threads && (s.threads[id].at.Starting? || s.threads[id].at.CheckHook?)
    ensures var r := DialStep(s, id, ok);
            r.Next? && Inv(r.s) && WorkerFrame(s, r.s)
  {
    hide OwnerAt, LocksAt, GlobalsAt, StructsAt, ThreadsAt;
    ThreadOf(s, id);
    ThreadMoved(s, DialStep(s, id, ok).s, id);
  }

  lemma ReturningKeeps(s: State, id: nat, ok: bool)
    requires Inv(s) && id in s.threads && (s.threads[id].at.Return? || s.threads[id].at.Finish?)
    ensures var r := DialStep(s, id, ok);
            r.Next? && Inv(r.s) && WorkerFrame(s, r.s)
  {
    hide OwnerAt, LocksAt, GlobalsAt, StructsAt, ThreadsAt;
    ThreadOf(s, id);
    ThreadMoved(s, DialStep(s, id, ok).s, id);
  }

  /** The one unguarded pair of accesses: the hook is compared with null, then read again for the call. */
  lemma HookingKeeps(s: State, id: nat, ok: bool)
    requires Inv(s) && id in s.threads && (s.threads[id].at == LoadHook || s.threads[id].at == LoadCtx)
    ensures var r := DialStep(s, id, ok);
            if s.threads[id].at == LoadHook && !s.hook then r == Crash(NullHook)
            else r.Next? && Inv(r.s) && WorkerFrame(s, r.s)
  {
    hide OwnerAt, LocksAt, GlobalsAt, ThreadsAt;
    ThreadOf(s, id);
    var r := DialStep(s, id, ok);
    if r.Next? {
      ThreadMoved(s, r.s, id);
    }
  }

  predicate EnterResult(s: State, id: nat, r: Outcome)
    requires id in s.threads
  {
    && r.Next? && id in r.s.threads && r.s == Becomes(s, id, r.s.threads[id])
    && ThreadAt(s.hook, s.ctx, s.heap, s.owner, r.s.threads[id])
    && !WorkerCritical(s.threads[id].at) && !WorkerCritical(r.s.threads[id].at)
  }

  lemma EntersAt(s: State, t: Thread)
    requires t.at.Enter? && ThreadAt(s.hook, s.ctx, s.heap, s.owner, t)
    ensures ThreadAt(s.hook, s.ctx, s.heap, s.owner, t.(at := Return(false)))
    ensures t.at.ctx.Some? ==>
      t.at.ctx.value in s.heap && ThreadAt(s.hook, s.ctx, s.heap, s.owner, t.(at := GetEnv(t.at.ctx.value)))
  {
  }

  lemma EnterFrom(s: State, id: nat, ok: bool)
    requires Inv(s) && id in s.threads && s.threads[id].at.Enter?
    ensures EnterResult(s, id, EnterStep(s, id, ok))
  {
    hide OwnerAt, LocksAt, GlobalsAt, StructsAt, ThreadsAt;
    ThreadOf(s, id);
    var t := s.threads[id];
    EntersAt(s, t);
    hide ThreadAt;
  }

  lemma EnterAttaching(s: State, id: nat, ok: bool)
    requires Inv(s) && id in s.threads && (s.threads[id].at.GetEnv? || s.threads[id].at.Attach?)
    ensures EnterResult(s, id, EnterStep(s, id, ok))
  {
    hide OwnerAt, LocksAt, GlobalsAt, StructsAt, ThreadsAt;
    ThreadOf(s, id);
  }

  lemma EnteringKeeps(s: State, id: nat, ok: bool)
    requires Inv(s) && id in s.threads && Entering(s.threads[id].at)
    ensures var r := EnterStep(s, id, ok);
            r.Next? && Inv(r.s) && WorkerFrame(s, r.s)
  {
    hide OwnerAt, LocksAt, GlobalsAt, StructsAt, ThreadsAt, EnterStep, Inv, ThreadAt;
    if s.threads[id].at.Enter? {
      EnterFrom(s, id, ok);
    } else {
      EnterAttaching(s, id, ok);
    }
    ThreadMoved(s, EnterStep(s, id, ok).s, id);
  }

  /** Taking and dropping references keeps the count: after each step the thread holds exactly those of its point,
      and each one it uses is live. */
  lemma CallThreadKeeps(t: Thread, ok: bool, answer: Answer)
    requires Calling(t.at) && t.locals == WorkerLocals(t.at)
    ensures var u := CallThread(t, ok, answer);
            && RefUsed(t.at) in t.locals
            && u.locals == WorkerLocals(u.at) && (Calling(u.at) || u.at.Detach?)
            && WorkerStruct(u.at) == WorkerStruct(t.at) && AttachedHere(u.at) == AttachedHere(t.at)
            && u.wasAttached == t.wasAttached && u.attached == t.attached
  {
  }

  lemma CallingKeeps(s: State, id: nat, ok: bool, answer: Answer)
    requires Inv(s) && id in s.threads && Calling(s.threads[id].at)
    ensures var r := CallStep(s, id, ok, answer);
            r.Next? && Inv(r.s) && WorkerFrame(s, r.s)
  {
    hide OwnerAt, LocksAt, GlobalsAt, StructsAt, ThreadsAt, WorkerLocals, Usable, CallThread, RefUsed, CallEvents;
    ThreadOf(s, id);
    CallThreadKeeps(s.threads[id], ok, answer);
    ThreadMoved(s, CallStep(s, id, ok, answer).s, id);
  }

  lemma DetachingKeeps(s: State, id: nat)
    requires Inv(s) && id in s.threads && s.threads[id].at.Detach?
    ensures var r := DetachStep(s, id);
            r.Next? && Inv(r.s) && WorkerFrame(s, r.s)
  {
    hide OwnerAt, LocksAt, GlobalsAt, StructsAt, ThreadsAt;
    ThreadOf(s, id);
    ThreadMoved(s, DetachStep(s, id).s, id);
  }

  lemma SameServices(heap: map<nat, Struct>, p: nat, x: Struct)
    requires p in heap && x.service == heap[p].service
    ensures Services(heap[p := x]) == Services(heap)
  {
    var after := heap[p := x];
    assert forall q :: q in heap <==> q in after;
    forall g | g in Services(heap) ensures g in Services(after) {
      var q :| q in heap && heap[q].service.Some? && heap[q].service.value == g;
      assert q in after && after[q].service == heap[q].service;
    }
  }

  lemma LockOf(s: State, p: nat)
    requires Inv(s) && p in s.heap
    ensures LockAt(s.heap[p], p, s.threads, s.owner)
  {
    hide OwnerAt, ThreadsAt, StructsAt, GlobalsAt, LockAt;
  }

  /** A change of a holder leaves every thread's situation as it is. */
  lemma HolderIrrelevant(s: State, p: nat, holder: Holder, t: Thread)
    requires p in s.heap
    ensures var heap := s.heap[p := s.heap[p].(holder := holder)];
            ThreadAt(s.hook, s.ctx, heap, s.owner, t) <==> ThreadAt(s.hook, s.ctx, s.heap, s.owner, t)
  {
    hide WorkerLocals, AttachedHere;
  }

  /** Only the holder of thread `id`'s struct changed. */
  lemma ThreadLocked(s: State, t: State, id: nat, p: nat, holder: Holder)
    requires Inv(s) && id in s.threads && id in t.threads && p in s.heap && WorkerStruct(s.threads[id].at) == Some(p)
    requires t == s.(threads := s.threads[id := t.threads[id]], heap := s.heap[p := s.heap[p].(holder := holder)])
    requires ThreadAt(s.hook, s.ctx, s.heap, s.owner, t.threads[id])
    requires LocksAt(t.heap, t.threads, t.owner)
    ensures Inv(t)
  {
    hide LocksAt;
    SameServices(s.heap, p, s.heap[p].(holder := holder));
    LockedElsewhere(s, id, p, holder);
    assert ThreadsAt(t.hook, t.ctx, t.heap, t.owner, t.threads) by {
      hide ThreadAt;
      forall i | i in t.threads ensures ThreadAt(t.hook, t.ctx, t.heap, t.owner, t.threads[i]) {
        HolderIrrelevant(s, p, holder, t.threads[i]);
      }
    }
  }

  /** The owner's point does not depend on the holder of a struct it knows to be its own alone. */
  lemma LockedElsewhere(s: State, id: nat, p: nat, holder: Holder)
    requires Inv(s) && id in s.threads && p in s.heap && WorkerStruct(s.threads[id].at) == Some(p)
    ensures var heap := s.heap[p := s.heap[p].(holder := holder)];
            && OwnerAt(s.hook, s.ctx, heap, s.owner)
            && StructsAt(heap, s.ctx, s.owner, s.leaked, s.nextStruct)
  {
    hide LocksAt, GlobalsAt, ThreadsAt, Services;
    ThreadOf(s, id);
  }

  lemma LockKeeps(s: State, id: nat, ok: bool)
    requires Inv(s) && id in s.threads && s.threads[id].at.Lock?
    ensures var r := LockStep(s, id, ok);
            !r.Crash? && (r.Next? ==> Inv(r.s) && WorkerFrame(s, r.s))
  {
    hide OwnerAt, StructsAt, GlobalsAt, ThreadsAt, LocksAt;
    ThreadOf(s, id);
    var p := s.threads[id].at.p;
    LockOf(s, p);
    var r := LockStep(s, id, ok);
    if r.Next? {
      LockTaken(s, r.s, id, p);
      ThreadLocked(s, r.s, id, p, Upcaller(id));
    }
  }

  lemma LockTaken(s: State, t: State, id: nat, p: nat)
    requires Inv(s) && id in s.threads && id in t.threads && p in s.heap && s.heap[p].holder == Nobody
    requires t == s.(threads := s.threads[id := t.threads[id]], heap := s.heap[p := s.heap[p].(holder := Upcaller(id))])
    requires !WorkerCritical(s.threads[id].at) && WorkerCritical(t.threads[id].at) && WorkerStruct(t.threads[id].at) == Some(p)
    ensures LocksAt(t.heap, t.threads, t.owner)
  {
    hide OwnerAt, StructsAt, GlobalsAt, ThreadsAt, WorkerCritical, WorkerStruct;
    forall q | q in t.heap ensures LockAt(t.heap[q], q, t.threads, t.owner) {
      LockOf(s, q);
      forall i ensures Inside(t.threads, i, q) <==> if i == id then q == p else Inside(s.threads, i, q) {
      }
    }
  }

  lemma LockGiven(s: State, t: State, id: nat, p: nat)
    requires Inv(s) && id in s.threads && id in t.threads && p in s.heap && s.heap[p].holder == Upcaller(id)
    requires t == s.(threads := s.threads[id := t.threads[id]], heap := s.heap[p := s.heap[p].(holder := Nobody)])
    requires WorkerCritical(s.threads[id].at) && WorkerStruct(s.threads[id].at) == Some(p) && !WorkerCritical(t.threads[id].at)
    ensures LocksAt(t.heap, t.threads, t.owner)
  {
    hide OwnerAt, StructsAt, GlobalsAt, ThreadsAt, WorkerCritical, WorkerStruct;
    LockOf(s, p);
    forall q | q in t.heap ensures LockAt(t.heap[q], q, t.threads, t.owner) {
      LockOf(s, q);
      forall i ensures Inside(t.threads, i, q) <==> i != id && Inside(s.threads, i, q) {
      }
    }
  }

  lemma UnlocksAt(s: State, t: Thread)
    requires t.at.Unlock? && ThreadAt(s.hook, s.ctx, s.heap, s.owner, t)
    ensures var w := t.at;
            ThreadAt(s.hook, s.ctx, s.heap, s.owner,
              t.(at := if w.taken.Some? then GetClass(w.p, w.here, w.taken.value) else Detach(w.p, w.here, false)))
  {
  }

  lemma UnlockKeeps(s: State, id: nat, ok: bool)
    requires Inv(s) && id in s.threads && s.threads[id].at.Unlock?
    ensures var r := LockStep(s, id, ok);
            r.Next? && Inv(r.s) && WorkerFrame(s, r.s)
  {
    hide OwnerAt, StructsAt, GlobalsAt, ThreadsAt, LocksAt;
    ThreadOf(s, id);
    var p := s.threads[id].at.p;
    LockOf(s, p);
    assert Inside(s.threads, id, p);
    UnlocksAt(s, s.threads[id]);
    hide ThreadAt;
    var t := LockStep(s, id, ok).s;
    LockGiven(s, t, id, p);
    ThreadLocked(s, t, id, p, Nobody);
  }

  /** A live struct's service is a live reference. */
  lemma ServiceIsLive(s: State, p: nat)
    requires Inv(s) && p in s.heap && s.heap[p].service.Some?
    ensures s.heap[p].service.value in s.globals
  {
    hide OwnerAt, ThreadsAt, StructsAt, LocksAt;
    assert s.heap[p].service.value in Services(s.heap);
  }

  lemma ReadKeeps(s: State, id: nat, ok: bool)
    requires Inv(s) && id in s.threads && s.threads[id].at.Read?
    ensures var r := LockStep(s, id, ok);
            r.Next? && Inv(r.s) && WorkerFrame(s, r.s)
  {
    hide OwnerAt, StructsAt, GlobalsAt, ThreadsAt, LocksAt;
    ThreadOf(s, id);
    LockOf(s, s.threads[id].at.p);
    assert Inside(s.threads, id, s.threads[id].at.p);
    ThreadMoved(s, LockStep(s, id, ok).s, id);
  }

  /** So the local reference can be taken from it, whatever the owner is about to do. */
  lemma TakeRefKeeps(s: State, id: nat, ok: bool)
    requires Inv(s) && id in s.threads && s.threads[id].at.TakeRef?
    ensures var r := LockStep(s, id, ok);
            r.Next? && Inv(r.s) && WorkerFrame(s, r.s)
  {
    hide OwnerAt, StructsAt, GlobalsAt, ThreadsAt, LocksAt;
    ThreadOf(s, id);
    var p := s.threads[id].at.p;
    LockOf(s, p);
    assert Inside(s.threads, id, p);
    ServiceIsLive(s, p);
    ThreadMoved(s, LockStep(s, id, ok).s, id);
  }

  /** Every step of an upcalling thread keeps the invariant; the one that faults reads a cleared hook. */
  lemma WorkerStepKeeps(s: State, id: nat, ok: bool, answer: Answer)
    requires Inv(s)
    ensures var r := WorkerStep(s, id, ok, answer);
            && (r.Next? ==> Inv(r.s) && WorkerFrame(s, r.s))
            && (r.Crash? <==> id in s.threads && s.threads[id].at == LoadHook && !s.hook)
            && (r.Crash? ==> r.fault == NullHook)
  {
    hide DialStep, EnterStep, LockStep, CallStep, DetachStep, Inv, WorkerFrame;
    if id in s.threads {
      match s.threads[id].at
      case Idle =>
      case LoadHook => HookingKeeps(s, id, ok);
      case LoadCtx => HookingKeeps(s, id, ok);
      case Enter(_) => EnteringKeeps(s, id, ok);
      case GetEnv(_) => EnteringKeeps(s, id, ok);
      case Attach(_) => EnteringKeeps(s, id, ok);
      case Lock(_, _) => LockKeeps(s, id, ok);
      case Read(_, _) => ReadKeeps(s, id, ok);
      case TakeRef(_, _) => TakeRefKeeps(s, id, ok);
      case Unlock(_, _, _) => UnlockKeeps(s, id, ok);
      case GetClass(_, _, _) => CallingKeeps(s, id, ok, answer);
      case GetMethod(_, _, _) => CallingKeeps(s, id, ok, answer);
      case Call(_, _, _) => CallingKeeps(s, id, ok, answer);
      case DropClass(_, _, _, _) => CallingKeeps(s, id, ok, answer);
      case DropService(_, _, _, _) => CallingKeeps(s, id, ok, answer);
      case Detach(_, _, _) => DetachingKeeps(s, id);
      case Return(_) => ReturningKeeps(s, id, ok);
      case Finish => ReturningKeeps(s, id, ok);
      case _ => DiallingKeeps(s, id, ok);
    }
  }

  // ---------- the owner's steps ----------

  /** The threads inside an upcall do not notice a step of the owner: their struct stays usable and known, and the one
      they have locked keeps its service. */
  lemma ThreadsStay(s: State, t: State)
    requires Inv(s) && t.threads == s.threads
    requires forall q: nat :: Usable(s.heap, q) && (s.ctx == Some(q) || s.owner == DestroyJoin(Some(q))) ==>
      Usable(t.heap, q) && (t.ctx == Some(q) || t.owner == DestroyJoin(Some(q)))
    requires forall q: nat :: q in s.heap && s.heap[q].holder.Upcaller? ==> q in t.heap && t.heap[q].service == s.heap[q].service
    requires Joined(t.owner) ==> Joined(s.owner)
    requires s.hook || s.owner.DestroyClearCtx? || s.owner.DestroyJoin? ==>
      t.hook || t.owner.DestroyClearCtx? || t.owner.DestroyJoin?
    ensures ThreadsAt(t.hook, t.ctx, t.heap, t.owner, t.threads)
  {
    hide OwnerAt, GlobalsAt, StructsAt, LocksAt, WorkerLocals, Usable, Joined, AttachedHere;
    forall id | id in t.threads ensures ThreadAt(t.hook, t.ctx, t.heap, t.owner, t.threads[id]) {
      ThreadOf(s, id);
      var w := s.threads[id].at;
      if w.TakeRef? {
        assert w.p in s.heap by { UsableIsLive(s.heap, w.p); }
        LockOf(s, w.p);
        assert Inside(s.threads, id, w.p);
      }
    }
  }

  lemma UsableIsLive(heap: map<nat, Struct>, p: nat)
    requires Usable(heap, p)
    ensures p in heap
  {
  }

  /** What is left to show for a step of the owner that changes no struct and no reference. */
  lemma OwnerMoved(s: State, t: State)
    requires Inv(s) && t == s.(hook := t.hook, ctx := t.ctx, owner := t.owner, leaked := t.leaked)
    requires OwnerAt(t.hook, t.ctx, t.heap, t.owner)
    requires ThreadsAt(t.hook, t.ctx, t.heap, t.owner, t.threads)
    requires StructsAt(t.heap, t.ctx, t.owner, t.leaked, t.nextStruct)
    requires Transit(t.owner) == Transit(s.owner)
    requires OwnerCritical(s.owner) == OwnerCritical(t.owner)
    requires OwnerCritical(s.owner) ==> OwnerStruct(s.owner) == OwnerStruct(t.owner)
    ensures Inv(t)
  {
    hide OwnerAt, ThreadsAt, StructsAt, GlobalsAt, LocksAt, Transit, OwnerCritical, OwnerStruct;
    SameOwnerLocks(s.heap, s.threads, s.owner, t.owner);
    SameTransit(s, t);
  }

  /** Reading the connection's struct and linking one to it keep the live structs. */
  lemma LinkedStructs(s: State, ok: bool)
    requires Inv(s) && (s.owner.SetReadCtx? || s.owner.SetArmHook? || s.owner.SetArmCtx?)
    ensures var t := OwnerSetStep(s, ok).s;
            t.leaked == s.leaked && StructsAt(t.heap, t.ctx, t.owner, t.leaked, t.nextStruct)
    ensures s.ctx.Some? ==> Usable(s.heap, s.ctx.value)
  {
    hide LocksAt, GlobalsAt, ThreadsAt;
  }

  lemma SetReadCtxKeeps(s: State, ok: bool)
    requires Inv(s) && s.owner.SetReadCtx?
    ensures var r := OwnerSetStep(s, ok);
            r.Next? && Inv(r.s) && SetFrame(s, ok, r.s)
  {
    hide LocksAt, GlobalsAt, ThreadsAt, StructsAt;
    var t := OwnerSetStep(s, ok).s;
    LinkedStructs(s, ok);
    ThreadsStay(s, t);
    OwnerMoved(s, t);
  }

  lemma SetAllocKeeps(s: State, ok: bool)
    requires Inv(s) && s.owner.SetAlloc?
    ensures var r := OwnerSetStep(s, ok);
            r.Next? && Inv(r.s) && SetFrame(s, ok, r.s)
  {
    hide LocksAt, GlobalsAt, ThreadsAt, Services;
    var t := OwnerSetStep(s, ok).s;
    ThreadsStay(s, t);
    if ok {
      FreshService(s.heap, s.nextStruct, t.heap[s.nextStruct]);
      SameTransit(s, t);
      FreshLocks(s, t, s.nextStruct);
    } else {
      OwnerMoved(s, t);
    }
  }

  lemma FreshLocks(s: State, t: State, p: nat)
    requires Inv(s) && p !in s.heap && t.heap == s.heap[p := Struct(false, false, Nobody, None, false)]
    requires t.threads == s.threads && !OwnerCritical(s.owner) && !OwnerCritical(t.owner)
    ensures LocksAt(t.heap, t.threads, t.owner)
  {
    hide OwnerAt, GlobalsAt, StructsAt, WorkerCritical, OwnerCritical;
    forall q | q in t.heap ensures LockAt(t.heap[q], q, t.threads, t.owner) {
      if q == p {
        forall id ensures !Inside(t.threads, id, p) {
          if id in t.threads {
            ThreadOf(s, id);
          }
        }
      } else {
        LockOf(s, q);
      }
    }
  }

  lemma FreshService(heap: map<nat, Struct>, p: nat, x: Struct)
    requires p !in heap && x.service == None
    ensures Services(heap[p := x]) == Services(heap)
  {
    var after := heap[p := x];
    forall g | g in Services(heap) ensures g in Services(after) {
      var q :| q in heap && heap[q].service.Some? && heap[q].service.value == g;
      assert q in after && after[q].service == heap[q].service;
    }
  }

  lemma MutexInitKeeps(s: State, ok: bool)
    requires Inv(s) && s.owner.SetMutexInit?
    ensures var r := OwnerSetStep(s, ok);
            r.Next? && Inv(r.s) && SetFrame(s, ok, r.s)
  {
    hide GlobalsAt, Services, LocksAt, LockAt, StructsAt, ThreadsAt;
    var p := s.owner.p;
    var t := OwnerSetStep(s, ok).s;
    LockOf(s, p);
    if ok {
      SameServices(s.heap, p, t.heap[p]);
    } else {
      FreedService(s.heap, p);
    }
    SameTransit(s, t);
    MutexInitStructs(s, ok);
    MutexInitLocks(s, ok);
    ThreadsStay(s, t);
  }

  lemma MutexInitStructs(s: State, ok: bool)
    requires Inv(s) && s.owner.SetMutexInit?
    ensures var r := OwnerSetStep(s, ok);
            r.Next? && StructsAt(r.s.heap, r.s.ctx, r.s.owner, r.s.leaked, r.s.nextStruct)
  {
    hide GlobalsAt, LocksAt, ThreadsAt;
  }

  lemma MutexInitLocks(s: State, ok: bool)
    requires Inv(s) && s.owner.SetMutexInit?
    ensures var r := OwnerSetStep(s, ok);
            r.Next? && LocksAt(r.s.heap, r.s.threads, r.s.owner)
  {
    hide GlobalsAt, ThreadsAt, StructsAt;
    var t := OwnerSetStep(s, ok).s;
    forall q | q in t.heap ensures LockAt(t.heap[q], q, t.threads, t.owner) {
      LockOf(s, q);
    }
  }

  lemma FreedService(heap: map<nat, Struct>, p: nat)
    requires p in heap && heap[p].service == None
    ensures Services(heap - {p}) == Services(heap)
  {
    var after := heap - {p};
    forall g | g in Services(heap) ensures g in Services(after) {
      var q :| q in heap && heap[q].service.Some? && heap[q].service.value == g;
      assert q in after && after[q].service == heap[q].service;
    }
  }

  lemma SameOwnerLocks(heap: map<nat, Struct>, threads: map<nat, Thread>, o: Owner, u: Owner)
    requires LocksAt(heap, threads, o)
    requires OwnerCritical(o) == OwnerCritical(u) && (OwnerCritical(o) ==> OwnerStruct(o) == OwnerStruct(u))
    ensures LocksAt(heap, threads, u)
  {
    forall p | p in heap ensures LockAt(heap[p], p, threads, u) {
      assert LockAt(heap[p], p, threads, o);
    }
  }

  /** A new reference is nobody's yet. */
  lemma Made(s: State, t: State)
    requires Inv(s) && s.owner.SetNewGlobal? && t.heap == s.heap
    requires || (t.owner == Resting && t.globals == s.globals && t.nextGlobal == s.nextGlobal)
             || (t.owner == SetLock(s.owner.p, s.owner.isNew, s.nextGlobal) && t.nextGlobal == s.nextGlobal + 1 &&
                 t.globals == s.globals[s.nextGlobal := s.owner.obj])
    ensures GlobalsAt(t.globals, t.heap, t.owner, t.nextGlobal)
  {
    hide OwnerAt, LocksAt, ThreadsAt, StructsAt, Services;
    assert s.nextGlobal !in s.globals;
  }

  /** A struct whose reference could not be made passes to the leaked ones. */
  lemma MadeStructs(s: State, ok: bool)
    requires Inv(s) && s.owner.SetNewGlobal?
    ensures var t := OwnerSetStep(s, ok).s;
            StructsAt(t.heap, t.ctx, t.owner, t.leaked, t.nextStruct) && s.leaked <= t.leaked &&
            (t.leaked != s.leaked <==> s.owner.isNew && !ok)
  {
    hide LocksAt, ThreadsAt, GlobalsAt;
  }

  lemma NewGlobalKeeps(s: State, ok: bool)
    requires Inv(s) && s.owner.SetNewGlobal?
    ensures var r := OwnerSetStep(s, ok);
            r.Next? && Inv(r.s) && SetFrame(s, ok, r.s)
  {
    hide LocksAt, ThreadsAt, Services, GlobalsAt, StructsAt;
    var t := OwnerSetStep(s, ok).s;
    SameOwnerLocks(s.heap, s.threads, s.owner, t.owner);
    ThreadsStay(s, t);
    MadeStructs(s, ok);
    Made(s, t);
  }

  /** Only the owner's point and the holder of its struct changed. */
  lemma OwnerLocked(s: State, t: State, p: nat, holder: Holder)
    requires Inv(s) && OwnerStruct(s.owner) == Some(p) && p in s.heap
    requires t.heap == s.heap[p := s.heap[p].(holder := holder)]
    requires t == s.(heap := t.heap, owner := t.owner)
    requires OwnerStruct(t.owner) == Some(p) && Transit(t.owner) == Transit(s.owner)
    requires OwnerAt(t.hook, t.ctx, t.heap, t.owner) && ThreadsAt(t.hook, t.ctx, t.heap, t.owner, t.threads)
    requires LocksAt(t.heap, t.threads, t.owner)
    ensures Inv(t)
  {
    hide LocksAt, OwnerAt, ThreadsAt;
    SameServices(s.heap, p, s.heap[p].(holder := holder));
  }

  lemma OwnerLocks(s: State, t: State, p: nat)
    requires Inv(s) && OwnerStruct(s.owner) == Some(p) && OwnerStruct(t.owner) == Some(p) && p in s.heap
    requires t.heap == s.heap[p := s.heap[p].(holder := if OwnerCritical(t.owner) then TheOwner else Nobody)]
    requires t.threads == s.threads && OwnerCritical(s.owner) != OwnerCritical(t.owner) && !s.heap[p].holder.Upcaller?
    ensures LocksAt(t.heap, t.threads, t.owner)
  {
    hide OwnerAt, GlobalsAt, StructsAt, ThreadsAt, Inside, OwnerCritical, OwnerStruct;
    LockOf(s, p);
    forall q | q in t.heap ensures LockAt(t.heap[q], q, t.threads, t.owner) {
      LockOf(s, q);
    }
  }

  lemma SetLockKeeps(s: State, ok: bool)
    requires Inv(s) && s.owner.SetLock?
    ensures var r := OwnerSetStep(s, ok);
            !r.Crash? && (r.Next? ==> Inv(r.s) && SetFrame(s, ok, r.s))
  {
    hide StructsAt, GlobalsAt, ThreadsAt, LocksAt;
    var r := OwnerSetStep(s, ok);
    LockOf(s, s.owner.p);
    if r.Next? {
      OwnerLocks(s, r.s, s.owner.p);
      ThreadsStay(s, r.s);
      OwnerLocked(s, r.s, s.owner.p, TheOwner);
    }
  }

  lemma SetUnlockKeeps(s: State, ok: bool)
    requires Inv(s) && s.owner.SetUnlock?
    ensures var r := OwnerSetStep(s, ok);
            r.Next? && Inv(r.s) && SetFrame(s, ok, r.s)
  {
    hide StructsAt, GlobalsAt, ThreadsAt, LocksAt;
    var r := OwnerSetStep(s, ok);
    LockOf(s, s.owner.p);
    if r.Next? {
      OwnerLocks(s, r.s, s.owner.p);
      ThreadsStay(s, r.s);
      OwnerLocked(s, r.s, s.owner.p, Nobody);
    }
  }

  lemma SetReadKeeps(s: State, ok: bool)
    requires Inv(s) && s.owner.SetRead?
    ensures var r := OwnerSetStep(s, ok);
            r.Next? && Inv(r.s) && SetFrame(s, ok, r.s)
  {
    hide LocksAt, GlobalsAt, ThreadsAt;
    LockOf(s, s.owner.p);
    var t := OwnerSetStep(s, ok).s;
    ThreadsStay(s, t);
    OwnerMoved(s, t);
  }

  lemma SameTransit(s: State, t: State)
    requires GlobalsAt(s.globals, s.heap, s.owner, s.nextGlobal)
    requires t.globals == s.globals && Services(t.heap) == Services(s.heap) && t.nextGlobal == s.nextGlobal
    requires Transit(t.owner) == Transit(s.owner)
    ensures GlobalsAt(t.globals, t.heap, t.owner, t.nextGlobal)
  {
  }

  /** Besides the owner's struct no live struct has a service. */
  lemma OnlyService(s: State, p: nat)
    requires Inv(s) && OwnerStruct(s.owner) == Some(p) && (s.ctx == None || s.ctx == Some(p))
    ensures forall q :: q in s.heap && q != p ==> s.heap[q].service == None
  {
    hide OwnerAt, ThreadsAt, LocksAt, GlobalsAt;
    forall q | q in s.heap && q != p ensures s.heap[q].service == None {
      assert q in s.leaked;
    }
  }

  lemma SetWriteKeeps(s: State, ok: bool)
    requires Inv(s) && s.owner.SetWrite?
    ensures var r := OwnerSetStep(s, ok);
            r.Next? && Inv(r.s) && SetFrame(s, ok, r.s)
  {
    hide LocksAt, GlobalsAt, Services, ThreadsAt;
    var p := s.owner.p;
    LockOf(s, p);
    var t := OwnerSetStep(s, ok).s;
    Swapped(s, t, p);
    StructChanged(s, t, p);
    ThreadsStay(s, t);
  }

  /** The struct's service and the reference in the owner's hands change places. */
  lemma Swapped(s: State, t: State, p: nat)
    requires Inv(s) && s.owner.SetWrite? && s.owner.p == p && p in s.heap
    requires t.owner == SetOpen(p, s.owner.isNew, s.owner.was)
    requires t.heap == s.heap[p := s.heap[p].(service := Some(s.owner.g))]
    requires t.globals == s.globals && t.nextGlobal == s.nextGlobal
    ensures GlobalsAt(t.globals, t.heap, t.owner, t.nextGlobal)
  {
    hide LocksAt, ThreadsAt, StructsAt, Services;
    OnlyService(s, p);
    ServicesAfter(s.heap, p, t.heap[p]);
  }

  /** The owner changed a field of its struct that the lock guards. */
  lemma StructChanged(s: State, t: State, p: nat)
    requires Inv(s) && p in s.heap && p in t.heap && t.heap == s.heap[p := t.heap[p]]
    requires t.heap[p].holder == s.heap[p].holder && t.threads == s.threads
    requires OwnerCritical(s.owner) && OwnerCritical(t.owner) && OwnerStruct(s.owner) == OwnerStruct(t.owner)
    ensures LocksAt(t.heap, t.threads, t.owner)
  {
    hide OwnerAt, GlobalsAt, StructsAt, ThreadsAt, Inside, OwnerCritical, OwnerStruct;
    forall q | q in t.heap ensures LockAt(t.heap[q], q, t.threads, t.owner) {
      LockOf(s, q);
    }
  }

  /** A struct outside the leaked ones changed, and keeps its place. */
  lemma OwnStructChanged(s: State, t: State, p: nat)
    requires Inv(s) && p in s.heap && p in t.heap && OwnerStruct(s.owner) == OwnerStruct(t.owner) == Some(p)
    requires t.heap == s.heap[p := t.heap[p]] && t.ctx == s.ctx && t.leaked == s.leaked && t.nextStruct == s.nextStruct
    requires t.ctx == Some(p) ==> Usable(t.heap, p)
    ensures StructsAt(t.heap, t.ctx, t.owner, t.leaked, t.nextStruct)
  {
    hide OwnerAt, ThreadsAt, LocksAt, GlobalsAt, OwnerStruct;
    assert t.heap.Keys == s.heap.Keys;
    assert p !in s.leaked;
  }

  lemma SetOpenKeeps(s: State, ok: bool)
    requires Inv(s) && s.owner.SetOpen?
    ensures var r := OwnerSetStep(s, ok);
            r.Next? && Inv(r.s) && SetFrame(s, ok, r.s)
  {
    hide LocksAt, ThreadsAt, GlobalsAt, StructsAt, Services;
    var p := s.owner.p;
    LockOf(s, p);
    var t := OwnerSetStep(s, ok).s;
    SameServices(s.heap, p, t.heap[p]);
    SameTransit(s, t);
    StructChanged(s, t, p);
    ThreadsStay(s, t);
    OwnStructChanged(s, t, p);
  }

  lemma SameStructs(s: State, t: State)
    requires StructsAt(s.heap, s.ctx, s.owner, s.leaked, s.nextStruct)
    requires t.heap == s.heap && t.ctx == s.ctx && t.leaked == s.leaked && t.nextStruct == s.nextStruct
    requires OwnerStruct(t.owner) == OwnerStruct(s.owner)
    ensures StructsAt(t.heap, t.ctx, t.owner, t.leaked, t.nextStruct)
  {
  }

  lemma OwnerPointAfterDelete(o: Owner)
    requires o.SetDelete?
    ensures var u := SetArmHook(o.p, o.isNew);
            Transit(u) == {} && OwnerStruct(u) == OwnerStruct(o) && !OwnerCritical(u) && !OwnerCritical(o)
  {
  }

  lemma SetDeleteKeeps(s: State, ok: bool)
    requires Inv(s) && s.owner.SetDelete?
    ensures var r := OwnerSetStep(s, ok);
            r.Next? && Inv(r.s) && SetFrame(s, ok, r.s)
  {
    hide LocksAt, GlobalsAt, ThreadsAt, StructsAt, OwnerCritical, OwnerStruct;
    Deletable(s, s.owner.was);
    var t := OwnerSetStep(s, ok).s;
    OwnerPointAfterDelete(s.owner);
    SameOwnerLocks(s.heap, s.threads, s.owner, t.owner);
    ThreadsStay(s, t);
    SameStructs(s, t);
  }

  /** A reference in the owner's hands is live, and deleting it is deleting no struct's. */
  lemma Deletable(s: State, was: Option<GlobalRef>)
    requires Inv(s) && Transit(s.owner) == OptionSet(was)
    ensures was.Some? ==> was.value in s.globals
    ensures forall o :: Transit(o) == {} ==>
      GlobalsAt(if was.Some? then s.globals - {was.value} else s.globals, s.heap, o, s.nextGlobal)
  {
    hide OwnerAt, ThreadsAt, LocksAt, StructsAt, Services;
  }

  lemma ArmHookKeeps(s: State, ok: bool)
    requires Inv(s) && s.owner.SetArmHook?
    ensures var r := OwnerSetStep(s, ok);
            r.Next? && Inv(r.s) && SetFrame(s, ok, r.s)
  {
    hide LocksAt, GlobalsAt, ThreadsAt, StructsAt;
    var t := OwnerSetStep(s, ok).s;
    LinkedStructs(s, ok);
    ThreadsStay(s, t);
    OwnerMoved(s, t);
  }

  lemma ArmCtxKeeps(s: State, ok: bool)
    requires Inv(s) && s.owner.SetArmCtx?
    ensures var r := OwnerSetStep(s, ok);
            r.Next? && Inv(r.s) && SetFrame(s, ok, r.s)
  {
    hide LocksAt, GlobalsAt, ThreadsAt, StructsAt;
    var t := OwnerSetStep(s, ok).s;
    LinkedStructs(s, ok);
    ThreadsStay(s, t);
    OwnerMoved(s, t);
  }

  /** Registering never crashes. */
  lemma OwnerSetStepKeeps(s: State, ok: bool)
    requires Inv(s)
    ensures var r := OwnerSetStep(s, ok);
            !r.Crash? && (r.Next? ==> Inv(r.s) && SetFrame(s, ok, r.s))
  {
    hide OwnerSetStep, Inv;
    match s.owner
    case SetReadCtx(_) => SetReadCtxKeeps(s, ok);
    case SetAlloc(_) => SetAllocKeeps(s, ok);
    case SetMutexInit(_, _) => MutexInitKeeps(s, ok);
    case SetNewGlobal(_, _, _) => NewGlobalKeeps(s, ok);
    case SetLock(_, _, _) => SetLockKeeps(s, ok);
    case SetRead(_, _, _) => SetReadKeeps(s, ok);
    case SetWrite(_, _, _, _) => SetWriteKeeps(s, ok);
    case SetOpen(_, _, _) => SetOpenKeeps(s, ok);
    case SetUnlock(_, _, _) => SetUnlockKeeps(s, ok);
    case SetDelete(_, _, _) => SetDeleteKeeps(s, ok);
    case SetArmHook(_, _) => ArmHookKeeps(s, ok);
    case SetArmCtx(_, _) => ArmCtxKeeps(s, ok);
    case _ => OwnerElsewhere(s, ok);
  }

  predicate Setting(o: Owner) {
    o.SetReadCtx? || o.SetAlloc? || o.SetMutexInit? || o.SetNewGlobal? || o.SetLock? || o.SetRead? || o.SetWrite? ||
    o.SetOpen? || o.SetUnlock? || o.SetDelete? || o.SetArmHook? || o.SetArmCtx?
  }

  lemma OwnerElsewhere(s: State, ok: bool)
    ensures !Setting(s.owner) ==> OwnerSetStep(s, ok) == Blocked
  {
  }

  // ---------- destroying ----------

  lemma ClearedStructs(s: State)
    requires Inv(s) && (s.owner.DestroyReadCtx? || s.owner.DestroyClearHook? || s.owner.DestroyClearCtx?)
    ensures var t := OwnerDestroyStep(s).s; StructsAt(t.heap, t.ctx, t.owner, t.leaked, t.nextStruct)
    ensures s.ctx.Some? ==> Usable(s.heap, s.ctx.value)
  {
    hide LocksAt, GlobalsAt, ThreadsAt;
  }

  lemma ClearingKeeps(s: State)
    requires Inv(s) && (s.owner.DestroyReadCtx? || s.owner.DestroyClearHook? || s.owner.DestroyClearCtx?)
    ensures var r := OwnerDestroyStep(s);
            r.Next? && Inv(r.s) && r.s.leaked == s.leaked
  {
    hide LocksAt, GlobalsAt, ThreadsAt, StructsAt;
    var t := OwnerDestroyStep(s).s;
    ClearedStructs(s);
    ThreadsStay(s, t);
    OwnerMoved(s, t);
  }

  /** The join waits for all threads, and then nothing is asked of them. */
  lemma IdleThreads(s: State, t: State)
    requires Inv(s) && t.threads == s.threads && forall id :: id in s.threads ==> s.threads[id].at == Idle
    ensures ThreadsAt(t.hook, t.ctx, t.heap, t.owner, t.threads)
  {
    hide OwnerAt, GlobalsAt, StructsAt, LocksAt;
  }

  lemma JoinKeeps(s: State)
    requires Inv(s) && s.owner.DestroyJoin?
    ensures var r := OwnerDestroyStep(s);
            !r.Crash? && (r.Next? ==> Inv(r.s) && r.s.leaked == s.leaked)
  {
    hide LocksAt, GlobalsAt, ThreadsAt;
    var r := OwnerDestroyStep(s);
    if r.Next? {
      IdleThreads(s, r.s);
      OwnerMoved(s, r.s);
    }
  }

  /** Past the join no thread is inside an upcall. */
  lemma NobodyInside(s: State, p: nat)
    requires Inv(s) && Joined(s.owner) && p in s.heap
    ensures !s.heap[p].holder.Upcaller?
  {
    hide OwnerAt, GlobalsAt, StructsAt, ThreadsAt, LocksAt;
    LockOf(s, p);
    if s.heap[p].holder.Upcaller? {
      var id := s.heap[p].holder.id;
      assert Inside(s.threads, id, p);
      ThreadOf(s, id);
    }
  }

  lemma JoinedThreads(s: State, t: State)
    requires Inv(s) && Joined(s.owner) && t.threads == s.threads
    ensures ThreadsAt(t.hook, t.ctx, t.heap, t.owner, t.threads)
  {
    hide OwnerAt, GlobalsAt, StructsAt, LocksAt, Joined;
    forall id | id in s.threads ensures s.threads[id].at == Idle {
      ThreadOf(s, id);
    }
    IdleThreads(s, t);
  }

  lemma DestroyLockKeeps(s: State)
    requires Inv(s) && s.owner.DestroyLock?
    ensures var r := OwnerDestroyStep(s);
            r.Next? && Inv(r.s) && r.s.leaked == s.leaked
  {
    hide StructsAt, GlobalsAt, ThreadsAt, LocksAt;
    LockOf(s, s.owner.p);
    var r := OwnerDestroyStep(s);
    NobodyInside(s, s.owner.p);
    OwnerLocks(s, r.s, s.owner.p);
    JoinedThreads(s, r.s);
    OwnerLocked(s, r.s, s.owner.p, TheOwner);
  }

  lemma DestroyReadKeeps(s: State)
    requires Inv(s) && s.owner.DestroyRead?
    ensures var r := OwnerDestroyStep(s);
            r.Next? && Inv(r.s) && r.s.leaked == s.leaked
  {
    hide LocksAt, GlobalsAt, ThreadsAt;
    LockOf(s, s.owner.p);
    var t := OwnerDestroyStep(s).s;
    JoinedThreads(s, t);
    OwnerMoved(s, t);
  }

  lemma DestroyClearKeeps(s: State)
    requires Inv(s) && s.owner.DestroyClear?
    ensures var r := OwnerDestroyStep(s);
            r.Next? && Inv(r.s) && r.s.leaked == s.leaked
  {
    hide LocksAt, ThreadsAt, GlobalsAt, Services;
    var p := s.owner.p;
    LockOf(s, p);
    var t := OwnerDestroyStep(s).s;
    Taken(s, t, p);
    StructChanged(s, t, p);
    JoinedThreads(s, t);
  }

  /** The struct's service passes into the owner's hands. */
  lemma Taken(s: State, t: State, p: nat)
    requires Inv(s) && s.owner.DestroyClear? && s.owner.p == p && p in s.heap
    requires t.owner == DestroyMark(p, s.owner.was) && t.heap == s.heap[p := s.heap[p].(service := None)]
    requires t.globals == s.globals && t.nextGlobal == s.nextGlobal
    ensures GlobalsAt(t.globals, t.heap, t.owner, t.nextGlobal)
  {
    hide LocksAt, ThreadsAt, StructsAt, Services;
    OnlyService(s, p);
    ServicesAfter(s.heap, p, t.heap[p]);
  }

  lemma DestroyMarkKeeps(s: State)
    requires Inv(s) && s.owner.DestroyMark?
    ensures var r := OwnerDestroyStep(s);
            r.Next? && Inv(r.s) && r.s.leaked == s.leaked
  {
    hide LocksAt, ThreadsAt, GlobalsAt, StructsAt, Services;
    var p := s.owner.p;
    LockOf(s, p);
    var t := OwnerDestroyStep(s).s;
    SameServices(s.heap, p, t.heap[p]);
    SameTransit(s, t);
    StructChanged(s, t, p);
    JoinedThreads(s, t);
    OwnStructChanged(s, t, p);
  }

  lemma DestroyUnlockKeeps(s: State)
    requires Inv(s) && s.owner.DestroyUnlock?
    ensures var r := OwnerDestroyStep(s);
            r.Next? && Inv(r.s) && r.s.leaked == s.leaked
  {
    hide StructsAt, GlobalsAt, ThreadsAt, LocksAt;
    LockOf(s, s.owner.p);
    var r := OwnerDestroyStep(s);
    OwnerLocks(s, r.s, s.owner.p);
    JoinedThreads(s, r.s);
    OwnerLocked(s, r.s, s.owner.p, Nobody);
  }

  lemma DestroyDeleteKeeps(s: State)
    requires Inv(s) && s.owner.DestroyDelete?
    ensures var r := OwnerDestroyStep(s);
            r.Next? && Inv(r.s) && r.s.leaked == s.leaked
  {
    hide LocksAt, GlobalsAt, ThreadsAt;
    Deletable(s, s.owner.was);
    var t := OwnerDestroyStep(s).s;
    assert Transit(t.owner) == {};
    SameOwnerLocks(s.heap, s.threads, s.owner, t.owner);
    JoinedThreads(s, t);
  }

  lemma IdleLocks(s: State, t: State)
    requires Inv(s) && t.threads == s.threads && !OwnerCritical(s.owner) && !OwnerCritical(t.owner)
    requires forall q :: q in t.heap ==> q in s.heap && t.heap[q].holder == s.heap[q].holder
    ensures LocksAt(t.heap, t.threads, t.owner)
  {
    hide OwnerAt, GlobalsAt, StructsAt, ThreadsAt, Inside, OwnerCritical, OwnerStruct;
    forall q | q in t.heap ensures LockAt(t.heap[q], q, t.threads, t.owner) {
      LockOf(s, q);
    }
  }

  lemma DestroyMutexKeeps(s: State)
    requires Inv(s) && s.owner.DestroyMutex?
    ensures var r := OwnerDestroyStep(s);
            r.Next? && Inv(r.s) && r.s.leaked == s.leaked
  {
    hide LocksAt, ThreadsAt, GlobalsAt, StructsAt, Services;
    var p := s.owner.p;
    LockOf(s, p);
    NobodyInside(s, p);
    var t := OwnerDestroyStep(s).s;
    SameServices(s.heap, p, t.heap[p]);
    SameTransit(s, t);
    JoinedThreads(s, t);
    IdleLocks(s, t);
    OwnStructChanged(s, t, p);
  }

  lemma DestroyFreeKeeps(s: State)
    requires Inv(s) && s.owner.DestroyFree?
    ensures var r := OwnerDestroyStep(s);
            r.Next? && Inv(r.s) && r.s.leaked == s.leaked
  {
    hide LocksAt, ThreadsAt, GlobalsAt, Services;
    var p := s.owner.p;
    var t := OwnerDestroyStep(s).s;
    FreedService(s.heap, p);
    SameTransit(s, t);
    NobodyInside(s, p);
    JoinedThreads(s, t);
    IdleLocks(s, t);
  }

  /** Destroying never crashes. */
  lemma OwnerDestroyStepKeeps(s: State)
    requires Inv(s)
    ensures var r := OwnerDestroyStep(s);
            !r.Crash? && (r.Next? ==> Inv(r.s) && r.s.leaked == s.leaked)
  {
    hide OwnerDestroyStep, Inv;
    match s.owner
    case DestroyReadCtx => ClearingKeeps(s);
    case DestroyClearHook(_) => ClearingKeeps(s);
    case DestroyClearCtx(_) => ClearingKeeps(s);
    case DestroyJoin(_) => JoinKeeps(s);
    case DestroyLock(_) => DestroyLockKeeps(s);
    case DestroyRead(_) => DestroyReadKeeps(s);
    case DestroyClear(_, _) => DestroyClearKeeps(s);
    case DestroyMark(_, _) => DestroyMarkKeeps(s);
    case DestroyUnlock(_, _) => DestroyUnlockKeeps(s);
    case DestroyDelete(_, _) => DestroyDeleteKeeps(s);
    case DestroyMutex(_) => DestroyMutexKeeps(s);
    case DestroyFree(_) => DestroyFreeKeeps(s);
    case _ => OwnerNotDestroying(s);
  }

  lemma OwnerNotDestroying(s: State)
    ensures !Destroying(s.owner) && (!Joined(s.owner) || s.owner.Destroyed?) ==> OwnerDestroyStep(s) == Blocked
  {
  }

  // ---------- every run ----------

  lemma StepKeeps(s: State, a: Action)
    requires Inv(s)
    ensures var r := Step(s, a);
            && (r.Next? ==> Inv(r.s))
            && (r.Crash? <==> a.WorkerRuns? && a.id in s.threads && s.threads[a.id].at == LoadHook && !s.hook)
            && (r.Crash? ==> r.fault == NullHook)
  {
    hide OwnerSetStep, OwnerDestroyStep, WorkerStep, Inv;
    match a
    case Launch(id, attached) => LaunchKeeps(s, id, attached);
    case Register(_) => BeginKeeps(s, a);
    case Destroy => BeginKeeps(s, a);
    case WorkerRuns(id, ok, answer) => WorkerStepKeeps(s, id, ok, answer);
    case OwnerRuns(ok) =>
      OwnerSetStepKeeps(s, ok);
      OwnerDestroyStepKeeps(s);
  }

  lemma StepFrames(s: State, a: Action)
    requires Inv(s) && Step(s, a).Next?
    ensures var t := Step(s, a).s;
            && (!Destroying(s.owner) && !Joined(s.owner) && !a.Destroy? ==> !Destroying(t.owner) && !Joined(t.owner))
            && s.leaked <= t.leaked
            && (t.leaked != s.leaked <==> a == OwnerRuns(false) && s.owner.SetNewGlobal? && s.owner.isNew)
  {
    hide OwnerSetStep, OwnerDestroyStep, WorkerStep, Inv;
    match a
    case Launch(id, attached) =>
    case Register(_) =>
    case Destroy =>
    case WorkerRuns(id, ok, answer) => WorkerStepKeeps(s, id, ok, answer);
    case OwnerRuns(ok) =>
      OwnerSetStepKeeps(s, ok);
      OwnerDestroyStepKeeps(s);
  }

  lemma LaunchKeeps(s: State, id: nat, attached: bool)
    requires Inv(s)
    ensures var r := Step(s, Launch(id, attached));
            !r.Crash? && (r.Next? ==> Inv(r.s) && WorkerFrame(s, r.s))
  {
    hide OwnerAt, LocksAt, GlobalsAt, StructsAt;
    var r := Step(s, Launch(id, attached));
    if r.Next? {
      forall p | p in s.heap ensures LockAt(s.heap[p], p, r.s.threads, s.owner) {
        LockOf(s, p);
        forall i ensures Inside(r.s.threads, i, p) <==> Inside(s.threads, i, p) {
        }
      }
      LocksFrom(s.heap, r.s.threads, s.owner);
    }
  }

  lemma LocksFrom(heap: map<nat, Struct>, threads: map<nat, Thread>, owner: Owner)
    requires forall p :: p in heap ==> LockAt(heap[p], p, threads, owner)
    ensures LocksAt(heap, threads, owner)
  {
  }

  lemma BeginKeeps(s: State, a: Action)
    requires Inv(s) && (a.Register? || a.Destroy?)
    ensures var r := Step(s, a);
            !r.Crash? && (r.Next? ==> Inv(r.s) && r.s.leaked == s.leaked)
  {
    hide LocksAt, GlobalsAt, ThreadsAt;
    var r := Step(s, a);
    if r.Next? {
      ThreadsStay(s, r.s);
      OwnerMoved(s, r.s);
    }
  }

  lemma InitKeeps()
    ensures Inv(Init())
  {
  }

  /** Whatever the interleaving, no step touches a freed struct or a dead mutex, reads or writes a guarded
      field without the lock, or uses a deleted reference: the one thing that can go wrong is the call of a
      hook that was cleared after it was seen set. */
  lemma {:induction false} EveryRunIsSafe(actions: seq<Action>)
    ensures var r := Run(actions);
            (r.Next? && Inv(r.s)) || r == Crash(NullHook)
  {
    hide Step, Inv;
    if actions == [] {
      InitKeeps();
    } else {
      var n := |actions| - 1;
      EveryRunIsSafe(actions[..n]);
      if Run(actions[..n]).Next? {
        StepKeeps(Run(actions[..n]).s, actions[n]);
      }
    }
  }

  /** A step crashes exactly when the worker reads a cleared hook for a call; by then `nativeDestroy` has
      cleared it and is not past its join. */
  lemma WhenTheHookCrashes(actions: seq<Action>, a: Action)
    requires Run(actions).Next?
    ensures var s := Run(actions).s;
            && (Step(s, a).Crash? <==> a.WorkerRuns? && a.id in s.threads && s.threads[a.id].at == LoadHook && !s.hook)
            && (Step(s, a).Crash? ==> s.owner.DestroyClearCtx? || s.owner.DestroyJoin?)
  {
    EveryRunIsSafe(actions);
    StepKeeps(Run(actions).s, a);
  }

  /** Until the connection is destroyed nothing can crash. */
  lemma {:induction false} RegisteringNeverCrashes(actions: seq<Action>)
    requires forall i :: 0 <= i < |actions| ==> !actions[i].Destroy?
    ensures var r := Run(actions);
            r.Next? && !Destroying(r.s.owner) && !Joined(r.s.owner)
  {
    hide OwnerSetStep, OwnerDestroyStep, WorkerStep, Inv;
    if actions != [] {
      var n := |actions| - 1;
      RegisteringNeverCrashes(actions[..n]);
      EveryRunIsSafe(actions[..n]);
      WhenTheHookCrashes(actions[..n], actions[n]);
      var s := Run(actions[..n]).s;
      if Step(s, actions[n]).Next? {
        StepFrames(s, actions[n]);
      }
    }
  }

  function Owning(heap: map<nat, Struct>): set<nat> {
    set p | p in heap && heap[p].service.Some?
  }

  /** At every moment the live global references are the live structs' services, one each, and the ones the
      owner has created and not stored yet or swapped out and not deleted yet. */
  lemma ReferencesAreConserved(actions: seq<Action>)
    requires Run(actions).Next?
    ensures var s := Run(actions).s;
            && s.globals.Keys == Services(s.heap) + Transit(s.owner)
            && |s.globals| == |Owning(s.heap)| + |Transit(s.owner)|
  {
    EveryRunIsSafe(actions);
    var s := Run(actions).s;
    assert |s.globals| == |s.globals.Keys| == |Services(s.heap)| + |Transit(s.owner)| by {
      DisjointSize(Services(s.heap), Transit(s.owner));
    }
    OneOwner(s);
  }

  lemma DisjointSize<T>(a: set<T>, b: set<T>)
    requires a !! b
    ensures |a + b| == |a| + |b|
  {
  }

  lemma OneOwner(s: State)
    requires Inv(s)
    ensures |Owning(s.heap)| == |Services(s.heap)|
  {
    hide ThreadsAt, LocksAt, GlobalsAt;
    if p :| p in Owning(s.heap) {
      forall q | q in s.heap && q != p ensures s.heap[q].service == None {
        assert p !in s.leaked;
        TwoStructs(s, p, q);
      }
      assert Owning(s.heap) == {p};
      ServicesAfter(s.heap, p, s.heap[p]);
    } else {
      assert Owning(s.heap) == {};
      forall p | p in s.heap ensures s.heap[p].service == None {
        assert p !in Owning(s.heap);
      }
      assert Services(s.heap) == {};
    }
  }

  /** The connection's struct and the owner's are never two different ones. */
  lemma TwoStructs(s: State, p: nat, q: nat)
    requires Inv(s) && p in s.heap && q in s.heap && p !in s.leaked && p != q
    ensures q in s.leaked
  {
    hide ThreadsAt, LocksAt, GlobalsAt;
    assert OwnerStruct(s.owner) == None || s.ctx == None || OwnerStruct(s.owner) == s.ctx;
  }

  /** However an upcall ends, its local references are deleted and the thread is attached exactly if it was. */
  lemma UpcallsBalance(actions: seq<Action>, id: nat)
    requires Run(actions).Next? && id in Run(actions).s.threads
    requires var w := Run(actions).s.threads[id].at; w.Return? || w.Finish? || w.Idle?
    ensures var t := Run(actions).s.threads[id];
            t.locals == {} && t.attached == t.wasAttached
  {
    hide Run;
    EveryRunIsSafe(actions);
    ThreadOf(Run(actions).s, id);
  }

  /** Whenever `protect` is called its object is held by a live local reference, though the global one may
      be gone. */
  lemma CalledObjectIsAlive(actions: seq<Action>, id: nat)
    requires Run(actions).Next? && id in Run(actions).s.threads && Run(actions).s.threads[id].at.Call?
    ensures var t := Run(actions).s.threads[id];
            ServiceRef(t.at.obj) in t.locals
  {
    hide Run, Inv;
    EveryRunIsSafe(actions);
    ThreadOf(Run(actions).s, id);
  }

  lemma NothingLeft(s: State)
    requires Inv(s) && s.owner == Destroyed
    ensures s.globals == map[] && !s.hook && s.ctx == None && s.heap.Keys == s.leaked
    ensures forall id :: id in s.threads ==> s.threads[id].at == Idle
  {
    hide LocksAt;
    assert Services(s.heap) == {};
    assert s.globals.Keys == {};
  }

  /** After `nativeDestroy` nothing is left: no global reference, no hook, no upcall, and no struct except
      those leaked when a first registration failed to create its reference. */
  lemma NothingOutlivesDestroy(actions: seq<Action>)
    requires Run(actions).Next? && Run(actions).s.owner == Destroyed
    ensures var s := Run(actions).s;
            s.globals == map[] && !s.hook && s.ctx == None && s.heap.Keys == s.leaked &&
            forall id :: id in s.threads ==> s.threads[id].at == Idle
  {
    EveryRunIsSafe(actions);
    NothingLeft(Run(actions).s);
  }

  /** The step that leaks: the reference for a struct the connection does not know yet cannot be made. */
  predicate Leaks(r: Outcome, a: Action) {
    r.Next? && a == OwnerRuns(false) && r.s.owner.SetNewGlobal? && r.s.owner.isNew
  }

  /** A run leaks exactly if it contains that step. */
  lemma {:induction false} LeaksExactly(actions: seq<Action>)
    requires Run(actions).Next?
    ensures Run(actions).s.leaked != {} <==> exists i :: 0 <= i < |actions| && Leaks(Run(actions[..i]), actions[i])
  {
    hide Step, Inv;
    if actions != [] {
      var n := |actions| - 1;
      var init := actions[..n];
      EveryRunIsSafe(init);
      LeaksExactly(init);
      var s := Run(init).s;
      LeaksStep(s, actions[n]);
      assert forall i :: 0 <= i < n ==> init[..i] == actions[..i] && init[i] == actions[i];
    }
  }

  lemma LeaksStep(s: State, a: Action)
    requires Inv(s)
    ensures var r := Step(s, a);
            && (r.Next? ==> s.leaked <= r.s.leaked && (r.s.leaked != s.leaked <==> Leaks(Next(s), a)))
            && (r.Blocked? ==> !Leaks(Next(s), a))
  {
    hide Step, Inv;
    if Step(s, a).Next? {
      StepFrames(s, a);
    }
    if Leaks(Next(s), a) {
      LeakingGoes(s);
    }
  }

  lemma LeakingGoes(s: State)
    requires s.owner.SetNewGlobal?
    ensures Step(s, OwnerRuns(false)).Next?
  {
  }
}
