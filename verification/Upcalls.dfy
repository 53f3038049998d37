/** What a successful upcall proves about the host, and the one run that goes wrong. */
module Upcalls {
  import opened Lifetime
  import opened Protector
  import opened Text

  /** The object registered last and not cleared since. */
  function Registered(log: seq<Event>): Option<Object> {
    if log == [] then None
    else
      match log[|log| - 1]
      case Stored(obj) => Some(obj)
      case Cleared => None
      case _ => Registered(log[..|log| - 1])
  }

  /** The thread an event belongs to; the owner's events belong to none. */
  function By(e: Event): Option<nat> {
    match e
    case Stored(_) => None
    case Cleared => None
    case Launched(id) => Some(id)
    case Took(id, _) => Some(id)
    case LookupFailed(id) => Some(id)
    case Answered(id, _, _) => Some(id)
    case Returned(id, _) => Some(id)
  }

  /** A thread's own events since it was launched last. */
  function Upcall(log: seq<Event>, id: nat): seq<Event> {
    if log == [] then []
    else
      var before, e := Upcall(log[..|log| - 1], id), log[|log| - 1];
      if By(e) != Some(id) then before else if e.Launched? then [] else before + [e]
  }

  /** `protect` was called once in this upcall, on an object taken from the registration, and said yes; nothing else
      happened. */
  predicate SaidYes(events: seq<Event>, id: nat) {
    |events| == 2 && events[0].Took? && events == [Took(id, events[0].obj), Answered(id, events[0].obj, Yes)]
  }

  /** A thread takes only what is registered at that moment, and reports success if and only if `protect` returned
      true on what it took. */
  predicate Honest(log: seq<Event>) {
    log == [] ||
    var before := log[..|log| - 1];
    Honest(before) && HonestOne(before, log[|log| - 1])
  }

  predicate HonestOne(before: seq<Event>, e: Event) {
    match e
    case Took(_, obj) => Registered(before) == Some(obj)
    case Returned(id, protected) => protected <==> SaidYes(Upcall(before, id), id)
    case _ => true
  }

  function UpcallWith(log: seq<Event>, e: Event, id: nat): seq<Event> {
    if By(e) != Some(id) then Upcall(log, id) else if e.Launched? then [] else Upcall(log, id) + [e]
  }

  lemma LogOne(log: seq<Event>, e: Event)
    ensures Registered(log + [e]) == match e case Stored(obj) => Some(obj) case Cleared => None case _ => Registered(log)
    ensures forall id: nat :: Upcall(log + [e], id) == UpcallWith(log, e, id)
    ensures Honest(log + [e]) <==> (Honest(log) && HonestOne(log, e))
  {
    assert (log + [e])[..|log + [e]| - 1] == log;
  }

  /** What a thread's point says about its events so far. */
  predicate UpcallAt(t: Thread, id: nat, events: seq<Event>) {
    && (t.pending <==> LookupFailed(id) in events)
    && match t.at
       case Idle => true
       case Finish => true
       case Unlock(_, _, taken) => events == if taken.Some? then [Took(id, taken.value)] else []
       case GetClass(_, _, obj) => events == [Took(id, obj)]
       case GetMethod(_, _, obj) => events == [Took(id, obj)]
       case Call(_, _, obj) => events == [Took(id, obj)]
       case DropClass(_, _, _, protected) => protected <==> SaidYes(events, id)
       case DropService(_, _, _, protected) => protected <==> SaidYes(events, id)
       case Detach(_, _, protected) => protected <==> SaidYes(events, id)
       case Return(protected) => protected <==> SaidYes(events, id)
       case _ => events == []
  }

  predicate UpcallsAt(threads: map<nat, Thread>, log: seq<Event>) {
    forall id :: id in threads ==> UpcallAt(threads[id], id, Upcall(log, id))
  }

  /** A live struct's service is the object registered last. */
  predicate StoredAt(s: State) {
    forall p :: p in s.heap && s.heap[p].service.Some? ==>
      && s.heap[p].service.value in s.globals
      && Registered(s.log) == Some(s.globals[s.heap[p].service.value])
  }

  predicate HistoryAt(s: State) {
    Honest(s.log) && StoredAt(s) && UpcallsAt(s.threads, s.log)
  }

  lemma UpcallOf(s: State, id: nat)
    requires HistoryAt(s) && id in s.threads
    ensures UpcallAt(s.threads[id], id, Upcall(s.log, id))
  {
    hide UpcallAt, Honest, StoredAt;
  }

  /** A step of thread `id` with at most one event of its own leaves the other threads' histories alone. */
  lemma ThreadHistory(s: State, t: State, id: nat, e: Option<Event>)
    requires HistoryAt(s) && id in t.threads && t.threads == s.threads[id := t.threads[id]]
    requires t.globals == s.globals && forall p :: p in t.heap ==> p in s.heap && t.heap[p].service == s.heap[p].service
    requires t.log == if e.Some? then s.log + [e.value] else s.log
    requires e.Some? ==> By(e.value) == Some(id) && HonestOne(s.log, e.value)
    requires UpcallAt(t.threads[id], id, Upcall(t.log, id))
    ensures HistoryAt(t)
  {
    hide UpcallAt, Honest, HonestOne, Upcall, Registered;
    if e.Some? {
      LogOne(s.log, e.value);
      OwnEvent(e.value, s.log);
    }
    forall i | i in t.threads ensures UpcallAt(t.threads[i], i, Upcall(t.log, i)) {
      if i != id {
        UpcallOf(s, i);
      }
    }
  }

  lemma OwnEvent(e: Event, log: seq<Event>)
    requires By(e).Some?
    ensures Registered(log + [e]) == Registered(log)
  {
    LogOne(log, e);
  }

  lemma DialHistory(s: State, id: nat, ok: bool)
    requires HistoryAt(s) && id in s.threads && DialStep(s, id, ok).Next?
    ensures HistoryAt(DialStep(s, id, ok).s)
  {
    hide HistoryAt, Honest, Upcall, Registered;
    UpcallOf(s, id);
    var t := DialStep(s, id, ok).s;
    if s.threads[id].at.Return? {
      var e := Returned(id, s.threads[id].at.protected);
      LogOne(s.log, e);
      ThreadHistory(s, t, id, Some(e));
    } else {
      ThreadHistory(s, t, id, None);
    }
  }

  lemma EnterPoint(s: State, id: nat, ok: bool)
    requires id in s.threads && EnterStep(s, id, ok).Next?
    ensures var t := EnterStep(s, id, ok).s;
            && id in t.threads && t == Becomes(s, id, t.threads[id])
            && Entering(s.threads[id].at) && t.threads[id].pending == s.threads[id].pending
            && (Entering(t.threads[id].at) || t.threads[id].at.Lock? || t.threads[id].at == Return(false))
  {
  }

  lemma EnterHistory(s: State, id: nat, ok: bool)
    requires HistoryAt(s) && id in s.threads && EnterStep(s, id, ok).Next?
    ensures HistoryAt(EnterStep(s, id, ok).s)
  {
    hide HistoryAt, Honest, Upcall, Registered, EnterStep;
    UpcallOf(s, id);
    EnterPoint(s, id, ok);
    var t := EnterStep(s, id, ok).s;
    assert UpcallAt(t.threads[id], id, Upcall(s.log, id));
    hide UpcallAt;
    ThreadHistory(s, t, id, None);
  }

  lemma TakeHistory(s: State, id: nat)
    requires HistoryAt(s) && id in s.threads && s.threads[id].at.TakeRef? && LockStep(s, id, true).Next?
    ensures HistoryAt(LockStep(s, id, true).s)
  {
    hide HistoryAt, Honest, Upcall, Registered;
    UpcallOf(s, id);
    var p := s.threads[id].at.p;
    var e := Took(id, s.globals[s.heap[p].service.value]);
    StoredOf(s, p);
    LogOne(s.log, e);
    ThreadHistory(s, LockStep(s, id, true).s, id, Some(e));
  }

  lemma LockPoint(s: State, id: nat, ok: bool, events: seq<Event>)
    requires id in s.threads && LockStep(s, id, ok).Next? && !(s.threads[id].at.TakeRef? && ok)
    requires UpcallAt(s.threads[id], id, events)
    ensures var t := LockStep(s, id, ok).s;
            && id in t.threads && t.threads == s.threads[id := t.threads[id]] && t.globals == s.globals && t.log == s.log
            && (forall p :: p in t.heap ==> p in s.heap && t.heap[p].service == s.heap[p].service)
            && UpcallAt(t.threads[id], id, events)
  {
  }

  lemma LockHistory(s: State, id: nat, ok: bool)
    requires HistoryAt(s) && id in s.threads && LockStep(s, id, ok).Next?
    ensures HistoryAt(LockStep(s, id, ok).s)
  {
    hide HistoryAt, Honest, Upcall, Registered, LockStep;
    if s.threads[id].at.TakeRef? && ok {
      TakeHistory(s, id);
    } else {
      UpcallOf(s, id);
      LockPoint(s, id, ok, Upcall(s.log, id));
      hide UpcallAt;
      ThreadHistory(s, LockStep(s, id, ok).s, id, None);
    }
  }

  lemma StoredOf(s: State, p: nat)
    requires HistoryAt(s) && p in s.heap && s.heap[p].service.Some?
    ensures s.heap[p].service.value in s.globals && Registered(s.log) == Some(s.globals[s.heap[p].service.value])
  {
    hide Honest, UpcallsAt, Registered;
  }

  lemma TwoEvents(id: nat, obj: Object, es: seq<Event>)
    requires |es| <= 1
    ensures var all := [Took(id, obj)] + es;
            && (SaidYes(all, id) <==> es == [Answered(id, obj, Yes)])
            && (LookupFailed(id) in all <==> es == [LookupFailed(id)])
  {
    if es != [] {
      assert es == [es[0]];
      assert [Took(id, obj)] + es == [Took(id, obj), es[0]];
    }
  }

  lemma CallPoint(t: Thread, id: nat, ok: bool, answer: Answer, events: seq<Event>)
    requires Calling(t.at) && UpcallAt(t, id, events)
    ensures var es := CallEvents(t.at, id, ok, answer);
            && (es == [] || (|es| == 1 && (es[0] == LookupFailed(id) || es[0].Answered?) && By(es[0]) == Some(id)))
            && UpcallAt(CallThread(t, ok, answer), id, events + es)
  {
    var es := CallEvents(t.at, id, ok, answer);
    assert events + [] == events;
    if t.at.GetMethod? || t.at.Call? {
      TwoEvents(id, t.at.obj, es);
    }
  }

  lemma CallHistory(s: State, id: nat, ok: bool, answer: Answer)
    requires HistoryAt(s) && id in s.threads && Calling(s.threads[id].at) && CallStep(s, id, ok, answer).Next?
    ensures HistoryAt(CallStep(s, id, ok, answer).s)
  {
    hide HistoryAt, Honest, Upcall, Registered, CallThread, CallEvents;
    UpcallOf(s, id);
    var w, t := s.threads[id].at, CallStep(s, id, ok, answer).s;
    CallPoint(s.threads[id], id, ok, answer, Upcall(s.log, id));
    var es := CallEvents(w, id, ok, answer);
    hide UpcallAt;
    if es == [] {
      assert s.log + [] == s.log;
      ThreadHistory(s, t, id, None);
    } else {
      LogOne(s.log, es[0]);
      assert Upcall(s.log + [es[0]], id) == UpcallWith(s.log, es[0], id);
      ThreadHistory(s, t, id, Some(es[0]));
    }
  }

  lemma DetachHistory(s: State, id: nat)
    requires HistoryAt(s) && id in s.threads && s.threads[id].at.Detach? && DetachStep(s, id).Next?
    ensures HistoryAt(DetachStep(s, id).s)
  {
    hide HistoryAt, Honest, Upcall, Registered;
    UpcallOf(s, id);
    ThreadHistory(s, DetachStep(s, id).s, id, None);
  }

  lemma WorkerHistory(s: State, id: nat, ok: bool, answer: Answer)
    requires HistoryAt(s) && WorkerStep(s, id, ok, answer).Next?
    ensures HistoryAt(WorkerStep(s, id, ok, answer).s)
  {
    hide DialStep, EnterStep, LockStep, CallStep, DetachStep, HistoryAt;
    var w := s.threads[id].at;
    if Dialling(w) {
      DialHistory(s, id, ok);
    } else if Entering(w) {
      EnterHistory(s, id, ok);
    } else if Locking(w) {
      LockHistory(s, id, ok);
    } else if Calling(w) {
      CallHistory(s, id, ok, answer);
    } else {
      DetachHistory(s, id);
    }
  }

  // ---------- the owner's steps ----------

  /** Steps that store and delete nothing. */
  lemma OwnerPassesHistory(s: State, t: State)
    requires HistoryAt(s) && t.log == s.log && t.threads == s.threads
    requires forall p :: p in t.heap && t.heap[p].service.Some? ==>
      && p in s.heap && s.heap[p].service == t.heap[p].service
      && (s.heap[p].service.value in s.globals ==>
           && t.heap[p].service.value in t.globals
           && t.globals[t.heap[p].service.value] == s.globals[s.heap[p].service.value])
    ensures HistoryAt(t)
  {
    hide Honest, Upcall, Registered;
  }

  lemma OwnerSetsHistory(s: State, ok: bool)
    requires Inv(s) && HistoryAt(s) && OwnerSetStep(s, ok).Next?
    requires s.owner.SetReadCtx? || s.owner.SetAlloc? || s.owner.SetMutexInit? || s.owner.SetArmHook? || s.owner.SetArmCtx?
    ensures HistoryAt(OwnerSetStep(s, ok).s)
  {
    hide HistoryAt, ThreadsAt, LocksAt, GlobalsAt, StructsAt;
    OwnerPassesHistory(s, OwnerSetStep(s, ok).s);
  }

  lemma OwnerLocksHistory(s: State, ok: bool)
    requires Inv(s) && HistoryAt(s) && OwnerSetStep(s, ok).Next?
    requires s.owner.SetLock? || s.owner.SetRead? || s.owner.SetOpen? || s.owner.SetUnlock?
    ensures HistoryAt(OwnerSetStep(s, ok).s)
  {
    hide HistoryAt, Inv;
    OwnerPassesHistory(s, OwnerSetStep(s, ok).s);
  }

  lemma OwnerRefsHistory(s: State, ok: bool)
    requires Inv(s) && HistoryAt(s) && OwnerSetStep(s, ok).Next?
    requires s.owner.SetNewGlobal? || s.owner.SetDelete?
    ensures HistoryAt(OwnerSetStep(s, ok).s)
  {
    hide HistoryAt, OwnerAt, ThreadsAt, LocksAt, StructsAt;
    assert forall p :: p in s.heap && s.heap[p].service.Some? ==> s.heap[p].service.value in Services(s.heap);
    OwnerPassesHistory(s, OwnerSetStep(s, ok).s);
  }

  /** An event of the owner's leaves the upcalls' histories alone. */
  lemma OwnerLogs(s: State, t: State, e: Event)
    requires HistoryAt(s) && t.log == s.log + [e] && By(e) == None && t.threads == s.threads && StoredAt(t)
    ensures HistoryAt(t)
  {
    hide UpcallAt, Honest, Upcall, Registered, StoredAt;
    LogOne(s.log, e);
    forall i | i in t.threads ensures UpcallAt(t.threads[i], i, Upcall(t.log, i)) {
      UpcallOf(s, i);
    }
  }

  lemma OwnerWritesHistory(s: State, ok: bool)
    requires Inv(s) && HistoryAt(s) && s.owner.SetWrite? && OwnerSetStep(s, ok).Next?
    ensures HistoryAt(OwnerSetStep(s, ok).s)
  {
    hide ThreadsAt, LocksAt, StructsAt, Honest, Upcall, Registered, UpcallsAt;
    OnlyService(s, s.owner.p);
    var e := Stored(s.globals[s.owner.g]);
    LogOne(s.log, e);
    OwnerLogs(s, OwnerSetStep(s, ok).s, e);
  }

  lemma OwnerSetHistory(s: State, ok: bool)
    requires Inv(s) && HistoryAt(s) && OwnerSetStep(s, ok).Next?
    ensures HistoryAt(OwnerSetStep(s, ok).s)
  {
    hide OwnerSetStep, HistoryAt, Inv;
    OwnerElsewhere(s, ok);
    match s.owner
    case SetReadCtx(_) => OwnerSetsHistory(s, ok);
    case SetAlloc(_) => OwnerSetsHistory(s, ok);
    case SetMutexInit(_, _) => OwnerSetsHistory(s, ok);
    case SetArmHook(_, _) => OwnerSetsHistory(s, ok);
    case SetArmCtx(_, _) => OwnerSetsHistory(s, ok);
    case SetNewGlobal(_, _, _) => OwnerRefsHistory(s, ok);
    case SetDelete(_, _, _) => OwnerRefsHistory(s, ok);
    case SetWrite(_, _, _, _) => OwnerWritesHistory(s, ok);
    case _ => OwnerLocksHistory(s, ok);
  }

  lemma OwnerClearsHistory(s: State)
    requires Inv(s) && HistoryAt(s) && s.owner.DestroyClear? && OwnerDestroyStep(s).Next?
    ensures HistoryAt(OwnerDestroyStep(s).s)
  {
    hide ThreadsAt, LocksAt, StructsAt, GlobalsAt, Honest, Upcall, Registered, UpcallsAt;
    OnlyService(s, s.owner.p);
    LogOne(s.log, Cleared);
    OwnerLogs(s, OwnerDestroyStep(s).s, Cleared);
  }

  lemma OwnerDeletesHistory(s: State)
    requires Inv(s) && HistoryAt(s) && s.owner.DestroyDelete? && OwnerDestroyStep(s).Next?
    ensures HistoryAt(OwnerDestroyStep(s).s)
  {
    hide HistoryAt, OwnerAt, ThreadsAt, LocksAt, StructsAt;
    assert forall p :: p in s.heap && s.heap[p].service.Some? ==> s.heap[p].service.value in Services(s.heap);
    OwnerPassesHistory(s, OwnerDestroyStep(s).s);
  }

  lemma OwnerWaitsHistory(s: State)
    requires HistoryAt(s) && OwnerDestroyStep(s).Next?
    requires s.owner.DestroyReadCtx? || s.owner.DestroyClearHook? || s.owner.DestroyClearCtx? || s.owner.DestroyJoin?
    ensures HistoryAt(OwnerDestroyStep(s).s)
  {
    hide HistoryAt;
    OwnerPassesHistory(s, OwnerDestroyStep(s).s);
  }

  lemma OwnerReleasesHistory(s: State)
    requires HistoryAt(s) && OwnerDestroyStep(s).Next?
    requires s.owner.DestroyLock? || s.owner.DestroyRead? || s.owner.DestroyMark? || s.owner.DestroyUnlock? ||
             s.owner.DestroyMutex? || s.owner.DestroyFree?
    ensures HistoryAt(OwnerDestroyStep(s).s)
  {
    hide HistoryAt;
    OwnerPassesHistory(s, OwnerDestroyStep(s).s);
  }

  lemma OwnerDestroyHistory(s: State)
    requires Inv(s) && HistoryAt(s) && OwnerDestroyStep(s).Next?
    ensures HistoryAt(OwnerDestroyStep(s).s)
  {
    hide HistoryAt, Inv, OwnerDestroyStep;
    OwnerNotDestroying(s);
    match s.owner
    case DestroyClear(_, _) => OwnerClearsHistory(s);
    case DestroyDelete(_, _) => OwnerDeletesHistory(s);
    case DestroyReadCtx => OwnerWaitsHistory(s);
    case DestroyClearHook(_) => OwnerWaitsHistory(s);
    case DestroyClearCtx(_) => OwnerWaitsHistory(s);
    case DestroyJoin(_) => OwnerWaitsHistory(s);
    case _ => OwnerReleasesHistory(s);
  }

  lemma StepHistory(s: State, a: Action)
    requires Inv(s) && HistoryAt(s) && Step(s, a).Next?
    ensures HistoryAt(Step(s, a).s)
  {
    hide OwnerSetStep, OwnerDestroyStep, WorkerStep, Inv, HistoryAt;
    match a
    case Launch(id, attached) => LaunchHistory(s, id, attached);
    case Register(_) => OwnerPassesHistory(s, Step(s, a).s);
    case Destroy => OwnerPassesHistory(s, Step(s, a).s);
    case WorkerRuns(id, ok, answer) => WorkerHistory(s, id, ok, answer);
    case OwnerRuns(ok) => if Destroying(s.owner) || Joined(s.owner) { OwnerDestroyHistory(s); } else { OwnerSetHistory(s, ok); }
  }

  lemma LaunchHistory(s: State, id: nat, attached: bool)
    requires HistoryAt(s) && Step(s, Launch(id, attached)).Next?
    ensures HistoryAt(Step(s, Launch(id, attached)).s)
  {
    hide HistoryAt, Honest, Upcall, Registered;
    LogOne(s.log, Launched(id));
    ThreadHistory(s, Step(s, Launch(id, attached)).s, id, Some(Launched(id)));
  }

  /** In every run an upcall reports success if and only if it called `protect` on the object registered at the moment
      it held the lock and got true without an exception; and the only exit that leaves an exception pending is a
      failed method lookup. */
  lemma {:induction false} SuccessMeansProtected(actions: seq<Action>)
    requires Run(actions).Next?
    ensures var s := Run(actions).s;
            Honest(s.log) && forall id :: id in s.threads ==>
              (s.threads[id].pending <==> LookupFailed(id) in Upcall(s.log, id))
  {
    hide Step, Inv, Honest, Upcall, Run, StoredAt;
    EveryHistory(actions);
    var s := Run(actions).s;
    forall id | id in s.threads ensures s.threads[id].pending <==> LookupFailed(id) in Upcall(s.log, id) {
      UpcallOf(s, id);
    }
  }

  lemma {:induction false} EveryHistory(actions: seq<Action>)
    requires Run(actions).Next?
    ensures HistoryAt(Run(actions).s)
  {
    hide Step, Inv;
    if actions != [] {
      var n := |actions| - 1;
      EveryHistory(actions[..n]);
      EveryRunIsSafe(actions[..n]);
      var s := Run(actions[..n]).s;
      if Step(s, actions[n]).Next? {
        StepHistory(s, actions[n]);
      }
    }
  }

  // ---------- the run that goes wrong ----------

  lemma RunOne(actions: seq<Action>, a: Action, s: State, t: State)
    requires Run(actions) == Next(s) && Step(s, a) == Next(t)
    ensures Run(actions + [a]) == Next(t)
  {
    hide Step;
    assert (actions + [a])[..|actions + [a]| - 1] == actions;
  }

  /** One struct, holding `obj`'s reference unless it is still to be stored. */
  function Holding(service: Option<GlobalRef>, holder: Holder): map<nat, Struct> {
    map[0 := Struct(true, true, holder, service, false)]
  }

  function Began(obj: Object, owner: Owner): State {
    Init().(owner := owner, heap := Holding(None, Nobody), nextStruct := 1)
  }

  lemma FirstStruct(obj: Object) returns (actions: seq<Action>)
    ensures Run(actions) == Next(Began(obj, SetMutexInit(obj, 0)).(heap := map[0 := Struct(false, false, Nobody, None, false)]))
  {
    hide Run;
    var s0 := Init();
    var s1 := s0.(owner := SetReadCtx(obj));
    var s2 := s0.(owner := SetAlloc(obj));
    var s3 := s0.(owner := SetMutexInit(obj, 0), heap := map[0 := Struct(false, false, Nobody, None, false)], nextStruct := 1);
    RunNothing();
    RunOne([], Register(obj), s0, s1);
    actions := [] + [Register(obj)];
    RunOne(actions, OwnerRuns(true), s1, s2);
    actions := actions + [OwnerRuns(true)];
    RunOne(actions, OwnerRuns(true), s2, s3);
    actions := actions + [OwnerRuns(true)];
  }

  lemma FirstUsable(obj: Object) returns (actions: seq<Action>)
    ensures Run(actions) == Next(Began(obj, SetNewGlobal(obj, 0, true)))
  {
    hide Run;
    actions := FirstStruct(obj);
    var s3 := Began(obj, SetMutexInit(obj, 0)).(heap := map[0 := Struct(false, false, Nobody, None, false)]);
    var s4 := Began(obj, SetNewGlobal(obj, 0, true));
    assert s3.heap[0 := s3.heap[0].(mutex := true, vm := true)] == s4.heap;
    RunOne(actions, OwnerRuns(true), s3, s4);
    actions := actions + [OwnerRuns(true)];
  }

  lemma FirstReference(obj: Object) returns (actions: seq<Action>)
    ensures Run(actions) == Next(Began(obj, SetLock(0, true, 0)).(globals := map[0 := obj], nextGlobal := 1))
  {
    hide Run;
    actions := FirstUsable(obj);
    var s4 := Began(obj, SetNewGlobal(obj, 0, true));
    var s5 := s4.(owner := SetLock(0, true, 0), globals := map[0 := obj], nextGlobal := 1);
    assert s4.globals[0 := obj] == s5.globals;
    RunOne(actions, OwnerRuns(true), s4, s5);
    actions := actions + [OwnerRuns(true)];
  }

  lemma RunNothing()
    ensures Run([]) == Next(Init())
  {
  }

  function Registered1(obj: Object, holder: Holder, owner: Owner): State {
    Began(obj, owner).(heap := Holding(Some(0), holder), globals := map[0 := obj], nextGlobal := 1, log := [Stored(obj)])
  }

  lemma FirstLocked(obj: Object) returns (actions: seq<Action>)
    ensures Run(actions) ==
            Next(Began(obj, SetRead(0, true, 0)).(globals := map[0 := obj], nextGlobal := 1, heap := Holding(None, TheOwner)))
  {
    hide Run;
    actions := FirstReference(obj);
    var s5 := Began(obj, SetLock(0, true, 0)).(globals := map[0 := obj], nextGlobal := 1);
    var s6 := s5.(owner := SetRead(0, true, 0), heap := Holding(None, TheOwner));
    assert s5.heap[0 := s5.heap[0].(holder := TheOwner)] == s6.heap;
    RunOne(actions, OwnerRuns(true), s5, s6);
    actions := actions + [OwnerRuns(true)];
  }

  lemma FirstStored(obj: Object) returns (actions: seq<Action>)
    ensures Run(actions) == Next(Registered1(obj, TheOwner, SetOpen(0, true, None)))
  {
    hide Run;
    actions := FirstLocked(obj);
    var s6 := Began(obj, SetRead(0, true, 0)).(globals := map[0 := obj], nextGlobal := 1, heap := Holding(None, TheOwner));
    var s7 := s6.(owner := SetWrite(0, true, 0, None));
    var s8 := Registered1(obj, TheOwner, SetOpen(0, true, None));
    RunOne(actions, OwnerRuns(true), s6, s7);
    actions := actions + [OwnerRuns(true)];
    assert s7.heap[0 := s7.heap[0].(service := Some(0))] == s8.heap;
    RunOne(actions, OwnerRuns(true), s7, s8);
    actions := actions + [OwnerRuns(true)];
  }

  lemma FirstUnlocked(obj: Object) returns (actions: seq<Action>)
    ensures Run(actions) == Next(Registered1(obj, Nobody, SetDelete(0, true, None)))
  {
    hide Run;
    actions := FirstStored(obj);
    var s8 := Registered1(obj, TheOwner, SetOpen(0, true, None));
    var s9 := Registered1(obj, TheOwner, SetUnlock(0, true, None));
    var s10 := Registered1(obj, Nobody, SetDelete(0, true, None));
    assert s8.heap[0 := s8.heap[0].(released := false)] == s9.heap;
    RunOne(actions, OwnerRuns(true), s8, s9);
    actions := actions + [OwnerRuns(true)];
    assert s9.heap[0 := s9.heap[0].(holder := Nobody)] == s10.heap;
    RunOne(actions, OwnerRuns(true), s9, s10);
    actions := actions + [OwnerRuns(true)];
  }

  /** A first registration, undisturbed. */
  lemma FirstArmed(obj: Object) returns (actions: seq<Action>)
    ensures Run(actions) == Next(Registered1(obj, Nobody, Resting).(hook := true, ctx := Some(0)))
  {
    hide Run;
    actions := FirstUnlocked(obj);
    var s10 := Registered1(obj, Nobody, SetDelete(0, true, None));
    var s11 := Registered1(obj, Nobody, SetArmHook(0, true));
    var s12 := Registered1(obj, Nobody, SetArmCtx(0, true)).(hook := true);
    var s13 := Registered1(obj, Nobody, Resting).(hook := true, ctx := Some(0));
    RunOne(actions, OwnerRuns(true), s10, s11);
    actions := actions + [OwnerRuns(true)];
    RunOne(actions, OwnerRuns(true), s11, s12);
    actions := actions + [OwnerRuns(true)];
    RunOne(actions, OwnerRuns(true), s12, s13);
    actions := actions + [OwnerRuns(true)];
  }

  /** Thread 0 at some point of its connect. */
  function Connecting(obj: Object, w: Worker): State {
    Registered1(obj, Nobody, Resting).(hook := true, ctx := Some(0), log := [Stored(obj), Launched(0)],
                                       threads := map[0 := Thread(w, false, false, {}, false)])
  }

  lemma ConnectGoes(actions: seq<Action>, obj: Object, w: Worker, v: Worker)
    requires Run(actions) == Next(Connecting(obj, w)) && ((w == Starting && v == CheckHook) || (w == CheckHook && v == LoadHook))
    ensures Run(actions + [WorkerRuns(0, true, Yes)]) == Next(Connecting(obj, v))
  {
    hide Run;
    assert Goes(Connecting(obj, w), 0, v).threads == Connecting(obj, v).threads;
    RunOne(actions, WorkerRuns(0, true, Yes), Connecting(obj, w), Connecting(obj, v));
  }

  lemma FirstConnect(obj: Object) returns (actions: seq<Action>)
    ensures Run(actions) == Next(Connecting(obj, LoadHook))
  {
    hide Run;
    actions := FirstArmed(obj);
    var s0 := Registered1(obj, Nobody, Resting).(hook := true, ctx := Some(0));
    RunOne(actions, Launch(0, false), s0, Connecting(obj, Starting));
    actions := actions + [Launch(0, false)];
    ConnectGoes(actions, obj, Starting, CheckHook);
    actions := actions + [WorkerRuns(0, true, Yes)];
    ConnectGoes(actions, obj, CheckHook, LoadHook);
    actions := actions + [WorkerRuns(0, true, Yes)];
  }

  /** The hook is cleared between a thread's look at it and its call: the call goes through a null pointer. */
  lemma HookClearedBeforeTheCall(obj: Object) returns (actions: seq<Action>)
    ensures Run(actions) == Crash(NullHook)
  {
    hide Run;
    actions := FirstConnect(obj);
    var s3 := Connecting(obj, LoadHook);
    var s4 := s3.(owner := DestroyReadCtx);
    var s5 := s3.(owner := DestroyClearHook(Some(0)));
    var s6 := s3.(owner := DestroyClearCtx(Some(0)), hook := false);
    RunOne(actions, Destroy, s3, s4);
    actions := actions + [Destroy];
    RunOne(actions, OwnerRuns(true), s4, s5);
    actions := actions + [OwnerRuns(true)];
    RunOne(actions, OwnerRuns(true), s5, s6);
    actions := actions + [OwnerRuns(true)];
    RunCrash(actions, WorkerRuns(0, true, Yes), s6);
    actions := actions + [WorkerRuns(0, true, Yes)];
  }

  lemma RunCrash(actions: seq<Action>, a: Action, s: State)
    requires Run(actions) == Next(s) && Step(s, a) == Crash(NullHook)
    ensures Run(actions + [a]) == Crash(NullHook)
  {
    hide Step;
    assert (actions + [a])[..|actions + [a]| - 1] == actions;
  }

  // ---------- the run that leaks ----------

  /** A first registration whose reference cannot be made, then the destruction: the struct stays. */
  lemma ReferenceFails(obj: Object)
    ensures Step(Began(obj, SetNewGlobal(obj, 0, true)), OwnerRuns(false)) == Next(Began(obj, Resting).(leaked := {0}))
  {
    assert {} + {0} == {0};
  }

  lemma FirstReferenceFails(obj: Object) returns (actions: seq<Action>)
    ensures Run(actions).Next? && Run(actions).s.owner == Destroyed
    ensures Run(actions).s.leaked == {0} && Run(actions).s.heap.Keys == {0}
  {
    hide Run, Step;
    actions := FirstUsable(obj);
    var s4 := Began(obj, SetNewGlobal(obj, 0, true));
    var s5 := Began(obj, Resting).(leaked := {0});
    ReferenceFails(obj);
    RunOne(actions, OwnerRuns(false), s4, s5);
    actions := actions + [OwnerRuns(false)];
    actions := DestroyNothing(actions, s5);
  }

  /** A destruction without a registered struct. */
  lemma DestroyNothing(before: seq<Action>, s: State) returns (actions: seq<Action>)
    requires Run(before) == Next(s) && s.owner == Resting && s.ctx == None && !s.hook && s.threads == map[]
    ensures Run(actions) == Next(s.(owner := Destroyed))
  {
    hide Run;
    actions := before;
    RunOne(actions, Destroy, s, s.(owner := DestroyReadCtx));
    actions := actions + [Destroy];
    RunOne(actions, OwnerRuns(true), s.(owner := DestroyReadCtx), s.(owner := DestroyClearHook(None)));
    actions := actions + [OwnerRuns(true)];
    RunOne(actions, OwnerRuns(true), s.(owner := DestroyClearHook(None)), s.(owner := DestroyClearCtx(None)));
    actions := actions + [OwnerRuns(true)];
    RunOne(actions, OwnerRuns(true), s.(owner := DestroyClearCtx(None)), s.(owner := DestroyJoin(None)));
    actions := actions + [OwnerRuns(true)];
    RunOne(actions, OwnerRuns(true), s.(owner := DestroyJoin(None)), s.(owner := Destroyed));
    actions := actions + [OwnerRuns(true)];
  }

  // ---------- the run that succeeds ----------

  /** One registered service, and thread 0 at some point of its upcall. */
  function Upcalling(obj: Object, t: Thread, holder: Holder, log: seq<Event>): State {
    Registered1(obj, holder, Resting).(hook := true, ctx := Some(0), log := log, threads := map[0 := t])
  }

  /** A thread the host did not attach, at a point where it holds `locals`. */
  function Caller(w: Worker, attached: bool, locals: set<LocalRef>): Thread {
    Thread(w, false, attached, locals, false)
  }

  function LaunchedLog(obj: Object): seq<Event> { [Stored(obj), Launched(0)] }

  function TookLog(obj: Object): seq<Event> { LaunchedLog(obj) + [Took(0, obj)] }

  function YesLog(obj: Object): seq<Event> { TookLog(obj) + [Answered(0, obj, Yes)] }

  /** One step of the thread. */
  lemma CallerRuns(actions: seq<Action>, obj: Object, t: Thread, holder: Holder, log: seq<Event>,
                   u: Thread, after: Holder, more: seq<Event>) returns (run: seq<Action>)
    requires Run(actions) == Next(Upcalling(obj, t, holder, log))
    requires WorkerStep(Upcalling(obj, t, holder, log), 0, true, Yes) == Next(Upcalling(obj, u, after, more))
    ensures Run(run) == Next(Upcalling(obj, u, after, more))
  {
    hide Run, WorkerStep, Upcalling;
    run := actions + [WorkerRuns(0, true, Yes)];
    RunOne(actions, WorkerRuns(0, true, Yes), Upcalling(obj, t, holder, log), Upcalling(obj, u, after, more));
  }

  /** A step that changes the thread's point alone. */
  lemma CallerGoes(obj: Object, t: Thread, w: Worker, holder: Holder, log: seq<Event>)
    ensures Goes(Upcalling(obj, t, holder, log), 0, w) == Upcalling(obj, t.(at := w), holder, log)
  {
    assert map[0 := t][0 := t.(at := w)] == map[0 := t.(at := w)];
  }

  lemma ReadsHook(obj: Object) returns (run: seq<Action>)
    ensures Run(run) == Next(Upcalling(obj, Caller(LoadCtx, false, {}), Nobody, LaunchedLog(obj)))
  {
    hide Run;
    var log, t := LaunchedLog(obj), Caller(LoadHook, false, {});
    run := FirstConnect(obj);
    assert Connecting(obj, LoadHook) == Upcalling(obj, t, Nobody, log);
    CallerGoes(obj, t, LoadCtx, Nobody, log);
    run := CallerRuns(run, obj, t, Nobody, log, Caller(LoadCtx, false, {}), Nobody, log);
  }

  lemma DialsAndEnters(obj: Object) returns (run: seq<Action>)
    ensures Run(run) == Next(Upcalling(obj, Caller(GetEnv(0), false, {}), Nobody, LaunchedLog(obj)))
  {
    hide Run;
    var log, hooked, entered := LaunchedLog(obj), Caller(LoadCtx, false, {}), Caller(Enter(Some(0)), false, {});
    run := ReadsHook(obj);
    CallerGoes(obj, hooked, Enter(Some(0)), Nobody, log);
    run := CallerRuns(run, obj, hooked, Nobody, log, entered, Nobody, log);
    CallerGoes(obj, entered, GetEnv(0), Nobody, log);
    run := CallerRuns(run, obj, entered, Nobody, log, Caller(GetEnv(0), false, {}), Nobody, log);
  }

  lemma AttachesAndLocks(obj: Object) returns (run: seq<Action>)
    ensures Run(run) == Next(Upcalling(obj, Caller(Read(0, true), true, {}), Upcaller(0), LaunchedLog(obj)))
  {
    hide Run;
    var log := LaunchedLog(obj);
    run := DialsAndEnters(obj);
    CallerGoes(obj, Caller(GetEnv(0), false, {}), Attach(0), Nobody, log);
    run := CallerRuns(run, obj, Caller(GetEnv(0), false, {}), Nobody, log, Caller(Attach(0), false, {}), Nobody, log);
    CallerBecomes(obj, Caller(Attach(0), false, {}), Caller(Lock(0, true), true, {}), Nobody, log);
    run := CallerRuns(run, obj, Caller(Attach(0), false, {}), Nobody, log, Caller(Lock(0, true), true, {}), Nobody, log);
    CallerGoes(obj, Caller(Lock(0, true), true, {}), Read(0, true), Nobody, log);
    Locked(obj, Nobody, Upcaller(0));
    run := CallerRuns(run, obj, Caller(Lock(0, true), true, {}), Nobody, log, Caller(Read(0, true), true, {}), Upcaller(0), log);
  }

  lemma CallerBecomes(obj: Object, t: Thread, u: Thread, holder: Holder, log: seq<Event>)
    ensures Becomes(Upcalling(obj, t, holder, log), 0, u) == Upcalling(obj, u, holder, log)
  {
    assert map[0 := t][0 := u] == map[0 := u];
  }

  lemma Locked(obj: Object, holder: Holder, after: Holder)
    ensures var heap := Holding(Some(0), holder); heap[0 := heap[0].(holder := after)] == Holding(Some(0), after)
  {
  }

  lemma TakesReference(obj: Object) returns (run: seq<Action>)
    ensures Run(run) == Next(Upcalling(obj, Caller(GetClass(0, true, obj), true, {ServiceRef(obj)}), Nobody, TookLog(obj)))
  {
    hide Run;
    var log, me := LaunchedLog(obj), Upcaller(0);
    run := AttachesAndLocks(obj);
    CallerGoes(obj, Caller(Read(0, true), true, {}), TakeRef(0, true), me, log);
    run := CallerRuns(run, obj, Caller(Read(0, true), true, {}), me, log, Caller(TakeRef(0, true), true, {}), me, log);
    var taken := Caller(Unlock(0, true, Some(obj)), true, {ServiceRef(obj)});
    CallerBecomes(obj, Caller(TakeRef(0, true), true, {}), taken, me, log);
    assert {} + {ServiceRef(obj)} == {ServiceRef(obj)};
    run := CallerRuns(run, obj, Caller(TakeRef(0, true), true, {}), me, log, taken, me, TookLog(obj));
    var free := Caller(GetClass(0, true, obj), true, {ServiceRef(obj)});
    CallerGoes(obj, taken, GetClass(0, true, obj), me, TookLog(obj));
    Locked(obj, me, Nobody);
    run := CallerRuns(run, obj, taken, me, TookLog(obj), free, Nobody, TookLog(obj));
  }

  lemma CallsProtect(obj: Object) returns (run: seq<Action>)
    ensures Run(run) == Next(Upcalling(obj, Caller(DropClass(0, true, obj, true), true, {ServiceRef(obj), ClassRef(obj)}),
                                       Nobody, YesLog(obj)))
  {
    hide Run;
    var log, one, two := TookLog(obj), {ServiceRef(obj)}, {ServiceRef(obj), ClassRef(obj)};
    run := TakesReference(obj);
    assert one + {ClassRef(obj)} == two && log + [] == log;
    CallerChanges(obj, Caller(GetClass(0, true, obj), true, one), Caller(GetMethod(0, true, obj), true, two), log, log);
    run := CallerRuns(run, obj, Caller(GetClass(0, true, obj), true, one), Nobody, log,
                      Caller(GetMethod(0, true, obj), true, two), Nobody, log);
    CallerChanges(obj, Caller(GetMethod(0, true, obj), true, two), Caller(Call(0, true, obj), true, two), log, log);
    run := CallerRuns(run, obj, Caller(GetMethod(0, true, obj), true, two), Nobody, log,
                      Caller(Call(0, true, obj), true, two), Nobody, log);
    CallerChanges(obj, Caller(Call(0, true, obj), true, two), Caller(DropClass(0, true, obj, true), true, two), log, YesLog(obj));
    run := CallerRuns(run, obj, Caller(Call(0, true, obj), true, two), Nobody, log,
                      Caller(DropClass(0, true, obj, true), true, two), Nobody, YesLog(obj));
  }

  lemma CallerChanges(obj: Object, t: Thread, u: Thread, log: seq<Event>, more: seq<Event>)
    ensures Upcalling(obj, t, Nobody, log).(threads := map[0 := t][0 := u], log := more) == Upcalling(obj, u, Nobody, more)
  {
    assert map[0 := t][0 := u] == map[0 := u];
  }

  lemma DropsClass(obj: Object) returns (run: seq<Action>)
    ensures Run(run) ==
            Next(Upcalling(obj, Caller(DropService(0, true, obj, true), true, {ServiceRef(obj)}), Nobody, YesLog(obj)))
  {
    hide Run;
    var log, one, two := YesLog(obj), {ServiceRef(obj)}, {ServiceRef(obj), ClassRef(obj)};
    run := CallsProtect(obj);
    assert two - {ClassRef(obj)} == one && log + [] == log;
    var before, after := Caller(DropClass(0, true, obj, true), true, two), Caller(DropService(0, true, obj, true), true, one);
    CallerChanges(obj, before, after, log, log);
    run := CallerRuns(run, obj, before, Nobody, log, after, Nobody, log);
  }

  lemma DropsReferences(obj: Object) returns (run: seq<Action>)
    ensures Run(run) == Next(Upcalling(obj, Caller(Return(true), false, {}), Nobody, YesLog(obj)))
  {
    hide Run;
    var log, one := YesLog(obj), {ServiceRef(obj)};
    run := DropsClass(obj);
    assert one - {ServiceRef(obj)} == {} && log + [] == log;
    CallerChanges(obj, Caller(DropService(0, true, obj, true), true, one), Caller(Detach(0, true, true), true, {}), log, log);
    run := CallerRuns(run, obj, Caller(DropService(0, true, obj, true), true, one), Nobody, log,
                      Caller(Detach(0, true, true), true, {}), Nobody, log);
    CallerBecomes(obj, Caller(Detach(0, true, true), true, {}), Caller(Return(true), false, {}), Nobody, log);
    run := CallerRuns(run, obj, Caller(Detach(0, true, true), true, {}), Nobody, log,
                      Caller(Return(true), false, {}), Nobody, log);
  }

  /** A service is registered, an upcall takes it, `protect` says yes, and the upcall reports success. */
  lemma RegisteredServiceProtects(obj: Object) returns (run: seq<Action>)
    ensures Run(run).Next?
    ensures Run(run).s.log == [Stored(obj), Launched(0), Took(0, obj), Answered(0, obj, Yes), Returned(0, true)]
    ensures 0 in Run(run).s.threads && Run(run).s.threads[0] == Thread(Finish, false, false, {}, false)
  {
    hide Run;
    run := DropsReferences(obj);
    var t := Caller(Return(true), false, {});
    CallerGoes(obj, t, Finish, Nobody, YesLog(obj));
    var log := YesLog(obj) + [Returned(0, true)];
    run := CallerRuns(run, obj, t, Nobody, YesLog(obj), Caller(Finish, false, {}), Nobody, log);
  }
}
