/** The `released` flag: it is set while the owner takes the struct apart, and no upcall ever sees it. */
module Marks {
  import opened Lifetime
  import opened Protector
  import opened Text

  /** The owner has marked this struct and not freed it yet. */
  predicate Marking(o: Owner, p: nat) {
    (o.DestroyUnlock? || o.DestroyDelete? || o.DestroyMutex? || o.DestroyFree?) && o.p == p
  }

  predicate MarkedAt(s: State) {
    forall p :: p in s.heap ==> (s.heap[p].released <==> Marking(s.owner, p))
  }

  lemma WorkerMarks(s: State, id: nat, ok: bool, answer: Answer)
    requires MarkedAt(s) && WorkerStep(s, id, ok, answer).Next?
    ensures MarkedAt(WorkerStep(s, id, ok, answer).s)
  {
    hide DialStep, EnterStep, LockStep, CallStep, DetachStep, Marking;
    var w := s.threads[id].at;
    if Dialling(w) {
      DialKeepsHeap(s, id, ok);
    } else if Entering(w) {
      EnterKeepsHeap(s, id, ok);
    } else if Locking(w) {
      LockKeepsFlags(s, id, ok);
    } else {
      CallKeepsHeap(s, id, ok, answer);
    }
  }

  lemma DialKeepsHeap(s: State, id: nat, ok: bool)
    requires id in s.threads && DialStep(s, id, ok).Next?
    ensures var t := DialStep(s, id, ok).s; t.owner == s.owner && t.heap == s.heap
  {
  }

  lemma EnterKeepsHeap(s: State, id: nat, ok: bool)
    requires id in s.threads && EnterStep(s, id, ok).Next?
    ensures var t := EnterStep(s, id, ok).s; t.owner == s.owner && t.heap == s.heap
  {
  }

  lemma LockKeepsFlags(s: State, id: nat, ok: bool)
    requires id in s.threads && LockStep(s, id, ok).Next?
    ensures var t := LockStep(s, id, ok).s;
            t.owner == s.owner && forall p :: p in t.heap ==> p in s.heap && t.heap[p].released == s.heap[p].released
  {
  }

  lemma CallKeepsHeap(s: State, id: nat, ok: bool, answer: Answer)
    requires id in s.threads
    ensures Calling(s.threads[id].at) && CallStep(s, id, ok, answer).Next? ==>
              CallStep(s, id, ok, answer).s.owner == s.owner && CallStep(s, id, ok, answer).s.heap == s.heap
    ensures s.threads[id].at.Detach? && DetachStep(s, id).Next? ==>
              DetachStep(s, id).s.owner == s.owner && DetachStep(s, id).s.heap == s.heap
  {
    hide CallThread, CallEvents;
  }

  /** No struct is flagged. */
  ghost predicate Clear(s: State) {
    (forall p :: !Marking(s.owner, p)) && forall p :: p in s.heap ==> !s.heap[p].released
  }

  lemma SetKeepsHeap(s: State, ok: bool)
    requires Clear(s) && OwnerSetStep(s, ok).Next?
    requires !s.owner.SetAlloc? && !s.owner.SetMutexInit? && !s.owner.SetLock? && !s.owner.SetUnlock? &&
             !s.owner.SetWrite? && !s.owner.SetOpen?
    ensures Clear(OwnerSetStep(s, ok).s)
  {
  }

  lemma SetChangesHolder(s: State, ok: bool)
    requires Clear(s) && OwnerSetStep(s, ok).Next? && (s.owner.SetLock? || s.owner.SetUnlock?)
    ensures Clear(OwnerSetStep(s, ok).s)
  {
  }

  lemma SetChangesFields(s: State, ok: bool)
    requires Clear(s) && OwnerSetStep(s, ok).Next? && (s.owner.SetWrite? || s.owner.SetOpen?)
    ensures Clear(OwnerSetStep(s, ok).s)
  {
  }

  lemma SetMakesStruct(s: State, ok: bool)
    requires Clear(s) && OwnerSetStep(s, ok).Next? && (s.owner.SetAlloc? || s.owner.SetMutexInit?)
    ensures Clear(OwnerSetStep(s, ok).s)
  {
  }

  lemma SetMarks(s: State, ok: bool)
    requires MarkedAt(s) && OwnerSetStep(s, ok).Next?
    ensures MarkedAt(OwnerSetStep(s, ok).s)
  {
    NotMarking(s, ok);
    hide OwnerSetStep, Marking;
    if s.owner.SetAlloc? || s.owner.SetMutexInit? {
      SetMakesStruct(s, ok);
    } else if s.owner.SetLock? || s.owner.SetUnlock? {
      SetChangesHolder(s, ok);
    } else if s.owner.SetWrite? || s.owner.SetOpen? {
      SetChangesFields(s, ok);
    } else {
      SetKeepsHeap(s, ok);
    }
  }

  lemma NotMarking(s: State, ok: bool)
    requires OwnerSetStep(s, ok).Next?
    ensures forall p :: !Marking(s.owner, p)
  {
  }

  /** The marking, and the steps after it up to the struct's end. */
  lemma MarkingSteps(s: State)
    requires MarkedAt(s) && OwnerDestroyStep(s).Next?
    requires s.owner.DestroyMark? || s.owner.DestroyUnlock? || s.owner.DestroyDelete? || s.owner.DestroyMutex? ||
             s.owner.DestroyFree?
    ensures MarkedAt(OwnerDestroyStep(s).s)
  {
  }

  lemma EarlierSteps(s: State)
    requires Clear(s) && OwnerDestroyStep(s).Next?
    requires s.owner.DestroyReadCtx? || s.owner.DestroyClearHook? || s.owner.DestroyClearCtx? || s.owner.DestroyJoin? ||
             s.owner.DestroyLock? || s.owner.DestroyRead? || s.owner.DestroyClear?
    ensures Clear(OwnerDestroyStep(s).s)
  {
  }

  lemma DestroyMarks(s: State)
    requires MarkedAt(s) && OwnerDestroyStep(s).Next?
    ensures MarkedAt(OwnerDestroyStep(s).s)
  {
    OwnerSteps(s);
    hide OwnerDestroyStep;
    if s.owner.DestroyMark? || s.owner.DestroyUnlock? || s.owner.DestroyDelete? || s.owner.DestroyMutex? ||
       s.owner.DestroyFree? {
      MarkingSteps(s);
    } else {
      EarlierSteps(s);
    }
  }

  lemma OwnerSteps(s: State)
    requires OwnerDestroyStep(s).Next?
    ensures Destroying(s.owner) || Joined(s.owner)
    ensures !s.owner.Destroyed?
  {
  }

  lemma StepMarks(s: State, a: Action)
    requires MarkedAt(s) && Step(s, a).Next?
    ensures MarkedAt(Step(s, a).s)
  {
    hide WorkerStep, OwnerSetStep, OwnerDestroyStep;
    match a
    case Launch(_, _) =>
    case Register(_) =>
    case Destroy =>
    case WorkerRuns(id, ok, answer) => WorkerMarks(s, id, ok, answer);
    case OwnerRuns(ok) => if Destroying(s.owner) || Joined(s.owner) { DestroyMarks(s); } else { SetMarks(s, ok); }
  }

  /** In every run a struct is flagged exactly from its marking to its end, and a thread that reads the flag finds it
      clear: the flag turns no upcall away. */
  lemma {:induction false} ReleasedIsNeverSeen(actions: seq<Action>)
    requires Run(actions).Next?
    ensures var s := Run(actions).s;
            && MarkedAt(s)
            && forall id :: id in s.threads && s.threads[id].at.Read? && s.threads[id].at.p in s.heap ==>
                 !s.heap[s.threads[id].at.p].released
  {
    hide Step, Inv, MarkedAt;
    if actions == [] {
      NothingMarked();
    } else {
      var n := |actions| - 1;
      ReleasedIsNeverSeen(actions[..n]);
      var s := Run(actions[..n]).s;
      if Step(s, actions[n]).Next? {
        StepMarks(s, actions[n]);
      }
    }
    EveryRunIsSafe(actions);
    var s := Run(actions).s;
    forall id | id in s.threads && s.threads[id].at.Read? && s.threads[id].at.p in s.heap
      ensures !s.heap[s.threads[id].at.p].released
    {
      ReaderSeesNone(s, id);
    }
  }

  lemma NothingMarked()
    ensures MarkedAt(Init())
  {
  }

  lemma ReaderSeesNone(s: State, id: nat)
    requires Inv(s) && MarkedAt(s) && id in s.threads && s.threads[id].at.Read? && s.threads[id].at.p in s.heap
    ensures !s.heap[s.threads[id].at.p].released
  {
    ThreadOf(s, id);
    hide Inv;
  }
}
