/**
 * Renewal runs of one process, interleaved: any number of goroutines execute `startCertificateRenewal` on any keys,
 * against an API server that other writers change at any moment, over the named lock of `LockProtocol`.
 *
 * Each goroutine walks through `removeHTTPSAnnotation`, the wait and `addHTTPSAnnotation`; every lock transition,
 * every request to the server and every write by somebody else is one step.
 */
module RenewalProtocol {
  import opened GoStrings
  import LP = LockProtocol
  import opened IngressStore
  import opened GoTime
  import opened Decimal

  type Gid = LP.Gid

  /** The ingress a run works on and its timeout in nanoseconds. */
  datatype Run = Run(key: Key, timeout: int)

  datatype Phase =
    | Off
    | Gate(key: Key)                                              // the add handler asks IsLocked
    | RemTry(r: Run)                                              // TryLock of the removal
    | RemGet(r: Run)                                              // about to fetch the last version
    | RemPut(r: Run, base: Ingress, at: nat)                      // fetched `base` at revision `at`, stripped it
    | RemUnlock(r: Run, ok: bool)                                 // deferred Unlock; did the Update succeed?
    | Wait(r: Run)                                                // polling for the challenge to go away
    | AddTry(r: Run, successTime: int)
    | AddGet(r: Run, successTime: int)
    | AddPut(r: Run, successTime: int, base: Ingress, at: nat)
    | AddUnlock(r: Run, successTime: int, ok: bool)

  /** Removals that reached the server, durations observed, renewals counted, and the ends that counted neither. */
  datatype Metrics = Metrics(
    removals: nat, durations: nat, renewals: nat, waitFailures: nat, addFailures: nat, uncounted: nat)

  /**
   * `failed`: keys on which some run failed in a Get, an Update or a wait.
   * `leaked`: goroutines that returned from a failed Get without unlocking.
   * `bare`: keys created, or found at the start, without the HTTPS annotation.
   * `outside`: the revision of the last write to a key by somebody other than a run.
   * None of these, nor `metrics`, is read by any step.
   */
  datatype State = State(
    lock: LP.State, store: Store, phases: map<Gid, Phase>,
    bare: set<Key>, failed: set<Key>, leaked: set<(Gid, Key)>, outside: map<Key, nat>, metrics: Metrics)
  {
    function At(g: Gid): Phase {
      if g in phases then phases[g] else Off
    }

    function Goto(g: Gid, p: Phase): State {
      this.(phases := phases[g := p])
    }

  }

  function LastOutside(outside: map<Key, nat>, k: Key): nat {
    if k in outside then outside[k] else 0
  }

  datatype Poll = WaitFails | WaitEnds(successTime: int)

  datatype Label =
    | Outside(e: Edit)             // a write by somebody else
    | LockRun(g: Gid)              // one transition inside Lock, TryLock, Unlock or IsLocked
    | AskGate(g: Gid, k: Key)
    | Answer(g: Gid)               // IsLocked returned
    | Start(g: Gid, r: Run)
    | Entered(g: Gid)              // TryLock returned
    | Fetch(g: Gid, fault: bool)   // Get
    | Push(g: Gid, fault: bool)    // Update, then the deferred Unlock is called
    | Released(g: Gid)             // Unlock returned
    | Polled(g: Gid, p: Poll)      // the wait is over

  function CallLock(s: State, g: Gid, op: LP.Op, k: Key, p: Phase): Option<State> {
    match LP.Apply(s.lock, LP.Call(g, op, k))
    case None => None
    case Some(lock) => Some(s.(lock := lock).Goto(g, p))
  }

  function ReturnLock(s: State, g: Gid, p: Phase): Option<State> {
    match LP.Apply(s.lock, LP.Return(g))
    case None => None
    case Some(lock) => Some(s.(lock := lock).Goto(g, p))
  }

  function OutsideStep(s: State, e: Edit): State {
    if !Takes(s.store, e) then s
    else
      s.(store := ApplyEdit(s.store, e),
         outside := s.outside[e.k := s.store.rev + 1],
         bare := if !e.Create? then s.bare
                 else if IsBackendHttpsAnnotations(e.ing) then s.bare - {e.k} else s.bare + {e.k})
  }

  function EnterStep(s: State, g: Gid): Option<State> {
    match s.At(g)
    case RemTry(r) =>
      if s.lock.PcOf(g).Done? then ReturnLock(s, g, if s.lock.PcOf(g).result then RemGet(r) else Off) else None
    case AddTry(r, t) =>
      if !s.lock.PcOf(g).Done? then None
      else if s.lock.PcOf(g).result then ReturnLock(s, g, AddGet(r, t))
      else ReturnLock(s.(metrics := s.metrics.(addFailures := s.metrics.addFailures + 1)), g, Off)
    case _ => None
  }

  /** A failed Get returns before the deferred Unlock is registered: the key stays locked. */
  function FetchStep(s: State, g: Gid, fault: bool): Option<State> {
    match s.At(g)
    case RemGet(r) =>
      if fault || r.key !in s.store.objs then
        Some(s.(failed := s.failed + {r.key}, leaked := s.leaked + {(g, r.key)}).Goto(g, Off))
      else Some(s.Goto(g, RemPut(r, s.store.objs[r.key], s.store.rev)))
    case AddGet(r, t) =>
      if fault || r.key !in s.store.objs then
        Some(s.(failed := s.failed + {r.key}, leaked := s.leaked + {(g, r.key)},
                metrics := s.metrics.(addFailures := s.metrics.addFailures + 1)).Goto(g, Off))
      else Some(s.Goto(g, AddPut(r, t, s.store.objs[r.key], s.store.rev)))
    case _ => None
  }

  function PushStep(s: State, g: Gid, fault: bool): Option<State> {
    match s.At(g)
    case RemPut(r, base, at) =>
      if fault || !CanUpdate(s.store, WithoutBackend(base)) then
        CallLock(s.(failed := s.failed + {r.key}), g, LP.Unlock, r.key, RemUnlock(r, false))
      else
        CallLock(s.(store := Update(s.store, WithoutBackend(base)),
                    metrics := s.metrics.(removals := s.metrics.removals + 1)), g, LP.Unlock, r.key, RemUnlock(r, true))
    case AddPut(r, t, base, at) =>
      if fault || !CanUpdate(s.store, WithHttps(base)) then
        CallLock(s.(failed := s.failed + {r.key}), g, LP.Unlock, r.key, AddUnlock(r, t, false))
      else
        CallLock(s.(store := Update(s.store, WithHttps(base))), g, LP.Unlock, r.key, AddUnlock(r, t, true))
    case _ => None
  }

  function ReleaseStep(s: State, g: Gid): Option<State> {
    if !s.lock.PcOf(g).Done? then None
    else
      match s.At(g)
      case RemUnlock(r, ok) => ReturnLock(s, g, if ok then Wait(r) else Off)
      case AddUnlock(r, t, ok) =>
        var m := s.metrics;
        ReturnLock(s.(metrics := if !ok then m.(addFailures := m.addFailures + 1)
                                 else if OperatorCounted(r.timeout, t) then m.(renewals := m.renewals + 1)
                                 else m.(uncounted := m.uncounted + 1)), g, Off)
      case _ => None
  }

  /** The last poll saw no challenge, or the deadline passed and the wait returned the doubled timeout. */
  predicate CanEnd(s: State, r: Run, successTime: int) {
    || successTime == Sentinel(r.timeout)
    || (IsInt64(successTime) && successTime >= 0
        && r.key in s.store.objs && ScanRules(s.store.objs[r.key].rules).Absent?)
  }

  function PollStep(s: State, g: Gid, p: Poll): Option<State> {
    match s.At(g)
    case Wait(r) =>
      var m := s.metrics;
      (match p
       case WaitFails =>
         Some(s.(failed := s.failed + {r.key}, metrics := m.(waitFailures := m.waitFailures + 1)).Goto(g, Off))
       case WaitEnds(t) =>
         if !CanEnd(s, r, t) then None
         else CallLock(s.(metrics := m.(durations := m.durations + 1)), g, LP.TryLock, r.key, AddTry(r, t)))
    case _ => None
  }

  function Apply(s: State, l: Label): Option<State> {
    match l
    case Outside(e) => Some(OutsideStep(s, e))
    case LockRun(g) =>
      (match LP.Advance(s.lock, g) case None => None case Some(lock) => Some(s.(lock := lock)))
    case AskGate(g, k) => if s.At(g).Off? then CallLock(s, g, LP.IsLocked, k, Gate(k)) else None
    case Answer(g) => if s.At(g).Gate? && s.lock.PcOf(g).Done? then ReturnLock(s, g, Off) else None
    case Start(g, r) => if s.At(g).Off? then CallLock(s, g, LP.TryLock, r.key, RemTry(r)) else None
    case Entered(g) => EnterStep(s, g)
    case Fetch(g, fault) => FetchStep(s, g, fault)
    case Push(g, fault) => PushStep(s, g, fault)
    case Released(g) => ReleaseStep(s, g)
    case Polled(g, p) => PollStep(s, g, p)
  }

  predicate Initial(s: State) {
    && s.lock == LP.INIT && s.phases == map[] && s.failed == {} && s.leaked == {} && s.outside == map[]
    && s.metrics == Metrics(0, 0, 0, 0, 0, 0)
    && StoreOk(s.store)
    && s.bare == set k | k in s.store.objs && !IsBackendHttpsAnnotations(s.store.objs[k])
  }

  ghost predicate IsExecution(states: seq<State>, labels: seq<Label>) {
    && |states| == |labels| + 1 && Initial(states[0])
    && forall i | 0 <= i < |labels| :: Apply(states[i], labels[i]) == Some(states[i + 1])
  }

  // ---- The invariant.

  function KeyOf(p: Phase): Option<Key> {
    match p
    case Off => None
    case Gate(k) => Some(k)
    case _ => Some(p.r.key)
  }

  /** The critical sections, from the call of TryLock to the return of Unlock. */
  predicate Occupies(p: Phase, k: Key) {
    (p.RemTry? || p.AddTry? || Inside(p, k)) && p.r.key == k
  }

  /** The critical sections, from the return of TryLock. */
  predicate Inside(p: Phase, k: Key) {
    (p.RemGet? || p.RemPut? || p.RemUnlock? || p.AddGet? || p.AddPut? || p.AddUnlock?) && p.r.key == k
  }

  /** What the phase of a goroutine says about its lock call and what it holds. */
  predicate LinkOk(g: Gid, p: Phase, pc: LP.Pc, held: set<(Gid, Key)>) {
    match p
    case Off => pc.Idle?
    case Gate(k) => LP.InCall(pc, LP.IsLocked, k)
    case Wait(_) => pc.Idle?
    case RemTry(r) => LP.InCall(pc, LP.TryLock, r.key)
    case AddTry(r, _) => LP.InCall(pc, LP.TryLock, r.key)
    case RemUnlock(r, _) => LP.InCall(pc, LP.Unlock, r.key) && (!pc.Done? ==> (g, r.key) in held)
    case AddUnlock(r, _, _) => LP.InCall(pc, LP.Unlock, r.key) && (!pc.Done? ==> (g, r.key) in held)
    case _ => pc.Idle? && (g, p.r.key) in held
  }

  /** A holder is inside a critical section, or left one through a failed Get. */
  predicate HeldOk(g: Gid, k: Key, p: Phase, pc: LP.Pc, leaked: set<(Gid, Key)>) {
    || (g, k) in leaked
    || (Occupies(p, k) && (p.RemTry? || p.AddTry? ==> LP.Acquired(pc, k)))
  }

  predicate LeakOk(g: Gid, k: Key, p: Phase, pc: LP.Pc, held: set<(Gid, Key)>, failed: set<Key>) {
    (g, k) in held && k in failed && !Inside(p, k) && !(Occupies(p, k) && LP.Acquired(pc, k))
  }

  /** The copy about to be written is what the server holds, unless somebody outside has written since the Get. */
  predicate CopyOk(p: Phase, store: Store, outside: map<Key, nat>) {
    p.RemPut? || p.AddPut? ==>
      var lastOutside := LastOutside(outside, p.r.key);
      && p.base.key == p.r.key && p.base.version <= p.at <= store.rev
      && (lastOutside <= p.at ==> p.r.key in store.objs && store.objs[p.r.key] == p.base)
      && (lastOutside > p.at ==> p.r.key !in store.objs || store.objs[p.r.key].version > p.at)
  }

  ghost predicate RunsOk(s: State) {
    && (forall g: Gid :: LinkOk(g, s.At(g), s.lock.PcOf(g), s.lock.held))
    && (forall g, k | (g, k) in s.lock.held :: HeldOk(g, k, s.At(g), s.lock.PcOf(g), s.leaked))
    && (forall g, k | (g, k) in s.leaked :: LeakOk(g, k, s.At(g), s.lock.PcOf(g), s.lock.held, s.failed))
  }

  ghost predicate CopiesOk(s: State) {
    && StoreOk(s.store)
    && (forall k :: LastOutside(s.outside, k) <= s.store.rev)
    && (forall g: Gid :: CopyOk(s.At(g), s.store, s.outside))
  }

  /** Somebody will put the annotation of `k` back: a run between its removal and its reinstatement, or an
      in-flight run that holds the key. */
  predicate Covers(p: Phase, pc: LP.Pc, k: Key, holds: bool) {
    Between(p, pc, k) || (holds && Occupies(p, k))
  }

  predicate Between(p: Phase, pc: LP.Pc, k: Key) {
    match p
    case RemUnlock(r, ok) => r.key == k && ok
    case Wait(r) => r.key == k
    case AddTry(r, _) => r.key == k && !LP.Refused(pc, k)
    case AddGet(r, _) => r.key == k
    case AddPut(r, _, _, _) => r.key == k
    case _ => false
  }

  ghost predicate Covered(s: State, k: Key) {
    exists g: Gid :: Covers(s.At(g), s.lock.PcOf(g), k, (g, k) in s.lock.held)
  }

  /** The key is out of the theorem's scope: gone, never guarded, or hit by a failure other than contention. */
  predicate Excused(s: State, k: Key) {
    k !in s.store.objs || k in s.bare || k in s.failed
  }

  predicate Settled(s: State, k: Key) {
    HasHttps(s.store, k) || Excused(s, k)
  }

  /** After its own reinstatement, and until it gives the key back, a run sees the annotation in place. */
  predicate UnlockOk(s: State, p: Phase, holds: bool) {
    && (p.AddUnlock? && p.ok && holds ==> Settled(s, p.r.key))
    && (p.AddUnlock? && !p.ok ==> p.r.key in s.failed)
    && (p.RemUnlock? && !p.ok ==> p.r.key in s.failed)
  }

  predicate Holds(s: State, g: Gid) {
    KeyOf(s.At(g)).Some? && (g, KeyOf(s.At(g)).value) in s.lock.held
  }

  ghost predicate AnnotationsOk(s: State) {
    && (forall k :: Settled(s, k) || Covered(s, k))
    && (forall g: Gid :: UnlockOk(s, s.At(g), Holds(s, g)))
  }

  ghost predicate Inv(s: State) {
    LP.Inv(s.lock) && RunsOk(s) && CopiesOk(s) && AnnotationsOk(s)
  }
}
