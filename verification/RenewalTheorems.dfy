/** What the interleaved renewal runs guarantee in every reachable state, and what they do not. */
module RenewalTheorems {
  import opened GoStrings
  import LP = LockProtocol
  import LS = LockSolo
  import opened IngressStore
  import opened GoTime
  import opened Decimal
  import opened RenewalProtocol
  import opened RenewalProperties

  // ---- Stranding.

  /** Contention alone never strands an ingress. If the server's object lacks the HTTPS annotation although it had it
      when it was created, then some run is between its removal and its reinstatement, or an in-flight run holds the
      key, or some earlier run on it failed in a Get, an Update or a wait. */
  lemma {:induction false} NeverStrandedByContention(states: seq<State>, labels: seq<Label>, i: nat, k: Key)
    requires IsExecution(states, labels) && i < |states|
    requires k in states[i].store.objs && k !in states[i].bare && !IsBackendHttpsAnnotations(states[i].store.objs[k])
    ensures var s := states[i];
      || k in s.failed
      || exists g: Gid :: Between(s.At(g), s.lock.PcOf(g), k) || ((g, k) in s.lock.held && Occupies(s.At(g), k))
  {
    AlwaysInv(states, labels, i);
    var s := states[i];
    assert Settled(s, k) || Covered(s, k);
    if k !in s.failed {
      var g: Gid :| Covers(s.At(g), s.lock.PcOf(g), k, (g, k) in s.lock.held);
      assert Between(s.At(g), s.lock.PcOf(g), k) || ((g, k) in s.lock.held && Occupies(s.At(g), k));
    }
  }

  /** Once every run has returned and none failed on the key, the annotation is back. */
  lemma {:induction false} AnnotatedWhenQuiet(states: seq<State>, labels: seq<Label>, i: nat, k: Key)
    requires IsExecution(states, labels) && i < |states|
    requires forall g: Gid :: states[i].At(g).Off?
    requires k in states[i].store.objs && k !in states[i].bare && k !in states[i].failed
    ensures IsBackendHttpsAnnotations(states[i].store.objs[k])
  {
    if !IsBackendHttpsAnnotations(states[i].store.objs[k]) {
      NeverStrandedByContention(states, labels, i, k);
    }
  }

  /** A key counts as failed only through a Get, an Update or a wait of a run on that very key: a refused TryLock
      never adds to it. */
  lemma {:induction false} FailedOnlyByFailure(s: State, l: Label, k: Key)
    requires Apply(s, l).Some? && k in Apply(s, l).value.failed && k !in s.failed
    ensures (l.Fetch? || l.Push? || l.Polled?) && KeyOf(s.At(l.g)) == Some(k)
    ensures l.Fetch? ==> l.fault || k !in s.store.objs
    ensures l.Push? ==> Puts(s.At(l.g)) && (l.fault || !CanUpdate(s.store, Copy(s.At(l.g))))
    ensures l.Polled? ==> l.p.WaitFails?
  {}

  // ---- Lost updates.

  /** An accepted Update changes exactly the one annotation of the server's object as it was just before, whatever
      other writers had made of the rest, and leaves every other object alone. */
  lemma {:induction false} UpdateChangesOneAnnotation(s: State, g: Gid)
    requires Inv(s) && Puts(s.At(g)) && CanUpdate(s.store, Copy(s.At(g)))
    ensures var k := s.At(g).r.key;
      && PushStep(s, g, false).Some? && k in s.store.objs
      && PushStep(s, g, false).value.store.objs ==
           s.store.objs[k := (if s.At(g).RemPut? then WithoutBackend(s.store.objs[k])
                              else WithHttps(s.store.objs[k])).(version := s.store.rev + 1)]
  {
    assert CopyOk(s.At(g), s.store, s.outside);
    OwnOf(s, g);
    hide Inv, Own;
  }

  /** Between its Get and its Update a run loses the version race exactly to a writer outside this process. */
  lemma {:induction false} ConflictExactlyFromOutside(s: State, g: Gid)
    requires Inv(s) && Puts(s.At(g))
    ensures CanUpdate(s.store, Copy(s.At(g))) <==> LastOutside(s.outside, s.At(g).r.key) <= s.At(g).at
  {}

  /** The revision recorded for a key moves only on a write by somebody else. */
  lemma {:induction false} OutsideMeansOutside(s: State, l: Label)
    requires Apply(s, l).Some? && Apply(s, l).value.outside != s.outside
    ensures l.Outside?
  {}

  /** From its own reinstatement until it gives the key back, a run sees the annotation in place. */
  lemma {:induction false} ReinstatedUntilReleased(s: State, g: Gid, k: Key)
    requires Inv(s) && s.At(g).AddUnlock? && s.At(g).ok && s.At(g).r.key == k && (g, k) in s.lock.held
    requires k in s.store.objs && k !in s.bare && k !in s.failed
    ensures IsBackendHttpsAnnotations(s.store.objs[k])
  {}

  // ---- The lock as the runs use it.

  /** The lock transition that a step makes, if any. */
  function LockLabel(s: State, l: Label): Option<LP.Label> {
    match l
    case Outside(_) => None
    case LockRun(g) => Some(LP.Run(g))
    case AskGate(g, k) => Some(LP.Call(g, LP.IsLocked, k))
    case Answer(g) => Some(LP.Return(g))
    case Start(g, r) => Some(LP.Call(g, LP.TryLock, r.key))
    case Entered(g) => Some(LP.Return(g))
    case Fetch(_, _) => None
    case Push(g, _) => if KeyOf(s.At(g)).Some? then Some(LP.Call(g, LP.Unlock, KeyOf(s.At(g)).value)) else None
    case Released(g) => Some(LP.Return(g))
    case Polled(g, p) =>
      if p.WaitEnds? && KeyOf(s.At(g)).Some? then Some(LP.Call(g, LP.TryLock, KeyOf(s.At(g)).value)) else None
  }

  /** The runs keep the discipline of the lock: each step is a lock transition in which only a holder unlocks, so
      every theorem about disciplined executions applies to the lock of this process. */
  lemma {:induction false} RunsAreDisciplined(s: State, l: Label)
    requires Inv(s) && Apply(s, l).Some?
    ensures match LockLabel(s, l)
            case None => Apply(s, l).value.lock == s.lock
            case Some(ll) => LP.Disciplined(s.lock, ll) && LP.Apply(s.lock, ll) == Some(Apply(s, l).value.lock)
  {
    if l.Push? {
      assert Puts(s.At(l.g));
      OwnOf(s, l.g);
    }
    hide Inv, LP.Inv;
  }

  /** When no run is inside a critical section, a key is held exactly if some Get under it failed. */
  lemma {:induction false} HeldExactlyWhenLeaked(states: seq<State>, labels: seq<Label>, i: nat, k: Key)
    requires IsExecution(states, labels) && i < |states|
    requires forall g: Gid :: !Occupies(states[i].At(g), k)
    ensures LP.Held(states[i].lock, k) <==> exists g: Gid :: (g, k) in states[i].leaked
  {
    AlwaysInv(states, labels, i);
    var s := states[i];
    if LP.Held(s.lock, k) {
      var g: Gid :| (g, k) in s.lock.held;
      assert HeldOk(g, k, s.At(g), s.lock.PcOf(g), s.leaked);
    }
    if g: Gid :| (g, k) in s.leaked {
      assert LeakOk(g, k, s.At(g), s.lock.PcOf(g), s.lock.held, s.failed);
    }
  }

  lemma {:induction false} LeaksStay(s: State, l: Label)
    requires Apply(s, l).Some?
    ensures s.leaked <= Apply(s, l).value.leaked
  {}

  /** Between a successful TryLock and the call of Unlock. */
  predicate Working(p: Phase, k: Key) {
    (p.RemGet? || p.RemPut? || p.AddGet? || p.AddPut?) && p.r.key == k
  }

  /** A leaked key is locked for good: from the failed Get on it stays held, and no run ever gets past its TryLock
      on that key again. */
  lemma {:induction false} LeakedForever(states: seq<State>, labels: seq<Label>, i: nat, j: nat, g: Gid, k: Key)
    requires IsExecution(states, labels) && i <= j < |states| && (g, k) in states[i].leaked
    ensures LP.Held(states[j].lock, k) && forall h: Gid :: !Working(states[j].At(h), k)
  {
    LeakedStays(states, labels, i, j, g, k);
    AlwaysInv(states, labels, j);
    var s := states[j];
    assert LeakOk(g, k, s.At(g), s.lock.PcOf(g), s.lock.held, s.failed);
    OnlyHolder(s, g, k);
    forall h: Gid ensures !Working(s.At(h), k) {
      OwnOf(s, h);
    }
  }

  lemma {:induction false} LeakedStays(states: seq<State>, labels: seq<Label>, i: nat, j: nat, g: Gid, k: Key)
    requires IsExecution(states, labels) && i <= j < |states| && (g, k) in states[i].leaked
    ensures (g, k) in states[j].leaked
    decreases j
  {
    if i < j {
      LeakedStays(states, labels, i, j - 1, g, k);
      assert Apply(states[j - 1], labels[j - 1]) == Some(states[j]);
      LeaksStay(states[j - 1], labels[j - 1]);
    }
  }

  // ---- Metrics.

  /** Runs whose removal reached the server and whose wait is not over. */
  predicate AwaitsDuration(p: Phase) {
    p.Wait? || (p.RemUnlock? && p.ok)
  }

  /** Runs whose duration was observed and that have not returned. */
  predicate AwaitsReturn(p: Phase) {
    p.AddTry? || p.AddGet? || p.AddPut? || p.AddUnlock?
  }

  ghost function InFlight(phases: map<Gid, Phase>, stage: Phase -> bool): set<Gid> {
    set g | g in phases && stage(phases[g])
  }

  /** Nothing is lost: each successful removal is waiting, observed or failed in its wait, and each observed duration
      is still in flight, counted as a renewal, late or timed out, or failed in its reinstatement. */
  ghost predicate MetricsOk(s: State) {
    var m := s.metrics;
    && m.removals == m.durations + m.waitFailures + |InFlight(s.phases, AwaitsDuration)|
    && m.durations == m.renewals + m.uncounted + m.addFailures + |InFlight(s.phases, AwaitsReturn)|
  }

  lemma {:induction false} InFlightMoves(phases: map<Gid, Phase>, g: Gid, p: Phase, stage: Phase -> bool)
    requires !stage(Off)
    ensures |InFlight(phases[g := p], stage)|
         == |InFlight(phases, stage)| + One(stage(p)) - One(stage(if g in phases then phases[g] else Off))
  {
    var a, b := InFlight(phases, stage), InFlight(phases[g := p], stage);
    assert b == if stage(p) then a + {g} else a - {g};
  }

  /** What a step of `g` does to the phases. */
  function Mover(l: Label): Option<Gid> {
    match l
    case Outside(_) => None
    case LockRun(_) => None
    case _ => Some(l.g)
  }

  lemma {:induction false} MoverPhases(s: State, l: Label)
    requires Apply(s, l).Some?
    ensures match Mover(l)
            case None => Apply(s, l).value.phases == s.phases && Apply(s, l).value.metrics == s.metrics
            case Some(g) => Apply(s, l).value.phases == s.phases[g := Apply(s, l).value.At(g)]
  {}

  lemma {:induction false} MetricsStep(s: State, l: Label)
    requires MetricsOk(s) && Apply(s, l).Some?
    ensures MetricsOk(Apply(s, l).value)
  {
    var s' := Apply(s, l).value;
    MoverPhases(s, l);
    if Mover(l).Some? {
      MetricsDelta(s, l);
      hide Apply, Mover, InFlight, AwaitsDuration, AwaitsReturn;
      InFlightMoves(s.phases, l.g, s'.At(l.g), AwaitsDuration);
      InFlightMoves(s.phases, l.g, s'.At(l.g), AwaitsReturn);
    }
  }

  function One(b: bool): int {
    if b then 1 else 0
  }

  lemma {:induction false} MetricsDelta(s: State, l: Label)
    requires Apply(s, l).Some? && Mover(l).Some?
    ensures var p, p', m, m' := s.At(l.g), Apply(s, l).value.At(l.g), s.metrics, Apply(s, l).value.metrics;
      && m'.removals - m.removals == (m'.durations - m.durations) + (m'.waitFailures - m.waitFailures)
           + One(AwaitsDuration(p')) - One(AwaitsDuration(p))
      && m'.durations - m.durations == (m'.renewals - m.renewals) + (m'.uncounted - m.uncounted)
           + (m'.addFailures - m.addFailures) + One(AwaitsReturn(p')) - One(AwaitsReturn(p))
  {}

  /** Renewals counted <= durations observed <= successful removals, with the exact differences. */
  lemma {:induction false} MetricsConserved(states: seq<State>, labels: seq<Label>, i: nat)
    requires IsExecution(states, labels) && i < |states|
    ensures MetricsOk(states[i])
    ensures states[i].metrics.renewals <= states[i].metrics.durations <= states[i].metrics.removals
  {
    if i == 0 {
      assert InFlight(states[0].phases, AwaitsDuration) == {} && InFlight(states[0].phases, AwaitsReturn) == {};
    } else {
      MetricsConserved(states, labels, i - 1);
      assert Apply(states[i - 1], labels[i - 1]) == Some(states[i]);
      MetricsStep(states[i - 1], labels[i - 1]);
    }
  }

  /** Of all steps exactly one kind is counted as a renewal: a run that returns after its own successful reinstatement,
      with a wait that took no longer than the timeout. For a timeout that can be doubled it is then also reported as
      renewed. */
  lemma {:induction false} CountedAfterReinstating(s: State, l: Label)
    requires Apply(s, l).Some?
    ensures var next := Apply(s, l).value;
      next.metrics.renewals == s.metrics.renewals +
        if l.Released? && s.At(l.g).AddUnlock? && s.At(l.g).ok && s.At(l.g).successTime <= s.At(l.g).r.timeout
        then 1 else 0
    ensures Apply(s, l).value.metrics.renewals != s.metrics.renewals ==> Apply(s, l).value.At(l.g).Off?
    ensures Apply(s, l).value.metrics.renewals != s.metrics.renewals
            && PositiveInt(s.At(l.g).r.timeout) && 2 * s.At(l.g).r.timeout <= MAX_INT64 ==>
              OperatorRenewed(s.At(l.g).r.timeout, s.At(l.g).successTime)
  {}

  // ---- What a failure does: the excuses of `NeverStrandedByContention` are needed.

  /** Some execution leads from `s` to `s'` in which only goroutine 0 starts runs, and only on `k`. */
  ghost predicate Reaches(s: State, s': State, k: Key) {
    exists states, labels :: LeadsTo(states, labels, s, s', k)
  }

  ghost predicate LeadsTo(states: seq<State>, labels: seq<Label>, s: State, s': State, k: Key) {
    && IsExecution(states, labels) && states[0] == s && states[|labels|] == s'
    && forall i | 0 <= i < |labels| :: StartsOn(labels[i], k)
  }

  predicate StartsOn(l: Label, k: Key) {
    l.Start? ==> l.g == 0 && l.r.key == k
  }

  lemma {:induction false} ReachesMore(s: State, s': State, l: Label, k: Key)
    requires Reaches(s, s', k) && Apply(s', l).Some? && StartsOn(l, k)
    ensures Reaches(s, Apply(s', l).value, k)
  {
    var next := Apply(s', l).value;
    assert Apply(s', l) == Some(next);
    hide Apply, LeadsTo, StartsOn;
    var states, labels :| LeadsTo(states, labels, s, s', k);
    LeadsFurther(states, labels, s, s', l, next, k);
  }

  lemma {:induction false} LeadsFurther(states: seq<State>, labels: seq<Label>, s: State, s': State, l: Label,
                                        next: State, k: Key)
    requires LeadsTo(states, labels, s, s', k) && Apply(s', l) == Some(next) && StartsOn(l, k)
    ensures LeadsTo(states + [next], labels + [l], s, next, k)
  {
    hide Apply, StartsOn;
  }

  /** Nobody else moves while `g` is inside a lock call. */
  lemma {:induction false} LockAlone(r: State, s: State, k: Key, g: Gid, fuel: nat)
    requires Reaches(r, s, k)
    ensures Reaches(r, s.(lock := LS.RunAlone(s.lock, g, fuel)), k)
    decreases fuel
  {
    hide Reaches, LP.Advance;
    if fuel == 0 || LP.Advance(s.lock, g).None? {
      assert s.(lock := LS.RunAlone(s.lock, g, fuel)) == s;
    } else {
      var s' := s.(lock := LP.Advance(s.lock, g).value);
      assert Apply(s, LockRun(g)) == Some(s');
      ReachesMore(r, s, LockRun(g), k);
      LockAlone(r, s', k, g, fuel - 1);
    }
  }

  /** A whole lock call by `g`, with nobody else moving. */
  lemma {:induction false} CallAlone(r: State, s: State, lock: LP.State, g: Gid, op: LP.Op, k: Key)
    requires Reaches(r, s, k) && s.lock == lock.Goto(g, LP.WantMu(op, k))
    ensures Reaches(r, s.(lock := LS.Solo(lock, g, op, k)), k)
  {
    LockAlone(r, s, k, g, LS.LONGEST_CALL);
  }

  /** A server that holds a guarded ingress under `k`, before any run. */
  ghost predicate Fresh(s: State, k: Key) {
    Initial(s) && k in s.store.objs && IsBackendHttpsAnnotations(s.store.objs[k])
  }

  /** Goroutine 0 is alone on `k` in phase `p`, between lock calls. */
  ghost predicate Alone(s: State, k: Key, p: Phase, taken: bool) {
    && s.phases == map[0 := p] && s.lock.mu.None? && s.lock.pcs == map[0 := LP.Idle]
    && s.lock.locks == map[k := 0] && s.lock.heap == [if taken then LS.TAKEN else LS.FREE]
    && k in s.store.objs && k !in s.bare
  }

  lemma {:induction false} AcquireAlone(r: State, run: Run) returns (s: State)
    requires Fresh(r, run.key)
    ensures Reaches(r, s, run.key) && Alone(s, run.key, RemGet(run), true)
    ensures s.store == r.store && s.leaked == {} && s.failed == {} && s.metrics.renewals == 0
  {
    var k := run.key;
    var none: seq<Label> := [];
    assert LeadsTo([r], none, r, r, k);
    hide LS.RunAlone, LP.Advance, LS.Solo, Reaches;
    var s1 := Apply(r, Start(0, run)).value;
    ReachesMore(r, r, Start(0, run), run.key);
    CallAlone(r, s1, r.lock, 0, LP.TryLock, k);
    LS.AcquireNew(r.lock, 0, LP.TryLock, k);
    var s2 := s1.(lock := LS.Solo(r.lock, 0, LP.TryLock, k));
    assert s2.lock.PcOf(0) == LP.Done(LP.TryLock, k, true);
    s := Apply(s2, Entered(0)).value;
    ReachesMore(r, s2, Entered(0), run.key);
    assert s.lock.pcs == map[0 := LP.Idle];
  }

  /** The same ingress under another version. */
  predicate IsNow(now: Ingress, was: Ingress) {
    now == was.(version := now.version)
  }

  /** The removal reaches the server, and the deferred Unlock is called. */
  lemma {:induction false} PushAlone(r: State, s: State, run: Run) returns (s': State)
    requires Reaches(r, s, run.key) && Alone(s, run.key, RemGet(run), true) && StoreOk(s.store) && s.leaked == {}
    ensures Reaches(r, s', run.key) && s'.lock == s.lock.Goto(0, LP.WantMu(LP.Unlock, run.key))
    ensures s'.phases == map[0 := RemUnlock(run, true)] && s'.leaked == {} && s'.bare == s.bare
    ensures s'.failed == s.failed && s'.metrics.renewals == s.metrics.renewals && StoreOk(s'.store)
    ensures run.key in s'.store.objs && IsNow(s'.store.objs[run.key], WithoutBackend(s.store.objs[run.key]))
  {
    hide Reaches, LP.Advance, PollStep, EnterStep, ReleaseStep, OutsideStep, IsBackendHttpsAnnotations;
    var s1 := Apply(s, Fetch(0, false)).value;
    ReachesMore(r, s, Fetch(0, false), run.key);
    s' := Apply(s1, Push(0, false)).value;
    ReachesMore(r, s1, Push(0, false), run.key);
  }

  lemma {:induction false} StripAlone(r: State, s: State, run: Run) returns (s': State)
    requires Reaches(r, s, run.key) && Alone(s, run.key, RemGet(run), true) && StoreOk(s.store) && s.leaked == {}
    ensures Reaches(r, s', run.key) && Alone(s', run.key, Wait(run), false) && s'.leaked == {}
    ensures s'.failed == s.failed && s'.metrics.renewals == s.metrics.renewals && StoreOk(s'.store)
    ensures IsNow(s'.store.objs[run.key], WithoutBackend(s.store.objs[run.key]))
  {
    var k := run.key;
    hide LS.RunAlone, LP.Advance, LS.Solo, Reaches;
    var s2 := PushAlone(r, s, run);
    CallAlone(r, s2, s.lock, 0, LP.Unlock, k);
    LS.ReleaseTaken(s.lock, 0, k);
    var s3 := s2.(lock := LS.Solo(s.lock, 0, LP.Unlock, k));
    assert s3.lock.PcOf(0) == LP.Done(LP.Unlock, k, true);
    s' := Apply(s3, Released(0)).value;
    ReachesMore(r, s3, Released(0), run.key);
    assert s'.lock.pcs == map[0 := LP.Idle];
  }

  /** The wait ends as it may. */
  lemma {:induction false} ReacquireAlone(r: State, s: State, run: Run, t: int) returns (s': State)
    requires Reaches(r, s, run.key) && Alone(s, run.key, Wait(run), false) && CanEnd(s, run, t)
    ensures Reaches(r, s', run.key) && Alone(s', run.key, AddGet(run, t), true)
    ensures s'.store == s.store && s'.leaked == s.leaked && s'.failed == s.failed
    ensures s'.metrics.renewals == s.metrics.renewals
  {
    var k := run.key;
    hide LS.RunAlone, LP.Advance, LS.Solo, Reaches, CanEnd;
    var s1 := Apply(s, Polled(0, WaitEnds(t))).value;
    ReachesMore(r, s, Polled(0, WaitEnds(t)), run.key);
    CallAlone(r, s1, s.lock, 0, LP.TryLock, k);
    LS.AcquireExisting(s.lock, 0, LP.TryLock, k);
    var s2 := s1.(lock := LS.Solo(s.lock, 0, LP.TryLock, k));
    assert s2.lock.PcOf(0) == LP.Done(LP.TryLock, k, true);
    s' := Apply(s2, Entered(0)).value;
    ReachesMore(r, s2, Entered(0), run.key);
    assert s'.lock.pcs == map[0 := LP.Idle];
  }

  /** The reinstatement reaches the server, and the deferred Unlock is called. */
  lemma {:induction false} PutBackAlone(r: State, s: State, run: Run, t: int) returns (s': State)
    requires Reaches(r, s, run.key) && Alone(s, run.key, AddGet(run, t), true) && StoreOk(s.store) && s.leaked == {}
    ensures Reaches(r, s', run.key) && s'.lock == s.lock.Goto(0, LP.WantMu(LP.Unlock, run.key))
    ensures s'.phases == map[0 := AddUnlock(run, t, true)] && s'.leaked == {} && s'.failed == s.failed
    ensures s'.metrics.renewals == s.metrics.renewals && run.key in s'.store.objs
    ensures IsNow(s'.store.objs[run.key], WithHttps(s.store.objs[run.key]))
  {
    hide Reaches, LP.Advance, PollStep, EnterStep, ReleaseStep, OutsideStep, IsBackendHttpsAnnotations;
    var s1 := Apply(s, Fetch(0, false)).value;
    ReachesMore(r, s, Fetch(0, false), run.key);
    s' := Apply(s1, Push(0, false)).value;
    ReachesMore(r, s1, Push(0, false), run.key);
  }

  /** A run that nobody disturbs is completed, whatever its wait may return, and leaves the ingress as it was. It is
      counted exactly if the wait took no longer than the timeout. So what the theorems say of runs is not said of
      nothing. */
  lemma {:induction false} UndisturbedRunCompletes(r: State, run: Run, t: int) returns (s: State)
    requires Fresh(r, run.key)
    requires t == Sentinel(run.timeout)
             || (0 <= t <= MAX_INT64 && ScanRules(r.store.objs[run.key].rules).Absent?)
    ensures Reaches(r, s, run.key) && (forall g: Gid :: s.At(g).Off?) && s.leaked == {} && s.failed == {}
    ensures run.key in s.store.objs && IsNow(s.store.objs[run.key], r.store.objs[run.key])
    ensures s.metrics.renewals == if t <= run.timeout then 1 else 0
  {
    var k := run.key;
    hide Reaches, Sentinel;
    var a := AcquireAlone(r, run);
    var w := StripAlone(r, a, run);
    var g := ReacquireAlone(r, w, run, t);
    var u := PutBackAlone(r, g, run, t);
    RestoresExactlyGuarded(r.store.objs[k]);
    s := ReturnAlone(r, u, g.lock, run, t);
  }

  /** The deferred Unlock returns, and with it the run. */
  lemma {:induction false} ReturnAlone(r: State, u: State, lock: LP.State, run: Run, t: int) returns (s: State)
    requires Reaches(r, u, run.key) && u.lock == lock.Goto(0, LP.WantMu(LP.Unlock, run.key))
    requires u.phases == map[0 := AddUnlock(run, t, true)]
    requires lock.mu.None? && lock.pcs == map[0 := LP.Idle]
    requires lock.locks == map[run.key := 0] && lock.heap == [LS.TAKEN]
    ensures Reaches(r, s, run.key) && (forall g: Gid :: s.At(g).Off?)
    ensures s.store == u.store && s.leaked == u.leaked && s.failed == u.failed
    ensures s.metrics.renewals == u.metrics.renewals + if t <= run.timeout then 1 else 0
  {
    var k := run.key;
    hide LS.RunAlone, LP.Advance, LS.Solo, Reaches;
    CallAlone(r, u, lock, 0, LP.Unlock, k);
    LS.ReleaseTaken(lock, 0, k);
    var d := u.(lock := LS.Solo(lock, 0, LP.Unlock, k));
    assert d.lock.PcOf(0) == LP.Done(LP.Unlock, k, true);
    s := Apply(d, Released(0)).value;
    ReachesMore(r, d, Released(0), k);
  }

  /** A failed wait returns without putting the annotation back: every goroutine is idle and nothing is leaked, yet
      the ingress is left without it. This can happen to every ingress. */
  lemma {:induction false} FailedWaitStrands(r: State, run: Run) returns (s: State)
    requires Fresh(r, run.key)
    ensures Reaches(r, s, run.key) && (forall g: Gid :: s.At(g).Off?) && s.leaked == {}
    ensures run.key in s.store.objs && run.key !in s.bare && !IsBackendHttpsAnnotations(s.store.objs[run.key])
  {
    var a := AcquireAlone(r, run);
    var w := StripAlone(r, a, run);
    hide Reaches;
    s := Apply(w, Polled(0, WaitFails)).value;
    ReachesMore(r, w, Polled(0, WaitFails), run.key);
  }

  /** A failed Get in the reinstatement strands the ingress and leaks its key; by `LeakedForever` no later run can
      repair it. This too can happen to every ingress. */
  lemma {:induction false} FailedGetStrandsForever(r: State, run: Run) returns (s: State)
    requires Fresh(r, run.key)
    ensures Reaches(r, s, run.key) && (forall g: Gid :: s.At(g).Off?) && (0, run.key) in s.leaked
    ensures run.key in s.store.objs && run.key !in s.bare && !IsBackendHttpsAnnotations(s.store.objs[run.key])
  {
    var a := AcquireAlone(r, run);
    var w := StripAlone(r, a, run);
    var g := ReacquireAlone(r, w, run, Sentinel(run.timeout));
    hide Reaches;
    s := Apply(g, Fetch(0, true)).value;
    ReachesMore(r, g, Fetch(0, true), run.key);
  }
}
