/** The invariant of the interleaved renewal runs is kept by every step. */
module RenewalProperties {
  import opened GoStrings
  import LP = LockProtocol
  import LQ = LockProperties
  import LT = LockTheorems
  import opened IngressStore
  import opened RenewalProtocol

  /** Goroutine `g` made the step: everybody else stands where they stood, with what they held. */
  ghost predicate OnlyMoves(s: State, s': State, g: Gid) {
    forall h: Gid | h != g ::
      && s'.At(h) == s.At(h) && s'.lock.PcOf(h) == s.lock.PcOf(h)
      && forall k ::
        ((h, k) in s'.lock.held <==> (h, k) in s.lock.held) && ((h, k) in s'.leaked <==> (h, k) in s.leaked)
  }

  ghost predicate Own(g: Gid, p: Phase, pc: LP.Pc, held: set<(Gid, Key)>, leaked: set<(Gid, Key)>, failed: set<Key>) {
    && LinkOk(g, p, pc, held)
    && (forall k | (g, k) in held :: HeldOk(g, k, p, pc, leaked))
    && (forall k | (g, k) in leaked :: LeakOk(g, k, p, pc, held, failed))
  }

  ghost predicate OwnOk(s: State, g: Gid) {
    Own(g, s.At(g), s.lock.PcOf(g), s.lock.held, s.leaked, s.failed)
  }

  lemma {:induction false} RunsCarryOver(s: State, s': State, g: Gid)
    requires RunsOk(s) && OnlyMoves(s, s', g) && s.failed <= s'.failed && OwnOk(s', g)
    ensures RunsOk(s')
  {}

  /** A key stays looked after when whoever moved hands over what it covered. */
  lemma {:induction false} CoverCarriesOver(s: State, s': State, g: Gid, k: Key)
    requires OnlyMoves(s, s', g) && (Settled(s, k) || Covered(s, k))
    requires Settled(s, k) || Covers(s.At(g), s.lock.PcOf(g), k, (g, k) in s.lock.held) ==>
               Settled(s', k) || Covered(s', k)
    ensures Settled(s', k) || Covered(s', k)
  {}

  lemma {:induction false} UnlocksCarryOver(s: State, s': State, g: Gid)
    requires AnnotationsOk(s) && OnlyMoves(s, s', g) && s.failed <= s'.failed
    requires UnlockOk(s', s'.At(g), Holds(s', g))
    requires forall h: Gid, k | h != g && (h, k) in s.lock.held && Settled(s, k) :: Settled(s', k)
    ensures forall h: Gid :: UnlockOk(s', s'.At(h), Holds(s', h))
  {}

  /** Another goroutine than the holder itself cannot hold the key. */
  lemma {:induction false} Exclusive(s: State, g: Gid, h: Gid, k: Key)
    requires LP.Inv(s.lock) && (g, k) in s.lock.held && (h, k) in s.lock.held
    ensures g == h
  {}

  predicate CoversKey(s: State, g: Gid, k: Key) {
    Covers(s.At(g), s.lock.PcOf(g), k, (g, k) in s.lock.held)
  }

  /** A step of `g` on its key `key` keeps the invariant when it keeps it for `g` and for that key. */
  lemma {:induction false} StepInv(s: State, s': State, g: Gid, key: Key)
    requires Inv(s) && LP.Inv(s'.lock) && CopiesOk(s')
    requires OnlyMoves(s, s', g) && OwnOk(s', g) && s.failed <= s'.failed
    requires KeyOf(s.At(g)).Some? ==> KeyOf(s.At(g)).value == key
    requires forall k | k != key && Settled(s, k) :: Settled(s', k)
    requires Settled(s, key) || CoversKey(s, g, key) ==> Settled(s', key) || Covered(s', key)
    requires forall h: Gid | h != g && (h, key) in s.lock.held && Settled(s, key) :: Settled(s', key)
    requires UnlockOk(s', s'.At(g), Holds(s', g))
    ensures Inv(s')
  {
    RunsCarryOver(s, s', g);
    forall k ensures Settled(s', k) || Covered(s', k) {
      assert k != key ==> !CoversKey(s, g, k);
      hide Inv, RunsOk, CopiesOk, OwnOk, OnlyMoves, Settled, Covers, Covered;
      CoverCarriesOver(s, s', g, k);
    }
    UnlocksCarryOver(s, s', g);
  }

  // ---- A write by somebody else.

  lemma {:induction false} OutsideCopies(s: State, e: Edit)
    requires CopiesOk(s)
    ensures CopiesOk(OutsideStep(s, e))
  {
    var s' := OutsideStep(s, e);
    if Takes(s.store, e) {
      forall k ensures LastOutside(s'.outside, k) <= s'.store.rev {
        assert LastOutside(s.outside, k) <= s.store.rev;
      }
      forall g: Gid ensures CopyOk(s'.At(g), s'.store, s'.outside) {
        assert CopyOk(s.At(g), s.store, s.outside);
      }
    }
  }

  lemma {:induction false} OutsideSettled(s: State, e: Edit, k: Key)
    requires Settled(s, k)
    ensures Settled(OutsideStep(s, e), k)
  {}

  lemma {:induction false} OutsideInv(s: State, e: Edit)
    requires Inv(s)
    ensures Inv(OutsideStep(s, e))
  {
    var s' := OutsideStep(s, e);
    OutsideCopies(s, e);
    forall k ensures Settled(s, k) ==> Settled(s', k) {
      if Settled(s, k) { OutsideSettled(s, e, k); }
    }
    assert RunsOk(s');
    assert s'.lock == s.lock && s'.failed == s.failed && s'.phases == s.phases && s'.leaked == s.leaked;
    hide RunsOk, CopiesOk, LP.Inv, OutsideStep, Settled, Covered, Covers;
    assert OnlyMoves(s, s', 0);
    forall k ensures Settled(s', k) || Covered(s', k) {
      assert CoversKey(s, 0, k) == CoversKey(s', 0, k);
      SameCover(s, s', k);
    }
    UnlocksCarryOver(s, s', 0);
  }

  lemma {:induction false} SameCover(s: State, s': State, k: Key)
    requires s'.lock == s.lock && s'.phases == s.phases
    ensures Covered(s', k) == Covered(s, k)
  {}

  // ---- One transition inside a lock call.

  lemma {:induction false} RunKeepsOwn(
      g: Gid, p: Phase, pc: LP.Pc, pc': LP.Pc, held: set<(Gid, Key)>, held': set<(Gid, Key)>, taken: bool,
      leaked: set<(Gid, Key)>, failed: set<Key>)
    requires Own(g, p, pc, held, leaked, failed)
    requires LP.OpOf(pc).Some? && !pc.Done? && LP.InCall(pc', LP.OpOf(pc).value, pc.n)
    requires (g, pc.n) in held ==> taken
    requires LP.Acquired(pc', pc.n) <==> LP.Acquired(pc, pc.n) || (pc.Receive? && !taken)
    requires held' == if pc.Receive? && !taken then held + {(g, pc.n)}
                      else if pc.Send? then held - {(g, pc.n)} else held
    requires pc'.Done? && LP.OpOf(pc).value.Unlock? ==> pc.Send?
    requires pc.Receive? ==> !LP.OpOf(pc).value.Unlock?
    requires LP.OpOf(pc).value.IsLocked? ==> !pc.Receive?
    requires pc.Send? ==> pc'.Done?
    ensures Own(g, p, pc', held', leaked, failed)
  {
    assert p.Gate? || p.RemTry? || p.AddTry? || p.RemUnlock? || p.AddUnlock?;
    assert KeyOf(p) == Some(pc.n);
    forall k | (g, k) in held' ensures HeldOk(g, k, p, pc', leaked) {
      if (g, k) in held { assert HeldOk(g, k, p, pc, leaked); }
    }
    forall k | (g, k) in leaked ensures LeakOk(g, k, p, pc', held', failed) {
      assert LeakOk(g, k, p, pc, held, failed);
    }
  }

  lemma {:induction false} LockRunFrame(s: State, g: Gid)
    requires LP.Inv(s.lock) && LP.Advance(s.lock, g).Some?
    ensures OnlyMoves(s, s.(lock := LP.Advance(s.lock, g).value), g)
  {
    LT.RunSummary(s.lock, g);
    hide LP.Inv, LP.Advance, LP.Held;
  }

  lemma {:induction false} LockRunOwn(s: State, g: Gid)
    requires LP.Inv(s.lock) && OwnOk(s, g) && LP.Advance(s.lock, g).Some?
    ensures OwnOk(s.(lock := LP.Advance(s.lock, g).value), g)
  {
    LT.RunSummary(s.lock, g);
    var pc, lock' := s.lock.PcOf(g), LP.Advance(s.lock, g).value;
    var taken, pc' := LP.Held(s.lock, pc.n), lock'.PcOf(g);
    assert LP.ShapeOk(pc);
    assert (g, pc.n) in s.lock.held ==> taken;
    assert pc.Receive? ==> !LP.OpOf(pc).value.IsLocked?;
    hide LP.Inv, LP.Advance, LP.Held, Own, LP.ShapeOk;
    RunKeepsOwn(g, s.At(g), pc, pc', s.lock.held, lock'.held, taken, s.leaked, s.failed);
  }

  /** A refused TryLock hands its ingress over: whoever held the key at that instant is in flight, or has failed. */
  lemma {:induction false} RefusalHandsOver(s: State, s': State, g: Gid, k: Key)
    requires LP.Inv(s.lock) && RunsOk(s) && OnlyMoves(s, s', g) && s'.failed == s.failed && s'.bare == s.bare
    requires s.At(g).AddTry? && s.At(g).r.key == k && !LP.Acquired(s.lock.PcOf(g), k)
    requires LP.Held(s.lock, k)
    ensures k in s'.failed || Covered(s', k)
  {}

  lemma {:induction false} LockRunCover(s: State, g: Gid, k: Key)
    requires LP.Inv(s.lock) && RunsOk(s) && LP.Advance(s.lock, g).Some? && s.lock.PcOf(g).n == k
    requires UnlockOk(s, s.At(g), Holds(s, g)) && CoversKey(s, g, k)
    ensures var s' := s.(lock := LP.Advance(s.lock, g).value); Settled(s', k) || Covered(s', k)
  {
    LT.RunSummary(s.lock, g);
    LockRunFrame(s, g);
    var s' := s.(lock := LP.Advance(s.lock, g).value);
    var pc, p := s.lock.PcOf(g), s.At(g);
    assert LinkOk(g, p, pc, s.lock.held);
    if LP.Refused(s'.lock.PcOf(g), k) && !LP.Refused(pc, k) && p.AddTry? {
      assert !LP.Acquired(pc, k);
      RefusalHandsOver(s, s', g, k);
    } else if !CoversKey(s', g, k) {
      hide LP.Inv, LP.Advance, RunsOk, LP.Held;
      assert Settled(s, k);
      assert Settled(s', k);
    } else {
      assert Covered(s', k);
    }
  }

  lemma {:induction false} OwnOf(s: State, g: Gid)
    requires RunsOk(s)
    ensures OwnOk(s, g) && LinkOk(g, s.At(g), s.lock.PcOf(g), s.lock.held)
  {}

  lemma {:induction false} OnlyLockChanged(s: State, lock: LP.State)
    requires CopiesOk(s)
    ensures CopiesOk(s.(lock := lock)) && forall m :: Settled(s.(lock := lock), m) == Settled(s, m)
  {
    assert forall g: Gid :: s.(lock := lock).At(g) == s.At(g);
  }

  lemma {:induction false} LockRunInv(s: State, g: Gid)
    requires Inv(s) && LP.Advance(s.lock, g).Some?
    ensures Inv(s.(lock := LP.Advance(s.lock, g).value))
  {
    var lock := LP.Advance(s.lock, g).value;
    var s' := s.(lock := lock);
    var k := s.lock.PcOf(g).n;
    assert UnlockOk(s, s.At(g), Holds(s, g));
    hide LP.Inv, LP.Advance, RunsOk, CopiesOk, AnnotationsOk, Own, OnlyMoves, UnlockOk, Settled, Covers, Covered;
    OwnOf(s, g);
    LQ.AdvanceInv(s.lock, g);
    LockRunFrame(s, g);
    LockRunOwn(s, g);
    OnlyLockChanged(s, lock);
    LockRunStillHolds(s, g);
    if CoversKey(s, g, k) { LockRunCover(s, g, k); }
    LockRunKey(s, g);
    StepInv(s, s', g, k);
  }

  lemma {:induction false} LockRunKey(s: State, g: Gid)
    requires LP.Advance(s.lock, g).Some? && LinkOk(g, s.At(g), s.lock.PcOf(g), s.lock.held)
    ensures KeyOf(s.At(g)) == Some(s.lock.PcOf(g).n)
  {}

  lemma {:induction false} LockRunStillHolds(s: State, g: Gid)
    requires LP.Inv(s.lock) && OwnOk(s, g) && LP.Advance(s.lock, g).Some? && UnlockOk(s, s.At(g), Holds(s, g))
    ensures var s' := s.(lock := LP.Advance(s.lock, g).value); UnlockOk(s', s'.At(g), Holds(s', g))
  {
    LT.RunSummary(s.lock, g);
    assert LinkOk(g, s.At(g), s.lock.PcOf(g), s.lock.held);
    hide LP.Inv, LP.Advance, LP.Held;
  }

  // ---- Calls and returns.

  lemma {:induction false} CallFrame(lock: LP.State, g: Gid, op: LP.Op, k: Key)
    requires LP.Inv(lock) && lock.PcOf(g).Idle? && (op.Unlock? ==> (g, k) in lock.held)
    ensures var lock' := lock.Goto(g, LP.WantMu(op, k));
      && LP.Apply(lock, LP.Call(g, op, k)) == Some(lock') && LP.Inv(lock') && LQ.OnlyMoves(lock, lock', g)
      && lock'.PcOf(g) == LP.WantMu(op, k) && lock'.held == lock.held
  {
    LQ.ApplyInv(lock, LP.Call(g, op, k));
  }

  lemma {:induction false} ReturnFrame(lock: LP.State, g: Gid)
    requires LP.Inv(lock) && lock.PcOf(g).Done?
    ensures var lock' := lock.Goto(g, LP.Idle);
      && LP.Apply(lock, LP.Return(g)) == Some(lock') && LP.Inv(lock') && LQ.OnlyMoves(lock, lock', g)
      && lock'.PcOf(g) == LP.Idle && lock'.held == lock.held
  {
    LQ.ApplyInv(lock, LP.Return(g));
  }

  /** A step of `g` that writes nothing to the server. */
  lemma {:induction false} QuietStepInv(s: State, g: Gid, p: Phase, lock: LP.State, failed: set<Key>,
                                        leaked: set<(Gid, Key)>, key: Key)
    requires Inv(s) && LP.Inv(lock) && LQ.OnlyMoves(s.lock, lock, g) && lock.held == s.lock.held
    requires s.failed <= failed && failed <= s.failed + {key}
    requires leaked == s.leaked || leaked == s.leaked + {(g, key)}
    requires KeyOf(s.At(g)).Some? ==> KeyOf(s.At(g)).value == key
    requires Own(g, p, lock.PcOf(g), lock.held, leaked, failed)
    requires CopyOk(p, s.store, s.outside)
    requires CoversKey(s, g, key) ==>
      Settled(s, key) || key in failed || Covers(p, lock.PcOf(g), key, (g, key) in lock.held)
    requires p.AddUnlock? ==> !p.ok
    requires (p.RemUnlock? || p.AddUnlock?) && !p.ok ==> p.r.key in failed
    ensures var s' := s.(lock := lock, failed := failed, leaked := leaked).Goto(g, p);
      Inv(s') && forall m :: Inv(s'.(metrics := m))
  {
    var s' := s.(lock := lock, failed := failed, leaked := leaked).Goto(g, p);
    assert CopiesOk(s') by {
      forall h: Gid ensures CopyOk(s'.At(h), s'.store, s'.outside) {
        assert CopyOk(s.At(h), s.store, s.outside);
      }
    }
    assert OwnOk(s', g);
    assert OnlyMoves(s, s', g);
    hide LP.Inv, CopiesOk, RunsOk, Own, CopyOk;
    StepInv(s, s', g, key);
    MetricsDoNotMatter(s');
  }

  lemma {:induction false} MetricsDoNotMatter(s: State)
    requires Inv(s)
    ensures forall m :: Inv(s.(metrics := m))
  {
    forall m ensures Inv(s.(metrics := m)) {
      var s' := s.(metrics := m);
      assert RunsOk(s') && CopiesOk(s');
      forall k ensures Settled(s', k) || Covered(s', k) {
        assert Settled(s, k) || Covered(s, k);
        SameCover(s, s', k);
      }
      forall h: Gid ensures UnlockOk(s', s'.At(h), Holds(s', h)) {
        assert UnlockOk(s, s.At(h), Holds(s, h));
      }
    }
  }

  /** A lock call, or its return, moves `g` to a phase under which nothing it held changes. */
  lemma {:induction false} OwnMoves(g: Gid, p: Phase, p': Phase, pc: LP.Pc, pc': LP.Pc, held: set<(Gid, Key)>,
                                    leaked: set<(Gid, Key)>, failed: set<Key>)
    requires Own(g, p, pc, held, leaked, failed) && LinkOk(g, p', pc', held)
    requires forall k | (g, k) in held && (g, k) !in leaked :: HeldOk(g, k, p', pc', leaked)
    requires forall k | (g, k) in leaked :: !Inside(p', k) && !(Occupies(p', k) && LP.Acquired(pc', k))
    ensures Own(g, p', pc', held, leaked, failed)
  {
    forall k | (g, k) in leaked ensures LeakOk(g, k, p', pc', held, failed) {
      assert LeakOk(g, k, p, pc, held, failed);
    }
  }

  lemma {:induction false} OwnOutside(g: Gid, p: Phase, p': Phase, pc: LP.Pc, pc': LP.Pc, held: set<(Gid, Key)>,
                                      leaked: set<(Gid, Key)>, failed: set<Key>)
    requires Own(g, p, pc, held, leaked, failed) && (p.Off? || p.Wait?)
    requires LinkOk(g, p', pc', held) && pc'.WantMu? && (p'.Gate? || p'.RemTry? || p'.AddTry?)
    ensures Own(g, p', pc', held, leaked, failed)
  {}

  predicate Calls(op: LP.Op, p: Phase, key: Key, was: Phase) {
    match p
    case Gate(k) => k == key && op.IsLocked? && was.Off?
    case RemTry(r) => r.key == key && op.TryLock? && was.Off?
    case AddTry(r, _) => r.key == key && op.TryLock? && was == Wait(r)
    case _ => false
  }

  lemma {:induction false} CallInv(s: State, g: Gid, op: LP.Op, key: Key, p: Phase)
    requires Inv(s) && Calls(op, p, key, s.At(g))
    ensures CallLock(s, g, op, key, p).Some? && forall m :: Inv(CallLock(s, g, op, key, p).value.(metrics := m))
  {
    assert OwnOk(s, g) && LinkOk(g, s.At(g), s.lock.PcOf(g), s.lock.held);
    CallFrame(s.lock, g, op, key);
    var lock := s.lock.Goto(g, LP.WantMu(op, key));
    OwnOutside(g, s.At(g), p, s.lock.PcOf(g), lock.PcOf(g), s.lock.held, s.leaked, s.failed);
    hide Inv, LP.Inv, Own;
    QuietStepInv(s, g, p, lock, s.failed, s.leaked, key);
    assert s.(lock := lock, failed := s.failed, leaked := s.leaked).Goto(g, p) == s.(lock := lock).Goto(g, p);
  }

  lemma {:induction false} AnswerInv(s: State, g: Gid)
    requires Inv(s) && s.At(g).Gate? && s.lock.PcOf(g).Done?
    ensures ReturnLock(s, g, Off).Some? && Inv(ReturnLock(s, g, Off).value)
  {
    ReturnFrame(s.lock, g);
    var lock := s.lock.Goto(g, LP.Idle);
    assert OwnOk(s, g);
    hide Inv, LP.Inv, RunsOk, CopiesOk, AnnotationsOk;
    forall k | (g, k) in s.lock.held ensures (g, k) in s.leaked {
      assert HeldOk(g, k, s.At(g), s.lock.PcOf(g), s.leaked);
    }
    OwnMoves(g, s.At(g), Off, s.lock.PcOf(g), LP.Idle, s.lock.held, s.leaked, s.failed);
    QuietStepInv(s, g, Off, lock, s.failed, s.leaked, s.At(g).key);
  }

  /** TryLock returned: true takes the run inside its critical section, false ends it. */
  lemma {:induction false} EnterInv(s: State, g: Gid)
    requires Inv(s) && (s.At(g).RemTry? || s.At(g).AddTry?) && s.lock.PcOf(g).Done?
    ensures EnterStep(s, g).Some? && Inv(EnterStep(s, g).value)
  {
    var p, pc := s.At(g), s.lock.PcOf(g);
    var key := p.r.key;
    hide LP.Inv, RunsOk, CopiesOk, AnnotationsOk;
    OwnOf(s, g);
    ReturnFrame(s.lock, g);
    LT.ReturnMeansHeld(s.lock, g);
    var lock := s.lock.Goto(g, LP.Idle);
    var p' := if !pc.result then Off else if p.RemTry? then RemGet(p.r) else AddGet(p.r, p.successTime);
    forall k | (g, k) in s.lock.held && (g, k) !in s.leaked ensures HeldOk(g, k, p', LP.Idle, s.leaked) {
      assert HeldOk(g, k, p, pc, s.leaked);
    }
    forall k | (g, k) in s.leaked ensures !Inside(p', k) {
      assert LeakOk(g, k, p, pc, s.lock.held, s.failed);
    }
    OwnMoves(g, p, p', pc, LP.Idle, s.lock.held, s.leaked, s.failed);
    QuietStepInv(s, g, p', lock, s.failed, s.leaked, key);
  }

  lemma {:induction false} FetchInv(s: State, g: Gid, fault: bool)
    requires Inv(s) && (s.At(g).RemGet? || s.At(g).AddGet?)
    ensures FetchStep(s, g, fault).Some? && Inv(FetchStep(s, g, fault).value)
  {
    var p := s.At(g);
    var key := p.r.key;
    assert OwnOk(s, g) && LinkOk(g, p, s.lock.PcOf(g), s.lock.held);
    if fault || key !in s.store.objs {
      var leaked := s.leaked + {(g, key)};
      FetchFailsOwn(g, p, key, s.lock.held, s.leaked, s.failed);
      QuietStepInv(s, g, Off, s.lock, s.failed + {key}, leaked, key);
    } else {
      var base := s.store.objs[key];
      var p' := if p.RemGet? then RemPut(p.r, base, s.store.rev) else AddPut(p.r, p.successTime, base, s.store.rev);
      assert LastOutside(s.outside, key) <= s.store.rev;
      forall k | (g, k) in s.lock.held && (g, k) !in s.leaked ensures HeldOk(g, k, p', LP.Idle, s.leaked) {
        assert HeldOk(g, k, p, LP.Idle, s.leaked);
      }
      forall k | (g, k) in s.leaked ensures !Inside(p', k) {
        assert LeakOk(g, k, p, LP.Idle, s.lock.held, s.failed);
      }
      OwnMoves(g, p, p', LP.Idle, LP.Idle, s.lock.held, s.leaked, s.failed);
      QuietStepInv(s, g, p', s.lock, s.failed, s.leaked, key);
    }
  }

  lemma {:induction false} FetchFailsOwn(g: Gid, p: Phase, key: Key, held: set<(Gid, Key)>, leaked: set<(Gid, Key)>,
                                         failed: set<Key>)
    requires Own(g, p, LP.Idle, held, leaked, failed) && (p.RemGet? || p.AddGet?) && p.r.key == key
    ensures Own(g, Off, LP.Idle, held, leaked + {(g, key)}, failed + {key})
  {}

  lemma {:induction false} ReleaseInv(s: State, g: Gid)
    requires Inv(s) && (s.At(g).RemUnlock? || s.At(g).AddUnlock?) && s.lock.PcOf(g).Done?
    ensures ReleaseStep(s, g).Some? && Inv(ReleaseStep(s, g).value)
  {
    var p, pc := s.At(g), s.lock.PcOf(g);
    var key := p.r.key;
    assert UnlockOk(s, p, Holds(s, g));
    hide LP.Inv, RunsOk, CopiesOk, AnnotationsOk;
    OwnOf(s, g);
    ReturnFrame(s.lock, g);
    LT.ReturnMeansHeld(s.lock, g);
    var lock := s.lock.Goto(g, LP.Idle);
    var p' := if p.RemUnlock? && p.ok then Wait(p.r) else Off;
    forall k | (g, k) in s.lock.held ensures (g, k) in s.leaked {
      assert HeldOk(g, k, p, pc, s.leaked);
    }
    OwnMoves(g, p, p', pc, LP.Idle, s.lock.held, s.leaked, s.failed);
    QuietStepInv(s, g, p', lock, s.failed, s.leaked, key);
  }

  lemma {:induction false} PollFailsInv(s: State, g: Gid)
    requires Inv(s) && s.At(g).Wait?
    ensures PollStep(s, g, WaitFails).Some? && Inv(PollStep(s, g, WaitFails).value)
  {
    var p := s.At(g);
    var key := p.r.key;
    assert OwnOk(s, g) && LinkOk(g, p, s.lock.PcOf(g), s.lock.held);
    forall k | (g, k) in s.lock.held ensures (g, k) in s.leaked {
      assert HeldOk(g, k, p, LP.Idle, s.leaked);
    }
    var failed := s.failed + {key};
    forall k | (g, k) in s.leaked ensures LeakOk(g, k, Off, LP.Idle, s.lock.held, failed) {
      assert LeakOk(g, k, p, LP.Idle, s.lock.held, s.failed);
    }
    QuietStepInv(s, g, Off, s.lock, failed, s.leaked, key);
  }

  // ---- The Update.

  predicate Puts(p: Phase) {
    p.RemPut? || p.AddPut?
  }

  function Copy(p: Phase): Ingress
    requires Puts(p)
  {
    if p.RemPut? then WithoutBackend(p.base) else WithHttps(p.base)
  }

  function Unlocking(p: Phase, ok: bool): Phase
    requires Puts(p)
  {
    if p.RemPut? then RemUnlock(p.r, ok) else AddUnlock(p.r, p.successTime, ok)
  }

  lemma {:induction false} PushOwn(s: State, g: Gid, ok: bool, failed: set<Key>)
    requires LP.Inv(s.lock) && OwnOk(s, g) && Puts(s.At(g)) && s.failed <= failed
    ensures var k := s.At(g).r.key; var lock' := s.lock.Goto(g, LP.WantMu(LP.Unlock, k));
      && (g, k) in s.lock.held
      && LP.Apply(s.lock, LP.Call(g, LP.Unlock, k)) == Some(lock') && LP.Inv(lock')
      && LQ.OnlyMoves(s.lock, lock', g) && lock'.held == s.lock.held && lock'.PcOf(g) == LP.WantMu(LP.Unlock, k)
      && Own(g, Unlocking(s.At(g), ok), lock'.PcOf(g), lock'.held, s.leaked, failed)
  {
    var p := s.At(g);
    var k := p.r.key;
    assert LinkOk(g, p, s.lock.PcOf(g), s.lock.held);
    CallFrame(s.lock, g, LP.Unlock, k);
    var pc', p' := LP.WantMu(LP.Unlock, k), Unlocking(p, ok);
    hide LP.Inv;
    forall m | (g, m) in s.lock.held ensures HeldOk(g, m, p', pc', s.leaked) {
      assert HeldOk(g, m, p, s.lock.PcOf(g), s.leaked);
    }
    forall m | (g, m) in s.leaked ensures LeakOk(g, m, p', pc', s.lock.held, failed) {
      assert LeakOk(g, m, p, s.lock.PcOf(g), s.lock.held, s.failed);
    }
  }

  lemma {:induction false} PushFailsInv(s: State, g: Gid)
    requires Inv(s) && Puts(s.At(g))
    ensures var k := s.At(g).r.key;
      var r := CallLock(s.(failed := s.failed + {k}), g, LP.Unlock, k, Unlocking(s.At(g), false));
      r.Some? && Inv(r.value)
  {
    var k := s.At(g).r.key;
    assert OwnOk(s, g);
    PushOwn(s, g, false, s.failed + {k});
    var lock := s.lock.Goto(g, LP.WantMu(LP.Unlock, k));
    hide Inv, LP.Inv, Own;
    QuietStepInv(s, g, Unlocking(s.At(g), false), lock, s.failed + {k}, s.leaked, k);
  }

  lemma {:induction false} UpdateCopies(s: State, g: Gid, s': State)
    requires LP.Inv(s.lock) && RunsOk(s) && CopiesOk(s) && Puts(s.At(g)) && CanUpdate(s.store, Copy(s.At(g)))
    requires s'.store == Update(s.store, Copy(s.At(g))) && s'.outside == s.outside
    requires s'.phases == s.phases[g := Unlocking(s.At(g), true)]
    ensures CopiesOk(s')
  {
    var p := s.At(g);
    var k := p.r.key;
    assert LinkOk(g, p, s.lock.PcOf(g), s.lock.held) && CopyOk(p, s.store, s.outside);
    assert (g, k) in s.lock.held;
    forall m ensures LastOutside(s'.outside, m) <= s'.store.rev {
      assert LastOutside(s.outside, m) <= s.store.rev;
    }
    forall h: Gid ensures CopyOk(s'.At(h), s'.store, s'.outside) {
      if h != g && Puts(s.At(h)) {
        assert LinkOk(h, s.At(h), s.lock.PcOf(h), s.lock.held) && CopyOk(s.At(h), s.store, s.outside);
        if s.At(h).r.key == k { Exclusive(s, g, h, k); }
      }
    }
  }

  lemma {:induction false} PushLandsInv(s: State, g: Gid)
    requires Inv(s) && Puts(s.At(g)) && CanUpdate(s.store, Copy(s.At(g)))
    ensures var k := s.At(g).r.key;
      var r := CallLock(s.(store := Update(s.store, Copy(s.At(g)))), g, LP.Unlock, k, Unlocking(s.At(g), true));
      r.Some? && forall m :: Inv(r.value.(metrics := m))
  {
    var p := s.At(g);
    var k := p.r.key;
    assert CopyOk(p, s.store, s.outside);
    hide LP.Inv, RunsOk, CopiesOk, AnnotationsOk, Own, Settled, Covers;
    OwnOf(s, g);
    PushOwn(s, g, true, s.failed);
    var lock := s.lock.Goto(g, LP.WantMu(LP.Unlock, k));
    var s' := s.(store := Update(s.store, Copy(p)), lock := lock).Goto(g, Unlocking(p, true));
    UpdateCopies(s, g, s');
    OnlyHolder(s, g, k);
    UpdateSettles(s, s', p);
    UnlockingCovers(s', g, p);
    assert OnlyMoves(s, s', g);
    StepInv(s, s', g, k);
    MetricsDoNotMatter(s');
  }

  lemma {:induction false} UnlockingCovers(s: State, g: Gid, p: Phase)
    requires Puts(p) && s.At(g) == Unlocking(p, true) && (p.AddPut? ==> Settled(s, p.r.key))
    ensures Settled(s, p.r.key) || Covered(s, p.r.key)
    ensures UnlockOk(s, s.At(g), Holds(s, g))
  {}

  lemma {:induction false} OnlyHolder(s: State, g: Gid, k: Key)
    requires LP.Inv(s.lock) && (g, k) in s.lock.held
    ensures forall h: Gid | h != g :: (h, k) !in s.lock.held
  {}

  lemma {:induction false} UpdateSettles(s: State, s': State, p: Phase)
    requires Puts(p) && p.base.key == p.r.key && s'.store == Update(s.store, Copy(p))
    requires s'.bare == s.bare && s'.failed == s.failed
    ensures forall k | k != p.r.key && Settled(s, k) :: Settled(s', k)
    ensures p.AddPut? ==> Settled(s', p.r.key)
  {}

  lemma {:induction false} PushInv(s: State, g: Gid, fault: bool)
    requires Inv(s) && Puts(s.At(g))
    ensures PushStep(s, g, fault).Some? && Inv(PushStep(s, g, fault).value)
  {
    hide Inv;
    if fault || !CanUpdate(s.store, Copy(s.At(g))) {
      PushFailsInv(s, g);
    } else {
      PushLandsInv(s, g);
      var k := s.At(g).r.key;
      var updated := s.(store := Update(s.store, Copy(s.At(g))));
      var landed := CallLock(updated, g, LP.Unlock, k, Unlocking(s.At(g), true)).value;
      assert PushStep(s, g, fault).value == landed.(metrics := PushStep(s, g, fault).value.metrics);
    }
  }

  // ---- Every step, every state.

  lemma {:induction false} ApplyInv(s: State, l: Label)
    requires Inv(s) && Apply(s, l).Some?
    ensures Inv(Apply(s, l).value)
  {
    hide Inv;
    match l
    case Outside(e) => OutsideInv(s, e);
    case LockRun(g) => LockRunInv(s, g);
    case AskGate(g, k) => CallInv(s, g, LP.IsLocked, k, Gate(k)); SameMetrics(Apply(s, l).value);
    case Answer(g) => AnswerInv(s, g);
    case Start(g, r) => CallInv(s, g, LP.TryLock, r.key, RemTry(r)); SameMetrics(Apply(s, l).value);
    case Entered(g) => EnterInv(s, g);
    case Fetch(g, fault) => FetchInv(s, g, fault);
    case Push(g, fault) => PushInv(s, g, fault);
    case Released(g) => ReleaseInv(s, g);
    case Polled(g, p) =>
      if p.WaitFails? {
        PollFailsInv(s, g);
      } else {
        CallInv(s, g, LP.TryLock, s.At(g).r.key, AddTry(s.At(g).r, p.successTime));
        var m := Apply(s, l).value.metrics;
        assert Apply(s, l).value ==
          CallLock(s, g, LP.TryLock, s.At(g).r.key, AddTry(s.At(g).r, p.successTime)).value.(metrics := m);
      }
  }

  lemma {:induction false} SameMetrics(s: State)
    ensures s.(metrics := s.metrics) == s
  {}

  lemma {:induction false} InitialInv(s: State)
    requires Initial(s)
    ensures Inv(s)
  {
    LQ.InitInv();
  }

  lemma {:induction false} AlwaysInv(states: seq<State>, labels: seq<Label>, i: nat)
    requires IsExecution(states, labels) && i < |states|
    ensures Inv(states[i])
  {
    hide Inv, Apply;
    if i == 0 {
      InitialInv(states[0]);
    } else {
      AlwaysInv(states, labels, i - 1);
      assert Apply(states[i - 1], labels[i - 1]) == Some(states[i]);
      ApplyInv(states[i - 1], labels[i - 1]);
    }
  }
}
