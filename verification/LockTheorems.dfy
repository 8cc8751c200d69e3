/** The named lock over whole executions. */
module LockTheorems {
  import opened GoStrings
  import opened LockProtocol
  import opened LockProperties

  lemma {:induction false} StepAt(states: seq<State>, labels: seq<Label>, i: nat)
    requires IsDisciplined(states, labels) && i < |labels|
    ensures Disciplined(states[i], labels[i]) && Apply(states[i], labels[i]) == Some(states[i + 1])
  {}

  /** Every state of every execution in which only holders unlock satisfies the invariant. */
  lemma {:induction false} AlwaysInv(states: seq<State>, labels: seq<Label>, i: nat)
    requires IsDisciplined(states, labels) && states[0] == INIT && i < |states|
    ensures Inv(states[i])
  {
    if i == 0 {
      InitInv();
    } else {
      AlwaysInv(states, labels, i - 1);
      StepAt(states, labels, i - 1);
      ApplyInv(states[i - 1], labels[i - 1]);
    }
  }

  ghost function HoldersOf(s: State, n: Name): set<Gid> {
    set p | p in s.held && p.1 == n :: p.0
  }

  function CellOf(s: State, n: Name): Cell
    requires n in s.locks && s.locks[n] < |s.heap|
  {
    s.heap[s.locks[n]]
  }

  /** Token conservation: channel, holders and a pending creation share exactly one token per name, at most one
      goroutine holds it, and the flag is up exactly while a holder is past its mark and before its clear. */
  lemma {:induction false} TokenConservation(states: seq<State>, labels: seq<Label>, i: nat, n: Name)
    requires IsDisciplined(states, labels) && states[0] == INIT && i < |states| && n in states[i].locks
    ensures states[i].locks[n] < |states[i].heap|
    ensures CellOf(states[i], n).tokens + |HoldersOf(states[i], n)| + (if Seeded(states[i], n) then 1 else 0) == 1
    ensures CellOf(states[i], n).locked <==>
            exists g :: g in HoldersOf(states[i], n) && !Unmarked(states[i].PcOf(g), n)
  {
    AlwaysInv(states, labels, i);
    var s := states[i];
    assert forall g :: g in HoldersOf(s, n) ==> (g, n) in s.held;
    if Held(s, n) {
      var g :| (g, n) in s.held;
      assert (g, n).0 in HoldersOf(s, n);
      assert HoldersOf(s, n) == {g};
    } else {
      assert HoldersOf(s, n) == {};
    }
    if Marked(s, n) {
      var g :| (g, n) in s.held && !Unmarked(s.PcOf(g), n);
      assert (g, n).0 in HoldersOf(s, n);
    }
  }

  /** A holder's `Unlock` never skips: at its test the flag is up, and at its send the channel has room. */
  lemma {:induction false} HolderAlwaysReleases(s: State, g: Gid)
    requires Inv(s)
    ensures s.PcOf(g).ReadFlag? && s.PcOf(g).op.Unlock? ==>
              Advance(s, g) == Some(s.Goto(g, Clear(s.PcOf(g).n, s.PcOf(g).lk)))
    ensures s.PcOf(g).Send? ==> Advance(s, g).Some? && !Held(Advance(s, g).value, s.PcOf(g).n)
  {
    var pc := s.PcOf(g);
    assert RefOk(pc, s.locks) && CallOk(pc, g, s.held);
    if pc.Send? {
      assert Held(s, pc.n);
    }
  }

  /** A goroutine inside a call is blocked exactly when it wants the map mutex while another has it, or sits in
      `Lock` while the name is held. In particular nobody blocks on a channel while it has the map mutex. */
  lemma {:induction false} BlockedExactly(s: State, g: Gid)
    requires Inv(s) && !s.PcOf(g).Idle? && !s.PcOf(g).Done?
    ensures Advance(s, g).None? <==>
      || (s.PcOf(g).WantMu? && s.mu.Some? && s.mu.value != g)
      || (s.PcOf(g).Receive? && s.PcOf(g).op.Lock? && Held(s, s.PcOf(g).n))
  {
    var pc := s.PcOf(g);
    assert RefOk(pc, s.locks) && ShapeOk(pc);
    if pc.Receive? {
      NobodySeedsWhatIKnow(s, g);
    } else if pc.Send? {
      SendInv(s, g);
    } else if pc.Seed? {
      SeedInv(s, g);
    }
  }

  /** The lock system is never stuck: whenever a goroutine inside a call is not waiting for a held name, somebody
      can move. */
  lemma {:induction false} NeverStuck(s: State, g: Gid) returns (h: Gid)
    requires Inv(s) && !s.PcOf(g).Idle? && !s.PcOf(g).Done?
    requires !(s.PcOf(g).Receive? && s.PcOf(g).op.Lock? && Held(s, s.PcOf(g).n))
    ensures Advance(s, h).Some?
  {
    BlockedExactly(s, g);
    if Advance(s, g).Some? {
      h := g;
    } else {
      h := s.mu.value;
      assert InMu(s.PcOf(h));
      BlockedExactly(s, h);
    }
  }

  // ---- Refinement: the code implements an atomic map from names to holders.

  type Holders = map<Name, Gid>

  datatype Event = Acquire(g: Gid, n: Name) | Release(g: Gid, n: Name) | Stutter

  ghost predicate AtomicStep(h: Holders, e: Event, h': Holders) {
    match e
    case Acquire(g, n) => n !in h && h' == h[n := g]
    case Release(g, n) => n in h && h[n] == g && h' == h - {n}
    case Stutter => h' == h
  }

  ghost predicate Represents(held: set<(Gid, Name)>, h: Holders) {
    && (forall g, n | (g, n) in held :: n in h && h[n] == g)
    && (forall n | n in h :: (h[n], n) in held)
  }

  /** An acquisition takes effect at the receive, a release at the send; nothing else shows. */
  ghost function EventOf(s: State, l: Label): Event {
    if l.Run? then
      match s.PcOf(l.g)
      case Receive(_, n, lk) => if lk < |s.heap| && s.heap[lk].tokens >= 1 then Acquire(l.g, n) else Stutter
      case Send(n, _) => Release(l.g, n)
      case _ => Stutter
    else Stutter
  }

  lemma {:induction false} HeldFollowsEvent(s: State, l: Label)
    requires Inv(s) && Apply(s, l).Some?
    ensures match EventOf(s, l)
            case Acquire(g, n) => !Held(s, n) && Apply(s, l).value.held == s.held + {(g, n)}
            case Release(g, n) => (g, n) in s.held && Apply(s, l).value.held == s.held - {(g, n)}
            case Stutter => Apply(s, l).value.held == s.held
  {
    assert RefOk(s.PcOf(l.g), s.locks) && CallOk(s.PcOf(l.g), l.g, s.held);
  }

  lemma {:induction false} StepRefines(s: State, l: Label, h: Holders) returns (h': Holders)
    requires Inv(s) && Apply(s, l).Some? && Represents(s.held, h)
    ensures AtomicStep(h, EventOf(s, l), h') && Represents(Apply(s, l).value.held, h')
  {
    HeldFollowsEvent(s, l);
    var e, held' := EventOf(s, l), Apply(s, l).value.held;
    assert e.Acquire? ==> forall g :: (g, e.n) !in s.held;
    assert forall a, b, n | (a, n) in s.held && (b, n) in s.held :: a == b;
    hide Inv, Apply, EventOf;
    h' := AtomicEffect(s.held, e, held', h);
  }

  lemma {:induction false} AtomicEffect(held: set<(Gid, Name)>, e: Event, held': set<(Gid, Name)>, h: Holders)
    returns (h': Holders)
    requires Represents(held, h)
    requires forall a, b, n | (a, n) in held && (b, n) in held :: a == b
    requires match e
             case Acquire(g, n) => (forall a :: (a, n) !in held) && held' == held + {(g, n)}
             case Release(g, n) => (g, n) in held && held' == held - {(g, n)}
             case Stutter => held' == held
    ensures AtomicStep(h, e, h') && Represents(held', h')
  {
    match e
    case Acquire(g, n) => h' := h[n := g];
    case Release(g, n) => h' := h - {n};
    case Stutter => h' := h;
  }

  /** Transition `i` is the step of the atomic lock that its event announces. */
  ghost predicate Follows(hs: seq<Holders>, states: seq<State>, labels: seq<Label>, i: nat) {
    i + 1 < |hs| && i < |states| && i < |labels| && AtomicStep(hs[i], EventOf(states[i], labels[i]), hs[i + 1])
  }

  /** Every disciplined execution is a run of the atomic lock. */
  lemma {:induction false} ExecutionRefines(states: seq<State>, labels: seq<Label>) returns (hs: seq<Holders>)
    requires IsDisciplined(states, labels) && states[0] == INIT
    ensures |hs| == |states| && hs[0] == map[]
    ensures forall i | 0 <= i < |states| :: Represents(states[i].held, hs[i])
    ensures forall i | 0 <= i < |labels| :: Follows(hs, states, labels, i)
  {
    hs := RefinesUpTo(states, labels, |labels|);
  }

  lemma {:induction false} RefinesUpTo(states: seq<State>, labels: seq<Label>, n: nat) returns (hs: seq<Holders>)
    requires IsDisciplined(states, labels) && states[0] == INIT && n <= |labels|
    ensures |hs| == n + 1 && hs[0] == map[]
    ensures forall i | 0 <= i <= n :: Represents(states[i].held, hs[i])
    ensures forall i | 0 <= i < n :: Follows(hs, states, labels, i)
  {
    if n == 0 {
      hs := [map[]];
    } else {
      var before := RefinesUpTo(states, labels, n - 1);
      AlwaysInv(states, labels, n - 1);
      StepAt(states, labels, n - 1);
      hide Inv, Apply, EventOf, AtomicStep, Represents, IsExecution, Disciplined;
      var h' := StepRefines(states[n - 1], labels[n - 1], before[n - 1]);
      hs := before + [h'];
      forall i | 0 <= i < n ensures Follows(hs, states, labels, i) {
        assert i < n - 1 ==> Follows(before, states, labels, i);
      }
    }
  }

  /** What a finished call means: `Lock` and a true `TryLock` leave the caller the holder, `Unlock` does not. */
  lemma {:induction false} ReturnMeansHeld(s: State, g: Gid)
    requires Inv(s) && s.PcOf(g).Done?
    ensures match s.PcOf(g).op
            case Lock => (g, s.PcOf(g).n) in s.held
            case TryLock => s.PcOf(g).result ==> (g, s.PcOf(g).n) in s.held
            case Unlock => (g, s.PcOf(g).n) !in s.held
            case IsLocked => true
  {}

  lemma {:induction false} RefusalCases(s: State, l: Label, g: Gid, n: Name)
    requires Apply(s, l).Some? && !Refused(s.PcOf(g), n) && Refused(Apply(s, l).value.PcOf(g), n)
    requires ShapeOk(s.PcOf(g))
    ensures l == Run(g)
    ensures var pc := s.PcOf(g);
      || (pc.TestFlag? && pc.n == n && pc.lk < |s.heap| && s.heap[pc.lk].locked)
      || (pc.Receive? && pc.n == n && !(pc.lk < |s.heap| && s.heap[pc.lk].tokens >= 1))
  {}

  /** The transition on which `TryLock` decides to return false happens while some goroutine holds the name. */
  lemma {:induction false} RefusalStep(s: State, l: Label, g: Gid, n: Name)
    requires Inv(s) && Apply(s, l).Some? && !Refused(s.PcOf(g), n) && Refused(Apply(s, l).value.PcOf(g), n)
    ensures l == Run(g) && Held(s, n)
  {
    assert RefOk(s.PcOf(g), s.locks) && ShapeOk(s.PcOf(g));
    RefusalCases(s, l, g, n);
    NobodySeedsWhatIKnow(s, g);
    assert Marked(s, n) ==> Held(s, n);
    hide Apply;
  }

  /** `TryLock` returns false only if some goroutine held the name at an instant inside the call. */
  lemma {:induction false} RefusalHasWitness(states: seq<State>, labels: seq<Label>, i: nat, j: nat, g: Gid, n: Name)
    returns (k: nat)
    requires IsDisciplined(states, labels) && states[0] == INIT && i <= j < |states|
    requires states[i].PcOf(g) == WantMu(TryLock, n) && Refused(states[j].PcOf(g), n)
    ensures i <= k < j && Held(states[k], n)
    decreases j
  {
    hide Held, Advance;
    k := j - 1;
    if Refused(states[k].PcOf(g), n) {
      k := RefusalHasWitness(states, labels, i, k, g, n);
    } else {
      AlwaysInv(states, labels, k);
      StepAt(states, labels, k);
      RefusalStep(states[k], labels[k], g, n);
    }
  }

  /** `IsLocked` returns true only if the name was held when it read the flag. */
  lemma {:induction false} IsLockedMeansHeld(s: State, g: Gid)
    requires Inv(s) && s.PcOf(g).ReadFlag? && s.PcOf(g).op.IsLocked?
    ensures Advance(s, g).Some?
    ensures Advance(s, g).value.PcOf(g).result ==> Held(s, s.PcOf(g).n)
  {}

  // ---- Names do not interfere.

  /** Entries are created once and never replaced, and a transition inside a call on `n` leaves the entry, the
      record and the holders of every other name alone. */
  lemma {:induction false} OtherNamesUntouched(s: State, g: Gid, m: Name)
    requires Inv(s) && Advance(s, g).Some?
    ensures forall n | n in s.locks :: n in Advance(s, g).value.locks && Advance(s, g).value.locks[n] == s.locks[n]
    ensures m != s.PcOf(g).n ==> SameFor(s, Advance(s, g).value, m)
  {
    assert RefOk(s.PcOf(g), s.locks);
    hide RefOk, CallOk, ShapeOk, Held, Marked, MuOk, TokensOk, FlagsOk, SeedOk;
  }

  ghost predicate SameFor(s: State, s': State, m: Name) {
    && (m in s.locks <==> m in s'.locks)
    && (m in s.locks ==> s'.locks[m] == s.locks[m] < |s.heap| <= |s'.heap| && CellOf(s', m) == CellOf(s, m))
    && (forall h: Gid :: (h, m) in s'.held <==> (h, m) in s.held)
  }

  lemma {:induction false} RunShape(s: State, g: Gid, free: bool)
    requires Advance(s, g).Some? && ShapeOk(s.PcOf(g))
    requires s.PcOf(g).Receive? ==> s.PcOf(g).lk < |s.heap| && (s.heap[s.PcOf(g).lk].tokens >= 1 <==> free)
    requires s.PcOf(g).ReadFlag? && s.PcOf(g).op.Unlock? ==> s.PcOf(g).lk < |s.heap| && s.heap[s.PcOf(g).lk].locked
    requires s.PcOf(g).Lookup? && s.PcOf(g).op.Unlock? ==> s.PcOf(g).n in s.locks
    ensures var s', pc := Advance(s, g).value, s.PcOf(g);
      && OnlyMoves(s, s', g)
      && InCall(s'.PcOf(g), OpOf(pc).value, pc.n)
      && (Acquired(s'.PcOf(g), pc.n) <==> Acquired(pc, pc.n) || (pc.Receive? && free))
      && s'.held == (if pc.Receive? && free then s.held + {(g, pc.n)}
                     else if pc.Send? then s.held - {(g, pc.n)} else s.held)
      && (pc.Send? ==> s'.PcOf(g) == Done(Unlock, pc.n, true))
      && (pc.Receive? ==> !OpOf(pc).value.Unlock?)
      && (s'.PcOf(g).Done? && OpOf(pc).value.Unlock? ==> pc.Send?)
  {
    assert Advance(s, g).value.pcs == s.pcs[g := Advance(s, g).value.PcOf(g)];
  }

  /** What one transition inside a call means to the caller. */
  lemma {:induction false} RunSummary(s: State, g: Gid)
    requires Inv(s) && Advance(s, g).Some?
    ensures var s', pc := Advance(s, g).value, s.PcOf(g);
      && Inv(s') && OnlyMoves(s, s', g)
      && InCall(s'.PcOf(g), OpOf(pc).value, pc.n)
      && (Refused(s'.PcOf(g), pc.n) ==> Refused(pc, pc.n) || Held(s, pc.n))
      && (Acquired(s'.PcOf(g), pc.n) <==> Acquired(pc, pc.n) || (pc.Receive? && !Held(s, pc.n)))
      && s'.held == (if pc.Receive? && !Held(s, pc.n) then s.held + {(g, pc.n)}
                     else if pc.Send? then s.held - {(g, pc.n)} else s.held)
      && (pc.Send? ==> s'.PcOf(g) == Done(Unlock, pc.n, true))
      && (pc.Receive? ==> !OpOf(pc).value.Unlock?)
      && (s'.PcOf(g).Done? && OpOf(pc).value.Unlock? ==> pc.Send?)
  {
    AdvanceInv(s, g);
    var pc := s.PcOf(g);
    assert RefOk(pc, s.locks) && ShapeOk(pc) && CallOk(pc, g, s.held);
    if Refused(Advance(s, g).value.PcOf(g), pc.n) && !Refused(pc, pc.n) {
      RefusalStep(s, Run(g), g, pc.n);
    }
    if pc.Receive? { NobodySeedsWhatIKnow(s, g); }
    HolderAlwaysReleases(s, g);
    assert pc.Receive? ==> pc.lk < |s.heap| && (s.heap[pc.lk].tokens >= 1 <==> !Held(s, pc.n));
    assert pc.ReadFlag? && pc.op.Unlock? ==> pc.lk < |s.heap| && s.heap[pc.lk].locked;
    assert pc.Lookup? && pc.op.Unlock? ==> pc.n in s.locks;
    hide Inv, Held, Advance;
    RunShape(s, g, !Held(s, pc.n));
  }
}
