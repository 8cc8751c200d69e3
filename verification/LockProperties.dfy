/** What the interleaved named lock guarantees to callers that unlock only what they hold. */
module LockProperties {
  import opened GoStrings
  import opened LockProtocol

  lemma {:induction false} InitInv()
    ensures Inv(INIT)
  {}

  ghost predicate OnlyMoves(s: State, s': State, g: Gid) {
    forall h: Gid | h != g :: s'.PcOf(h) == s.PcOf(h)
  }

  /** From `s` to `s'` only goroutine `g` moved; on name `n` it neither gained nor lost anything. */
  ghost predicate Untouched(s: State, s': State, g: Gid, n: Name) {
    && OnlyMoves(s, s', g)
    && (forall h: Gid :: (h, n) in s'.held <==> (h, n) in s.held)
    && Unmarked(s'.PcOf(g), n) == Unmarked(s.PcOf(g), n)
  }

  lemma {:induction false} SameStatus(s: State, s': State, g: Gid, n: Name)
    requires Untouched(s, s', g, n)
    ensures Held(s', n) == Held(s, n) && Marked(s', n) == Marked(s, n)
  {}

  lemma {:induction false} SameStatuses(s: State, s': State, g: Gid)
    requires OnlyMoves(s, s', g)
    requires s'.held == s.held
    requires !s.PcOf(g).Mark? && !s.PcOf(g).Send? && !s'.PcOf(g).Mark? && !s'.PcOf(g).Send?
    ensures forall n :: Held(s', n) == Held(s, n) && Marked(s', n) == Marked(s, n)
  {}

  /** A transition that only moves `g`, perhaps taking or dropping the global mutex. */
  lemma {:induction false} MoveInv(s: State, g: Gid, mu: Option<Gid>, pc: Pc)
    requires Inv(s)
    requires mu == s.mu || (s.mu.None? && mu == Some(g)) || (s.mu == Some(g) && mu.None?)
    requires InMu(pc) <==> mu == Some(g)
    requires !pc.Seed? && !pc.Mark? && !pc.Send?
    requires var was := s.PcOf(g); !was.Seed? && !was.Mark? && !was.Send?
    requires InMu(pc) || RefOf(pc).None? || RefOf(pc) == RefOf(s.PcOf(g))
    requires RefOk(pc, s.locks) && ShapeOk(pc) && CallOk(pc, g, s.held)
    ensures Inv(s.(mu := mu).Goto(g, pc))
  {
    var s' := s.(mu := mu).Goto(g, pc);
    assert forall h: Gid :: s'.PcOf(h) == if h == g then pc else s.PcOf(h);
    SameStatuses(s, s', g);
    hide RefOk, CallOk, ShapeOk, Held, Marked;
    assert MuOk(s');
    assert SeedOk(s');
    assert TokensOk(s') by {
      assert forall n :: Seeded(s', n) == Seeded(s, n);
    }
  }

  /** The goroutines other than `g` stay where they were, and no entry was replaced. */
  lemma {:induction false} PcsCarryOver(s: State, s': State, g: Gid)
    requires MuOk(s) && RefsOk(s) && ShapesOk(s) && OnlyMoves(s, s', g) && s'.mu == s.mu
    requires forall n | n in s.locks :: n in s'.locks && s'.locks[n] == s.locks[n]
    requires InMu(s'.PcOf(g)) <==> InMu(s.PcOf(g))
    requires RefOk(s'.PcOf(g), s'.locks) && ShapeOk(s'.PcOf(g))
    ensures MuOk(s') && RefsOk(s') && ShapesOk(s')
  {
    forall h: Gid ensures RefOk(s'.PcOf(h), s'.locks) {
      assert RefOk(s.PcOf(h), s.locks);
    }
  }

  /** Writing the record of `n` does not disturb the creation of another entry. */
  lemma {:induction false} SeedCarriesOver(s: State, s': State, g: Gid, n: Name, c: Cell)
    requires MuOk(s) && EntriesOk(s) && RefsOk(s) && SeedOk(s) && OnlyMoves(s, s', g) && s'.mu == s.mu
    requires n in s.locks && s'.heap == s.heap[s.locks[n] := c]
    requires Seeded(s, n) ==> s.mu == Some(g)
    requires !s'.PcOf(g).Seed? && (RefOf(s'.PcOf(g)) == Some(s.locks[n]) || RefOf(s'.PcOf(g)).None?)
    requires forall m | m != n :: Held(s', m) == Held(s, m)
    ensures SeedOk(s')
  {
    hide Held;
    if s.mu.Some? {
      assert RefOk(s.PcOf(s.mu.value), s.locks);
    }
  }

  /** A transition of `g` that writes the record of its name `n` and perhaps who holds `n`. */
  lemma {:induction false} PokeInv(s: State, g: Gid, pc: Pc, c: Cell, held: set<(Gid, Name)>)
    requires Inv(s)
    requires var was := s.PcOf(g); RefOf(was).Some? && was.n in s.locks && s.locks[was.n] == RefOf(was).value
    requires var was := s.PcOf(g); Names(pc, was.n) && (RefOf(pc) == RefOf(was) || RefOf(pc).None?)
    requires !pc.Seed? && (InMu(pc) <==> InMu(s.PcOf(g)))
    requires var n := s.PcOf(g).n; held == s.held + {(g, n)} || held == s.held - {(g, n)}
    requires var n := s.PcOf(g).n; forall h: Gid | h != g && (h, n) in held :: (g, n) !in held
    requires RefOk(pc, s.locks) && ShapeOk(pc) && CallOk(pc, g, held)
    requires var n := s.PcOf(g).n; var s' := s.Poke(s.locks[n], c).Goto(g, pc).(held := held);
      && c.tokens <= 1 && (c.tokens == 1 <==> !Held(s', n))
      && (c.locked <==> Marked(s', n))
    ensures var s' := s.Poke(s.locks[s.PcOf(g).n], c).Goto(g, pc).(held := held); Inv(s')
  {
    var was := s.PcOf(g);
    var n := was.n;
    var lk := s.locks[n];
    var s' := s.Poke(lk, c).Goto(g, pc).(held := held);
    assert forall h: Gid :: s'.PcOf(h) == if h == g then pc else s.PcOf(h);
    forall m | m != n
      ensures Held(s', m) == Held(s, m) && Marked(s', m) == Marked(s, m) && Seeded(s', m) == Seeded(s, m)
    {
      SameStatus(s, s', g, m);
    }
    NobodySeedsWhatIKnow(s, g);
    CallsCarryOver(s, s', g);
    HoldersCarryOver(s, s', g, n);
    PcsCarryOver(s, s', g);
    assert !Seeded(s', n);
    PokedCell(s, s', n, c);
    SeedCarriesOver(s, s', g, n, c);
    assert EntriesOk(s');
  }

  lemma {:induction false} HoldersCarryOver(s: State, s': State, g: Gid, n: Name)
    requires HoldersOk(s) && n in s.locks && s'.locks == s.locks
    requires s'.held == s.held + {(g, n)} || s'.held == s.held - {(g, n)}
    requires forall h: Gid | h != g && (h, n) in s'.held :: (g, n) !in s'.held
    ensures HoldersOk(s')
  {}

  /** Only the record of `n` changed, and it agrees with who holds `n` now. */
  lemma {:induction false} PokedCell(s: State, s': State, n: Name, c: Cell)
    requires EntriesOk(s) && TokensOk(s) && FlagsOk(s) && n in s.locks
    requires s'.locks == s.locks && s'.heap == s.heap[s.locks[n] := c]
    requires forall m | m != n ::
        Held(s', m) == Held(s, m) && Marked(s', m) == Marked(s, m) && Seeded(s', m) == Seeded(s, m)
    requires c.tokens <= 1 && (c.tokens == 1 <==> !Held(s', n)) && (c.locked <==> Marked(s', n)) && !Seeded(s', n)
    ensures TokensOk(s') && FlagsOk(s')
  {}

  lemma {:induction false} CallsCarryOver(s: State, s': State, g: Gid)
    requires CallsOk(s) && OnlyMoves(s, s', g)
    requires forall h: Gid, n | h != g :: (h, n) in s'.held <==> (h, n) in s.held
    requires CallOk(s'.PcOf(g), g, s'.held)
    ensures CallsOk(s')
  {}

  /** A goroutine past the lookup knows an entry whose creation is over, unless it is creating it itself. */
  lemma {:induction false} NobodySeedsWhatIKnow(s: State, g: Gid)
    requires Inv(s) && RefOf(s.PcOf(g)).Some?
    ensures Seeded(s, s.PcOf(g).n) ==> s.mu == Some(g) && s.PcOf(g).Seed?
  {}

  lemma {:induction false} ReceiveInv(s: State, g: Gid)
    requires Inv(s) && s.PcOf(g).Receive? && s.PcOf(g).lk < |s.heap| && s.heap[s.PcOf(g).lk].tokens >= 1
    ensures Advance(s, g).Some? && Inv(Advance(s, g).value)
  {
    var pc := s.PcOf(g);
    assert RefOk(pc, s.locks) && ShapeOk(pc);
    var c := s.heap[pc.lk];
    assert c.tokens == 1 && !Held(s, pc.n) && !Marked(s, pc.n);
    var s' := s.Poke(pc.lk, c.(tokens := 0)).Goto(g, Mark(pc.op, pc.n, pc.lk)).(held := s.held + {(g, pc.n)});
    assert (g, pc.n) in s'.held;
    PokeInv(s, g, Mark(pc.op, pc.n, pc.lk), c.(tokens := 0), s'.held);
    assert Advance(s, g) == Some(s');
  }

  lemma {:induction false} MarkInv(s: State, g: Gid)
    requires Inv(s) && s.PcOf(g).Mark?
    ensures Advance(s, g).Some? && Inv(Advance(s, g).value)
  {
    var pc := s.PcOf(g);
    assert RefOk(pc, s.locks) && ShapeOk(pc) && CallOk(pc, g, s.held);
    var c := s.heap[pc.lk];
    var s' := s.Poke(pc.lk, c.(locked := true)).Goto(g, Done(pc.op, pc.n, true));
    assert s.held + {(g, pc.n)} == s.held;
    assert (g, pc.n) in s'.held && !Unmarked(s'.PcOf(g), pc.n);
    NobodySeedsWhatIKnow(s, g);
    PokeInv(s, g, Done(pc.op, pc.n, true), c.(locked := true), s.held);
    assert Advance(s, g) == Some(s');
  }

  lemma {:induction false} ClearInv(s: State, g: Gid)
    requires Inv(s) && s.PcOf(g).Clear?
    ensures Advance(s, g).Some? && Inv(Advance(s, g).value)
  {
    var pc := s.PcOf(g);
    assert RefOk(pc, s.locks) && CallOk(pc, g, s.held);
    var c := s.heap[pc.lk];
    var s' := s.Poke(pc.lk, c.(locked := false)).Goto(g, Send(pc.n, pc.lk));
    assert s.held + {(g, pc.n)} == s.held;
    assert !Marked(s', pc.n);
    NobodySeedsWhatIKnow(s, g);
    PokeInv(s, g, Send(pc.n, pc.lk), c.(locked := false), s.held);
    assert Advance(s, g) == Some(s');
  }

  /** A holder's send finds the channel empty, so it never blocks. */
  lemma {:induction false} SendInv(s: State, g: Gid)
    requires Inv(s) && s.PcOf(g).Send?
    ensures Advance(s, g).Some? && Inv(Advance(s, g).value)
  {
    var pc := s.PcOf(g);
    assert RefOk(pc, s.locks) && CallOk(pc, g, s.held);
    var c := s.heap[pc.lk];
    assert Held(s, pc.n) && c.tokens == 0;
    assert !Marked(s, pc.n);
    var s' := s.Poke(pc.lk, c.(tokens := 1)).Goto(g, Done(Unlock, pc.n, true)).(held := s.held - {(g, pc.n)});
    assert !Held(s', pc.n);
    PokeInv(s, g, Done(Unlock, pc.n, true), c.(tokens := 1), s'.held);
    assert Advance(s, g) == Some(s');
  }

  lemma {:induction false} SeedInv(s: State, g: Gid)
    requires Inv(s) && s.PcOf(g).Seed?
    ensures Advance(s, g).Some? && Inv(Advance(s, g).value)
  {
    var pc := s.PcOf(g);
    assert RefOk(pc, s.locks) && ShapeOk(pc) && InMu(pc);
    var pc' := if pc.op.Lock? then Load(pc.n) else DropMu(pc.op, pc.n, Some(pc.lk));
    var s' := s.Poke(pc.lk, Cell(1, false)).Goto(g, pc').(held := s.held - {(g, pc.n)});
    assert s.held - {(g, pc.n)} == s.held by { assert !Held(s, pc.n); }
    SameStatus(s, s', g, pc.n);
    PokeInv(s, g, pc', Cell(1, false), s'.held);
    assert Advance(s, g) == Some(s');
  }

  lemma {:induction false} CreateInv(s: State, g: Gid, op: Op, n: Name)
    requires Inv(s) && s.PcOf(g) == Lookup(op, n) && n !in s.locks && (op.Lock? || op.TryLock?)
    ensures Inv(Advance(s, g).value)
  {
    var lk := |s.heap|;
    var s' := s.(locks := s.locks[n := lk], heap := s.heap + [Cell(0, false)]).Goto(g, Seed(op, n, lk));
    assert Advance(s, g) == Some(s');
    assert forall h: Gid :: s'.PcOf(h) == if h == g then Seed(op, n, lk) else s.PcOf(h);
    SameStatuses(s, s', g);
    assert !Held(s, n) && !Marked(s, n) && InMu(s.PcOf(g));
    PcsCarryOver(s, s', g);
    CreatedCell(s, s', n);
    NewRef(s, g);
    CallsCarryOver(s, s', g);
    hide RefOk, CallOk, ShapeOk, Held, Marked, TokensOk, FlagsOk, MuOk, RefsOk, ShapesOk, CallsOk;
    assert EntriesOk(s') && HoldersOk(s');
    assert SeedOk(s');
  }

  /** Nobody has a record at hand that does not exist yet. */
  lemma {:induction false} NewRef(s: State, g: Gid)
    requires RefsOk(s) && EntriesOk(s)
    ensures forall h: Gid :: RefOf(s.PcOf(h)) != Some(|s.heap|)
  {
    forall h: Gid ensures RefOf(s.PcOf(h)) != Some(|s.heap|) {
      assert RefOk(s.PcOf(h), s.locks);
    }
  }

  lemma {:induction false} CreatedCell(s: State, s': State, n: Name)
    requires EntriesOk(s) && TokensOk(s) && FlagsOk(s) && SeedOk(s) && n !in s.locks
    requires s.mu.Some? && s.mu == s'.mu && s.PcOf(s.mu.value).Lookup? && Seeding(s'.PcOf(s.mu.value), n)
    requires s'.locks == s.locks[n := |s.heap|] && s'.heap == s.heap + [Cell(0, false)]
    requires forall m :: Held(s', m) == Held(s, m) && Marked(s', m) == Marked(s, m)
    requires !Held(s, n) && !Marked(s, n)
    ensures TokensOk(s') && FlagsOk(s')
  {}

  lemma {:induction false} AdvanceInv(s: State, g: Gid)
    requires Inv(s) && Advance(s, g).Some?
    ensures Inv(Advance(s, g).value)
  {
    var pc := s.PcOf(g);
    assert RefOk(pc, s.locks) && ShapeOk(pc) && CallOk(pc, g, s.held);
    if pc.Seed? {
      SeedInv(s, g);
    } else if pc.Mark? {
      MarkInv(s, g);
    } else if pc.Clear? {
      ClearInv(s, g);
    } else if pc.Send? {
      SendInv(s, g);
    } else if pc.Lookup? && pc.n !in s.locks && (pc.op.Lock? || pc.op.TryLock?) {
      CreateInv(s, g, pc.op, pc.n);
    } else if pc.Receive? && s.heap[pc.lk].tokens >= 1 {
      ReceiveInv(s, g);
    } else {
      assert pc.Lookup? && pc.op.Unlock? ==> pc.n in s.locks;
      assert pc.ReadFlag? && pc.op.Unlock? ==> Marked(s, pc.n);
      Moves(s, g);
      var s' := Advance(s, g).value;
      hide Inv, Advance, RefOk, ShapeOk, CallOk;
      MoveInv(s, g, s'.mu, s'.PcOf(g));
    }
  }

  /** The transitions that only move `g`, perhaps taking or dropping the global mutex. */
  lemma {:induction false} Moves(s: State, g: Gid)
    requires Advance(s, g).Some? && (InMu(s.PcOf(g)) <==> s.mu == Some(g))
    requires RefOk(s.PcOf(g), s.locks) && ShapeOk(s.PcOf(g)) && CallOk(s.PcOf(g), g, s.held)
    requires var pc := s.PcOf(g); pc.Lookup? && pc.op.Unlock? ==> pc.n in s.locks
    requires var pc := s.PcOf(g); pc.ReadFlag? && pc.op.Unlock? ==> pc.lk < |s.heap| && s.heap[pc.lk].locked
    requires var pc := s.PcOf(g); !pc.Seed? && !pc.Mark? && !pc.Clear? && !pc.Send?
    requires var pc := s.PcOf(g); !(pc.Lookup? && pc.n !in s.locks && (pc.op.Lock? || pc.op.TryLock?))
    requires var pc := s.PcOf(g); pc.Receive? && pc.lk < |s.heap| ==> s.heap[pc.lk].tokens == 0
    ensures var s', was, pc := Advance(s, g).value, s.PcOf(g), Advance(s, g).value.PcOf(g);
      && s' == s.(mu := s'.mu).Goto(g, pc)
      && (s'.mu == s.mu || (s.mu.None? && s'.mu == Some(g)) || (s.mu == Some(g) && s'.mu.None?))
      && (InMu(pc) <==> s'.mu == Some(g))
      && !pc.Seed? && !pc.Mark? && !pc.Send?
      && (InMu(pc) || RefOf(pc).None? || RefOf(pc) == RefOf(was))
      && RefOk(pc, s.locks) && ShapeOk(pc) && CallOk(pc, g, s.held)
  {}

  lemma {:induction false} ApplyInv(s: State, l: Label)
    requires Inv(s) && Disciplined(s, l) && Apply(s, l).Some?
    ensures Inv(Apply(s, l).value)
  {
    match l
    case Run(g) => AdvanceInv(s, g);
    case Call(g, op, n) => MoveInv(s, g, s.mu, WantMu(op, n)); assert s.(mu := s.mu) == s;
    case Return(g) => MoveInv(s, g, s.mu, Idle); assert s.(mu := s.mu) == s;
  }
}
