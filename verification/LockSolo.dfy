/** The named lock used by one goroutine at a time: the sequential object, and what a stranger's unlock does to it. */
module LockSolo {
  import opened GoStrings
  import opened LockProtocol
  import opened LockProperties
  import opened LockTheorems

  /** `g` runs alone until its call returns or blocks, for at most `fuel` transitions. */
  function RunAlone(s: State, g: Gid, fuel: nat): State
    decreases fuel
  {
    if fuel == 0 then s
    else match Advance(s, g) case None => s case Some(s') => RunAlone(s', g, fuel - 1)
  }

  const LONGEST_CALL := 7

  /** A whole call of an otherwise quiet system. */
  function Solo(s: State, g: Gid, op: Op, n: Name): State {
    RunAlone(s.Goto(g, WantMu(op, n)), g, LONGEST_CALL)
  }

  lemma {:induction false} RunAloneInv(s: State, g: Gid, fuel: nat)
    requires Inv(s)
    ensures Inv(RunAlone(s, g, fuel))
    decreases fuel
  {
    hide Inv, Advance;
    if fuel > 0 && Advance(s, g).Some? {
      AdvanceInv(s, g);
      RunAloneInv(Advance(s, g).value, g, fuel - 1);
    }
  }

  lemma {:induction false} Unfold(s: State, g: Gid, fuel: nat, s': State)
    requires fuel > 0 && Advance(s, g) == Some(s')
    ensures RunAlone(s, g, fuel) == RunAlone(s', g, fuel - 1)
  {}

  lemma {:induction false} Stop(s: State, g: Gid, fuel: nat)
    requires s.PcOf(g).Done?
    ensures RunAlone(s, g, fuel) == s
  {}

  /** The last three transitions of an acquisition. */
  lemma {:induction false} TakeFree(s: State, g: Gid, op: Op, n: Name, fuel: nat)
    requires s.mu == Some(g) && n in s.locks && s.locks[n] < |s.heap| && s.heap[s.locks[n]] == FREE && fuel >= 3
    requires (op.Lock? || op.TryLock?) && s.PcOf(g) == DropMu(op, n, Some(s.locks[n]))
    ensures RunAlone(s, g, fuel) == State(None, s.locks, s.heap[s.locks[n] := TAKEN],
              s.pcs[g := Done(op, n, true)], s.held + {(g, n)})
  {
    var lk := s.locks[n];
    var s1 := s.(mu := None).Goto(g, Receive(op, n, lk));
    var s2 := State(None, s.locks, s.heap[lk := Cell(0, false)], s.pcs[g := Mark(op, n, lk)], s.held + {(g, n)});
    var s3 := State(None, s.locks, s.heap[lk := TAKEN], s.pcs[g := Done(op, n, true)], s.held + {(g, n)});
    Unfold(s, g, fuel, s1);
    assert s1.pcs[g := Mark(op, n, lk)] == s2.pcs;
    Unfold(s1, g, fuel - 1, s2);
    assert s2.pcs[g := Done(op, n, true)] == s3.pcs && s2.heap[lk := TAKEN] == s3.heap;
    Unfold(s2, g, fuel - 2, s3);
    Stop(s3, g, fuel - 3);
  }

  /** `Lock` or `TryLock` of a name that exists and is free. */
  lemma {:induction false} AcquireExisting(s: State, g: Gid, op: Op, n: Name)
    requires s.mu.None? && n in s.locks && s.locks[n] < |s.heap| && CellOf(s, n) == FREE
    requires op.Lock? || op.TryLock?
    ensures Solo(s, g, op, n) == State(None, s.locks, s.heap[s.locks[n] := TAKEN],
              s.pcs[g := Done(op, n, true)], s.held + {(g, n)})
  {
    var s0 := s.Goto(g, WantMu(op, n));
    var s1 := s.(mu := Some(g)).Goto(g, Lookup(op, n));
    var s2 := s.(mu := Some(g)).Goto(g, if op.Lock? then Load(n) else TestFlag(n, s.locks[n]));
    var s3 := s.(mu := Some(g)).Goto(g, DropMu(op, n, Some(s.locks[n])));
    assert s0.pcs[g := Lookup(op, n)] == s1.pcs && s1.pcs[g := s2.PcOf(g)] == s2.pcs;
    assert s2.pcs[g := s3.PcOf(g)] == s3.pcs;
    Unfold(s0, g, 7, s1);
    Unfold(s1, g, 6, s2);
    Unfold(s2, g, 5, s3);
    TakeFree(s3, g, op, n, 4);
    assert s3.pcs[g := Done(op, n, true)] == s.pcs[g := Done(op, n, true)];
  }

  /** The first three transitions of the first acquisition of a name: its entry is created. */
  lemma {:induction false} CreateEntry(s: State, g: Gid, op: Op, n: Name) returns (s3: State)
    requires s.mu.None? && n !in s.locks && (op.Lock? || op.TryLock?)
    ensures s3 == State(Some(g), s.locks[n := |s.heap|], s.heap + [FREE],
              s.pcs[g := if op.Lock? then Load(n) else DropMu(op, n, Some(|s.heap|))], s.held)
    ensures Solo(s, g, op, n) == RunAlone(s3, g, 4)
  {
    var lk := |s.heap|;
    var s0 := s.Goto(g, WantMu(op, n));
    var s1 := s.(mu := Some(g)).Goto(g, Lookup(op, n));
    var s2 := s1.(locks := s.locks[n := lk], heap := s.heap + [Cell(0, false)]).Goto(g, Seed(op, n, lk));
    s3 := s2.(heap := s.heap + [FREE]).Goto(g, if op.Lock? then Load(n) else DropMu(op, n, Some(lk)));
    assert s0.pcs[g := Lookup(op, n)] == s1.pcs;
    Unfold(s0, g, 7, s1);
    Unfold(s1, g, 6, s2);
    assert s2.heap[lk := FREE] == s3.heap;
    Unfold(s2, g, 5, s3);
    assert s3.pcs == s.pcs[g := s3.PcOf(g)];
  }

  /** `Lock` or `TryLock` of a name used for the first time. */
  lemma {:induction false} AcquireNew(s: State, g: Gid, op: Op, n: Name)
    requires s.mu.None? && n !in s.locks && (op.Lock? || op.TryLock?)
    ensures Solo(s, g, op, n) == State(None, s.locks[n := |s.heap|], s.heap + [TAKEN],
              s.pcs[g := Done(op, n, true)], s.held + {(g, n)})
  {
    var lk := |s.heap|;
    var s3 := CreateEntry(s, g, op, n);
    var s4 := s3.Goto(g, DropMu(op, n, Some(lk)));
    if op.Lock? {
      Unfold(s3, g, 4, s4);
      hide RunAlone, Solo, Advance;
      TakeFree(s4, g, op, n, 3);
    } else {
      assert s4.pcs == s3.pcs;
      hide RunAlone, Solo, Advance;
      TakeFree(s3, g, op, n, 4);
    }
    assert s4.pcs[g := Done(op, n, true)] == s.pcs[g := Done(op, n, true)];
    assert s4.heap[lk := TAKEN] == s.heap + [TAKEN];
  }

  lemma {:induction false} TryTaken(s: State, g: Gid, n: Name)
    requires s.mu.None? && n in s.locks && s.locks[n] < |s.heap| && CellOf(s, n) == TAKEN
    ensures Solo(s, g, TryLock, n) == s.Goto(g, Done(TryLock, n, false))
  {
    var s0 := s.Goto(g, WantMu(TryLock, n));
    var s1 := s.(mu := Some(g)).Goto(g, Lookup(TryLock, n));
    var s2 := s.(mu := Some(g)).Goto(g, TestFlag(n, s.locks[n]));
    var s3 := s.(mu := Some(g)).Goto(g, Refuse(n));
    var s4 := s.Goto(g, Done(TryLock, n, false));
    assert s0.pcs[g := s1.PcOf(g)] == s1.pcs && s1.pcs[g := s2.PcOf(g)] == s2.pcs;
    assert s2.pcs[g := s3.PcOf(g)] == s3.pcs && s3.pcs[g := s4.PcOf(g)] == s4.pcs;
    Unfold(s0, g, 7, s1);
    Unfold(s1, g, 6, s2);
    Unfold(s2, g, 5, s3);
    Unfold(s3, g, 4, s4);
    Stop(s4, g, 3);
  }

  /** The last three transitions of a release. */
  lemma {:induction false} ReleaseTail(s: State, g: Gid, n: Name, lk: Ref, fuel: nat)
    requires lk < |s.heap| && s.heap[lk] == TAKEN && s.PcOf(g) == ReadFlag(Unlock, n, lk) && fuel >= 3
    ensures RunAlone(s, g, fuel) == State(s.mu, s.locks, s.heap[lk := FREE],
              s.pcs[g := Done(Unlock, n, true)], s.held - {(g, n)})
  {
    var s4 := s.Goto(g, Clear(n, lk));
    var s5 := s.(heap := s.heap[lk := Cell(0, false)]).Goto(g, Send(n, lk));
    var s6 := State(s.mu, s.locks, s.heap[lk := FREE], s.pcs[g := Done(Unlock, n, true)], s.held - {(g, n)});
    assert s4.pcs[g := s5.PcOf(g)] == s5.pcs && s5.pcs[g := s6.PcOf(g)] == s6.pcs;
    assert s5.heap[lk := FREE] == s6.heap;
    Unfold(s, g, fuel, s4);
    Unfold(s4, g, fuel - 1, s5);
    Unfold(s5, g, fuel - 2, s6);
    Stop(s6, g, fuel - 3);
  }

  /** `Unlock` of a held name, whoever calls it. */
  lemma {:induction false} ReleaseTaken(s: State, g: Gid, n: Name)
    requires s.mu.None? && n in s.locks && s.locks[n] < |s.heap| && CellOf(s, n) == TAKEN
    ensures Solo(s, g, Unlock, n) == State(None, s.locks, s.heap[s.locks[n] := FREE],
              s.pcs[g := Done(Unlock, n, true)], s.held - {(g, n)})
  {
    var lk := s.locks[n];
    var s0 := s.Goto(g, WantMu(Unlock, n));
    var s1 := s.(mu := Some(g)).Goto(g, Lookup(Unlock, n));
    var s2 := s.(mu := Some(g)).Goto(g, DropMu(Unlock, n, Some(lk)));
    var s3 := s.Goto(g, ReadFlag(Unlock, n, lk));
    assert s0.pcs[g := s1.PcOf(g)] == s1.pcs && s1.pcs[g := s2.PcOf(g)] == s2.pcs;
    assert s2.pcs[g := s3.PcOf(g)] == s3.pcs;
    Unfold(s0, g, 7, s1);
    Unfold(s1, g, 6, s2);
    Unfold(s2, g, 5, s3);
    ReleaseTail(s3, g, n, lk, 4);
    assert s3.pcs[g := Done(Unlock, n, true)] == s.pcs[g := Done(Unlock, n, true)];
  }

  /** `Unlock` of a free name changes nothing. */
  lemma {:induction false} ReleaseFree(s: State, g: Gid, n: Name)
    requires s.mu.None? && (n in s.locks ==> s.locks[n] < |s.heap| && !CellOf(s, n).locked)
    ensures Solo(s, g, Unlock, n) == s.Goto(g, Done(Unlock, n, false))
  {
    var found := if n in s.locks then Some(s.locks[n]) else None;
    var s0 := s.Goto(g, WantMu(Unlock, n));
    var s1 := s.(mu := Some(g)).Goto(g, Lookup(Unlock, n));
    var s2 := s.(mu := Some(g)).Goto(g, DropMu(Unlock, n, found));
    var s4 := s.Goto(g, Done(Unlock, n, false));
    assert s0.pcs[g := s1.PcOf(g)] == s1.pcs && s1.pcs[g := s2.PcOf(g)] == s2.pcs;
    Unfold(s0, g, 7, s1);
    Unfold(s1, g, 6, s2);
    if n in s.locks {
      var s3 := s.Goto(g, ReadFlag(Unlock, n, s.locks[n]));
      assert s2.pcs[g := s3.PcOf(g)] == s3.pcs && s3.pcs[g := s4.PcOf(g)] == s4.pcs;
      Unfold(s2, g, 5, s3);
      Unfold(s3, g, 4, s4);
      Stop(s4, g, 3);
    } else {
      assert s2.pcs[g := s4.PcOf(g)] == s4.pcs;
      Unfold(s2, g, 5, s4);
      Stop(s4, g, 4);
    }
  }

  lemma {:induction false} AskLocked(s: State, g: Gid, n: Name)
    requires s.mu.None? && (n in s.locks ==> s.locks[n] < |s.heap|)
    ensures Solo(s, g, IsLocked, n) == s.Goto(g, Done(IsLocked, n, n in s.locks && CellOf(s, n).locked))
  {
    var found := if n in s.locks then Some(s.locks[n]) else None;
    var s0 := s.Goto(g, WantMu(IsLocked, n));
    var s1 := s.(mu := Some(g)).Goto(g, Lookup(IsLocked, n));
    var s2 := s.(mu := Some(g)).Goto(g, DropMu(IsLocked, n, found));
    var s4 := s.Goto(g, Done(IsLocked, n, n in s.locks && CellOf(s, n).locked));
    assert s0.pcs[g := s1.PcOf(g)] == s1.pcs && s1.pcs[g := s2.PcOf(g)] == s2.pcs;
    Unfold(s0, g, 7, s1);
    Unfold(s1, g, 6, s2);
    if n in s.locks {
      var s3 := s.Goto(g, ReadFlag(IsLocked, n, s.locks[n]));
      assert s2.pcs[g := s3.PcOf(g)] == s3.pcs && s3.pcs[g := s4.PcOf(g)] == s4.pcs;
      Unfold(s2, g, 5, s3);
      Unfold(s3, g, 4, s4);
      Stop(s4, g, 3);
    } else {
      assert s2.pcs[g := s4.PcOf(g)] == s4.pcs;
      Unfold(s2, g, 5, s4);
      Stop(s4, g, 4);
    }
  }

  // ---- The sequential object.

  /** The record of every name, as one goroutine at a time sees it. */
  type View = map<Name, Cell>

  ghost function ViewOf(s: State): View
    requires EntriesOk(s)
  {
    map n | n in s.locks :: s.heap[s.locks[n]]
  }

  const FREE := Cell(1, false)
  const TAKEN := Cell(0, true)

  predicate Taken(view: View, n: Name) {
    n in view && view[n].locked
  }

  function TakenNames(view: View): set<Name> {
    set n | n in view && view[n].locked
  }

  function After(view: View, op: Op, n: Name): View {
    match op
    case Lock => view[n := TAKEN]
    case TryLock => if Taken(view, n) then view else view[n := TAKEN]
    case Unlock => if Taken(view, n) then view[n := FREE] else view
    case IsLocked => view
  }

  function ResultOf(view: View, op: Op, n: Name): bool {
    match op
    case Lock => true
    case TryLock => !Taken(view, n)
    case Unlock => Taken(view, n)
    case IsLocked => Taken(view, n)
  }

  lemma {:induction false} TakenAfter(view: View, n: Name)
    ensures n in TakenNames(view) <==> Taken(view, n)
    ensures TakenNames(view[n := TAKEN]) == TakenNames(view) + {n}
    ensures TakenNames(view[n := FREE]) == TakenNames(view) - {n}
    ensures view[n := FREE][n := TAKEN] == view[n := TAKEN]
  {}

  /** Nobody is inside a call. */
  ghost predicate Quiet(s: State) {
    forall g: Gid :: s.PcOf(g).Idle? || s.PcOf(g).Done?
  }

  lemma {:induction false} QuietCells(s: State, n: Name)
    requires Inv(s) && Quiet(s)
    ensures s.mu.None?
    ensures n in s.locks ==> CellOf(s, n) == if Held(s, n) then TAKEN else FREE
  {}

  lemma {:induction false} ViewPoke(s: State, s': State, n: Name, c: Cell)
    requires EntriesOk(s) && EntriesOk(s') && n in s.locks
    requires s'.locks == s.locks && s'.heap == s.heap[s.locks[n] := c]
    ensures ViewOf(s') == ViewOf(s)[n := c]
  {}

  lemma {:induction false} ViewGrow(s: State, s': State, n: Name, c: Cell)
    requires EntriesOk(s) && EntriesOk(s') && n !in s.locks
    requires s'.locks == s.locks[n := |s.heap|] && s'.heap == s.heap + [c]
    ensures ViewOf(s') == ViewOf(s)[n := c]
  {}

  /** One goroutine running alone sees the sequential object. (`Lock` of a held name blocks and does not return; what
      `Unlock` by a stranger does to a held name is below.) */
  lemma {:induction false} SoloIsSequential(s: State, g: Gid, op: Op, n: Name)
    requires Inv(s) && Quiet(s) && s.PcOf(g).Idle?
    requires op.Unlock? ==> (g, n) in s.held || !Held(s, n)
    requires op.Lock? ==> !Held(s, n)
    ensures Inv(Solo(s, g, op, n))
    ensures Solo(s, g, op, n).PcOf(g) == Done(op, n, ResultOf(ViewOf(s), op, n))
    ensures ViewOf(Solo(s, g, op, n)) == After(ViewOf(s), op, n)
  {
    QuietCells(s, n);
    if op.Unlock? && !Held(s, n) {
      ReleaseFree(s, g, n);
      FreeUnlockInv(s, g, n);
      SameView(s, Solo(s, g, op, n));
    } else {
      assert Disciplined(s, Call(g, op, n));
      ApplyInv(s, Call(g, op, n));
      RunAloneInv(s.Goto(g, WantMu(op, n)), g, LONGEST_CALL);
      SoloChangesView(s, g, op, n);
    }
  }

  lemma {:induction false} FreeUnlockInv(s: State, g: Gid, n: Name)
    requires Inv(s) && Quiet(s) && !Held(s, n)
    ensures Inv(s.Goto(g, Done(Unlock, n, false)))
  {
    MoveInv(s, g, s.mu, Done(Unlock, n, false));
    assert s.(mu := s.mu).Goto(g, Done(Unlock, n, false)) == s.Goto(g, Done(Unlock, n, false));
  }

  lemma {:induction false} SoloChangesView(s: State, g: Gid, op: Op, n: Name)
    requires Inv(s) && Quiet(s) && Inv(Solo(s, g, op, n))
    requires op.Unlock? ==> Held(s, n)
    requires op.Lock? ==> !Held(s, n)
    ensures Solo(s, g, op, n).PcOf(g) == Done(op, n, ResultOf(ViewOf(s), op, n))
    ensures ViewOf(Solo(s, g, op, n)) == After(ViewOf(s), op, n)
  {
    QuietCells(s, n);
    var s' := Solo(s, g, op, n);
    assert Held(s, n) ==> n in s.locks;
    assert EntriesOk(s) && EntriesOk(s');
    assert n in s.locks ==> ViewOf(s)[n] == CellOf(s, n);
    hide RunAlone, Solo, Inv, Quiet, Held, EntriesOk, ViewOf;
    if op.Unlock? {
      ReleaseTaken(s, g, n);
      ViewPoke(s, s', n, FREE);
    } else if op.IsLocked? {
      AskLocked(s, g, n);
      SameView(s, s');
    } else if n !in s.locks {
      AcquireNew(s, g, op, n);
      ViewGrow(s, s', n, TAKEN);
    } else if CellOf(s, n) == FREE {
      AcquireExisting(s, g, op, n);
      ViewPoke(s, s', n, TAKEN);
    } else {
      TryTaken(s, g, n);
      SameView(s, s');
    }
  }

  lemma {:induction false} SameView(s: State, s': State)
    requires EntriesOk(s) && EntriesOk(s') && s'.locks == s.locks && s'.heap == s.heap
    ensures ViewOf(s') == ViewOf(s)
  {}

  // ---- Without the discipline mutual exclusion is lost.

  /** Some execution in which only holders unlock leads from one state to the other. */
  ghost predicate Reaches(s: State, s': State) {
    exists states, labels :: IsDisciplined(states, labels) && states[0] == s && states[|labels|] == s'
  }

  lemma {:induction false} ReachesMore(s: State, s': State, l: Label)
    requires Reaches(s, s') && Apply(s', l).Some? && Disciplined(s', l)
    ensures Reaches(s, Apply(s', l).value)
  {
    var states, labels :| IsDisciplined(states, labels) && states[0] == s && states[|labels|] == s';
    var states', labels' := states + [Apply(s', l).value], labels + [l];
    assert IsDisciplined(states', labels') && states'[0] == s && states'[|labels'|] == Apply(s', l).value;
  }

  lemma {:induction false} ReachesSelf(s: State)
    ensures Reaches(s, s)
  {
    var none: seq<Label> := [];
    assert IsDisciplined([s], none) && [s][|none|] == s;
  }

  lemma {:induction false} ReachesInv(s: State, s': State)
    requires Inv(s) && Reaches(s, s')
    ensures Inv(s')
  {
    var states, labels :| IsDisciplined(states, labels) && states[0] == s && states[|labels|] == s';
    KeepsInv(states, labels, |labels|);
  }

  lemma {:induction false} KeepsInv(states: seq<State>, labels: seq<Label>, i: nat)
    requires IsDisciplined(states, labels) && Inv(states[0]) && i < |states|
    ensures Inv(states[i])
  {
    hide Inv;
    if i > 0 {
      KeepsInv(states, labels, i - 1);
      StepAt(states, labels, i - 1);
      ApplyInv(states[i - 1], labels[i - 1]);
    }
  }

  lemma {:induction false} RunAloneReaches(r: State, s: State, g: Gid, fuel: nat)
    requires Reaches(r, s)
    ensures Reaches(r, RunAlone(s, g, fuel))
    decreases fuel
  {
    hide Advance, Reaches;
    if fuel > 0 && Advance(s, g).Some? {
      assert Apply(s, Run(g)) == Advance(s, g);
      ReachesMore(r, s, Run(g));
      RunAloneReaches(r, Advance(s, g).value, g, fuel - 1);
    }
  }

  lemma {:induction false} SoloReaches(r: State, s: State, g: Gid, op: Op, n: Name)
    requires Reaches(r, s) && s.PcOf(g).Idle? && (op.Unlock? ==> (g, n) in s.held)
    ensures Reaches(r, Solo(s, g, op, n))
  {
    hide Reaches;
    ReachesMore(r, s, Call(g, op, n));
    RunAloneReaches(r, s.Goto(g, WantMu(op, n)), g, LONGEST_CALL);
  }

  /** Two goroutines have the same name. */
  ghost predicate Shared(s: State, n: Name) {
    exists a, b :: a != b && (a, n) in s.held && (b, n) in s.held
  }

  /** A goroutine that never did anything. */
  lemma {:induction false} NewGoroutine(busy: set<Gid>) returns (h: Gid)
    ensures forall g | g in busy :: g < h
    decreases |busy|
  {
    h := 0;
    if busy != {} {
      var g :| g in busy;
      var rest := NewGoroutine(busy - {g});
      h := if rest > g then rest else g + 1;
      assert forall x | x in busy :: x == g || x in busy - {g};
    }
  }

  /** After a stranger's `Unlock` of a held name, any idle goroutine gets in beside the holder at once. */
  lemma {:induction false} StrangerLetsIn(s: State, a: Gid, g: Gid, h: Gid, n: Name)
    requires Inv(s) && Quiet(s) && (a, n) in s.held && (g, n) !in s.held
    requires s.PcOf(h).Idle? && h != a && h != g
    ensures var s1 := Solo(s, g, Unlock, n);
      && Reaches(s1, Solo(s1, h, TryLock, n)) && (a, n) in s1.held
      && Solo(s1, h, TryLock, n).held == s.held + {(h, n)}
      && Solo(s1, h, TryLock, n).PcOf(h) == Done(TryLock, n, true)
  {
    QuietCells(s, n);
    assert Held(s, n) && n in s.locks;
    ReleaseTaken(s, g, n);
    hide Solo, Reaches, Inv, Quiet;
    var s1 := Solo(s, g, Unlock, n);
    assert s1.held == s.held;
    ReachesSelf(s1);
    AcquireExisting(s1, h, TryLock, n);
    SoloReaches(s1, s1, h, TryLock, n);
  }

  /** A stranger's `Unlock` in a quiet system breaks mutual exclusion exactly when the name is held: then callers that
      keep the discipline from there on can come to share the name, and otherwise they never can. */
  lemma {:induction false} StrangersUnlockBreaksExactly(s: State, g: Gid, n: Name)
    requires Inv(s) && Quiet(s) && s.PcOf(g).Idle? && (g, n) !in s.held
    ensures (exists s' :: Reaches(Solo(s, g, Unlock, n), s') && Shared(s', n)) <==> Held(s, n)
  {
    var s1 := Solo(s, g, Unlock, n);
    if a: Gid :| (a, n) in s.held {
      var h := NewGoroutine(s.pcs.Keys + {a, g});
      StrangerLetsIn(s, a, g, h, n);
      var s2 := Solo(s1, h, TryLock, n);
      assert (a, n) in s2.held && (h, n) in s2.held;
      assert Reaches(s1, s2) && Shared(s2, n);
    } else {
      QuietCells(s, n);
      ReleaseFree(s, g, n);
      FreeUnlockInv(s, g, n);
      assert Inv(s1);
      hide Inv, Solo, Reaches, Quiet;
      forall s' | Reaches(s1, s') ensures !Shared(s', n) {
        ReachesInv(s1, s');
        InvExcludes(s', n);
      }
    }
  }

  lemma {:induction false} InvExcludes(s: State, n: Name)
    requires Inv(s)
    ensures !Shared(s, n)
  {}

  /** Goroutine 1 locks "a", goroutine 2 unlocks it without holding it, and goroutine 3 gets in beside 1. */
  lemma {:induction false} StrangersUnlockBreaksExclusion()
    ensures var s1 := Solo(INIT, 1, Lock, "a");
      var s2 := Solo(s1, 2, Unlock, "a");
      Solo(s2, 3, TryLock, "a").held == {(1, "a"), (3, "a")}
  {
    var s1 := Solo(INIT, 1, Lock, "a");
    AcquireNew(INIT, 1, Lock, "a");
    var s2 := Solo(s1, 2, Unlock, "a");
    ReleaseTaken(s1, 2, "a");
    AcquireExisting(s2, 3, TryLock, "a");
  }
}
