/**
 * `utils/namedmutex.go` as it runs: any number of goroutines inside `Lock`, `Unlock`, `TryLock` and `IsLocked`
 * at once, one atomic transition for each access to the global mutex, the map, a token channel or a flag.
 */
module LockProtocol {
  import opened GoStrings

  type Name = string
  type Gid = nat
  /** The address of a `lock` record. */
  type Ref = nat

  /** A `lock`: the number of tokens buffered in its one-slot channel, and its flag. */
  datatype Cell = Cell(tokens: nat, locked: bool)

  datatype Op = Lock | Unlock | TryLock | IsLocked

  /** Where a goroutine stands: the statement it executes next. */
  datatype Pc =
    | Idle
    | WantMu(op: Op, n: Name)                     // n.mu.Lock()
    | Lookup(op: Op, n: Name)                     // look the name up; create the entry if it must exist
    | Seed(op: Op, n: Name, lk: Ref)              // send the first token of a new entry
    | Load(n: Name)                               // lk := n.locks[name]
    | TestFlag(n: Name, lk: Ref)                  // TryLock's early test of lk.locked
    | DropMu(op: Op, n: Name, found: Option<Ref>) // n.mu.Unlock()
    | Refuse(n: Name)                             // n.mu.Unlock(); return false
    | Receive(op: Op, n: Name, lk: Ref)           // <-lk.mutex
    | Mark(op: Op, n: Name, lk: Ref)              // lk.locked = true
    | ReadFlag(op: Op, n: Name, lk: Ref)          // lk.locked
    | Clear(n: Name, lk: Ref)                     // lk.locked = false
    | Send(n: Name, lk: Ref)                      // lk.mutex <- struct{}{}
    | Done(op: Op, n: Name, result: bool)         // about to return

  /** `held` records who received a name's token and has not sent it back; no transition reads it. */
  datatype State = State(
    mu: Option<Gid>, locks: map<Name, Ref>, heap: seq<Cell>, pcs: map<Gid, Pc>, held: set<(Gid, Name)>)
  {
    function PcOf(g: Gid): Pc {
      if g in pcs then pcs[g] else Idle
    }

    function Goto(g: Gid, pc: Pc): State {
      this.(pcs := pcs[g := pc])
    }

    function Poke(lk: Ref, c: Cell): State
      requires lk < |heap|
    {
      this.(heap := heap[lk := c])
    }
  }

  const INIT := State(None, map[], [], map[], {})

  /** The next transition of a goroutine inside a call; `None` when it is blocked, idle or done. */
  function Advance(s: State, g: Gid): Option<State> {
    match s.PcOf(g)
    case Idle => None
    case Done(_, _, _) => None
    case WantMu(op, n) =>
      if s.mu.Some? then None else Some(s.(mu := Some(g)).Goto(g, Lookup(op, n)))
    case Lookup(op, n) =>
      if n in s.locks then
        Some(s.Goto(g, match op
                       case Lock => Load(n)
                       case TryLock => TestFlag(n, s.locks[n])
                       case Unlock => DropMu(op, n, Some(s.locks[n]))
                       case IsLocked => DropMu(op, n, Some(s.locks[n]))))
      else if op.Lock? || op.TryLock? then
        var lk := |s.heap|;
        Some(s.(locks := s.locks[n := lk], heap := s.heap + [Cell(0, false)]).Goto(g, Seed(op, n, lk)))
      else
        Some(s.Goto(g, DropMu(op, n, None)))
    case Seed(op, n, lk) =>
      if lk < |s.heap| && s.heap[lk].tokens == 0 then
        Some(s.Poke(lk, s.heap[lk].(tokens := 1)).Goto(g, if op.Lock? then Load(n) else DropMu(op, n, Some(lk))))
      else None
    case Load(n) =>
      if n in s.locks then Some(s.Goto(g, DropMu(Lock, n, Some(s.locks[n])))) else None
    case TestFlag(n, lk) =>
      if lk >= |s.heap| then None
      else Some(s.Goto(g, if s.heap[lk].locked then Refuse(n) else DropMu(TryLock, n, Some(lk))))
    case DropMu(op, n, found) =>
      Some(s.(mu := None).Goto(g, match found
                                  case None => Done(op, n, false)
                                  case Some(lk) =>
                                    if op.Lock? || op.TryLock? then Receive(op, n, lk) else ReadFlag(op, n, lk)))
    case Refuse(n) =>
      Some(s.(mu := None).Goto(g, Done(TryLock, n, false)))
    case Receive(op, n, lk) =>
      if lk < |s.heap| && s.heap[lk].tokens >= 1 then
        Some(s.Poke(lk, s.heap[lk].(tokens := s.heap[lk].tokens - 1))
              .Goto(g, Mark(op, n, lk)).(held := s.held + {(g, n)}))
      else if op.TryLock? then Some(s.Goto(g, Done(op, n, false)))
      else None
    case Mark(op, n, lk) =>
      if lk >= |s.heap| then None
      else Some(s.Poke(lk, s.heap[lk].(locked := true)).Goto(g, Done(op, n, true)))
    case ReadFlag(op, n, lk) =>
      if lk >= |s.heap| then None
      else Some(s.Goto(g, if op.Unlock? && s.heap[lk].locked then Clear(n, lk) else Done(op, n, s.heap[lk].locked)))
    case Clear(n, lk) =>
      if lk >= |s.heap| then None
      else Some(s.Poke(lk, s.heap[lk].(locked := false)).Goto(g, Send(n, lk)))
    case Send(n, lk) =>
      if lk < |s.heap| && s.heap[lk].tokens == 0 then
        Some(s.Poke(lk, s.heap[lk].(tokens := 1)).Goto(g, Done(Unlock, n, true)).(held := s.held - {(g, n)}))
      else None
  }

  /** What happens next, and to whom. */
  datatype Label = Call(g: Gid, op: Op, n: Name) | Run(g: Gid) | Return(g: Gid)

  function Apply(s: State, l: Label): Option<State> {
    match l
    case Call(g, op, n) => if s.PcOf(g).Idle? then Some(s.Goto(g, WantMu(op, n))) else None
    case Run(g) => Advance(s, g)
    case Return(g) => if s.PcOf(g).Done? then Some(s.Goto(g, Idle)) else None
  }

  /** The discipline the callers keep: only a holder unlocks. */
  predicate Disciplined(s: State, l: Label) {
    l.Call? && l.op.Unlock? ==> (l.g, l.n) in s.held
  }

  ghost predicate IsExecution(states: seq<State>, labels: seq<Label>) {
    && |states| == |labels| + 1
    && forall i | 0 <= i < |labels| :: Apply(states[i], labels[i]) == Some(states[i + 1])
  }

  ghost predicate IsDisciplined(states: seq<State>, labels: seq<Label>) {
    && IsExecution(states, labels)
    && forall i | 0 <= i < |labels| :: Disciplined(states[i], labels[i])
  }

  predicate InMu(pc: Pc) {
    pc.Lookup? || pc.Seed? || pc.Load? || pc.TestFlag? || pc.DropMu? || pc.Refuse?
  }

  /** The `lock` record a goroutine has at hand. */
  function RefOf(pc: Pc): Option<Ref> {
    match pc
    case Seed(_, _, lk) => Some(lk)
    case TestFlag(_, lk) => Some(lk)
    case DropMu(_, _, found) => found
    case Receive(_, _, lk) => Some(lk)
    case Mark(_, _, lk) => Some(lk)
    case ReadFlag(_, _, lk) => Some(lk)
    case Clear(_, lk) => Some(lk)
    case Send(_, lk) => Some(lk)
    case _ => None
  }

  function OpOf(pc: Pc): Option<Op> {
    match pc
    case Idle => None
    case Load(_) => Some(Lock)
    case TestFlag(_, _) => Some(TryLock)
    case Refuse(_) => Some(TryLock)
    case Clear(_, _) => Some(Unlock)
    case Send(_, _) => Some(Unlock)
    case _ => Some(pc.op)
  }

  predicate InCall(pc: Pc, op: Op, n: Name) {
    OpOf(pc) == Some(op) && pc.n == n
  }

  /** Past the receive of an acquisition that succeeded. */
  predicate Acquired(pc: Pc, n: Name) {
    (pc.Mark? && pc.n == n) || (pc.Done? && pc.n == n && pc.result && (pc.op.Lock? || pc.op.TryLock?))
  }

  /** `TryLock` has decided to return false. */
  predicate Refused(pc: Pc, n: Name) {
    pc == Refuse(n) || pc == Done(TryLock, n, false)
  }

  predicate Names(pc: Pc, n: Name) {
    !pc.Idle? && pc.n == n
  }

  predicate Seeding(pc: Pc, n: Name) {
    pc.Seed? && pc.n == n
  }

  /** Received but not yet marked, or cleared but not yet sent. */
  predicate Unmarked(pc: Pc, n: Name) {
    (pc.Mark? || pc.Send?) && pc.n == n
  }

  /** Goroutine `g` is inside `Unlock(n)` and has not sent the token yet. */
  predicate Releasing(pc: Pc) {
    pc.Clear? || pc.Send? || ((pc.WantMu? || pc.Lookup? || pc.DropMu? || pc.ReadFlag?) && pc.op.Unlock?)
  }

  ghost predicate Held(s: State, n: Name) {
    exists g :: (g, n) in s.held
  }

  /** A holder that is past its mark and before its clear. */
  ghost predicate Marked(s: State, n: Name) {
    exists g: Gid :: (g, n) in s.held && !Unmarked(s.PcOf(g), n)
  }

  ghost predicate Seeded(s: State, n: Name) {
    s.mu.Some? && Seeding(s.PcOf(s.mu.value), n)
  }

  ghost predicate MuOk(s: State) {
    forall g: Gid :: InMu(s.PcOf(g)) <==> s.mu == Some(g)
  }

  ghost predicate EntriesOk(s: State) {
    && (forall n | n in s.locks :: s.locks[n] < |s.heap|)
    && (forall m, n | m in s.locks && n in s.locks && m != n :: s.locks[m] != s.locks[n])
  }

  predicate RefOk(pc: Pc, locks: map<Name, Ref>) {
    && (RefOf(pc).Some? ==> pc.n in locks && locks[pc.n] == RefOf(pc).value)
    && (pc.Load? ==> pc.n in locks)
  }

  ghost predicate RefsOk(s: State) {
    forall g: Gid :: RefOk(s.PcOf(g), s.locks)
  }

  predicate ShapeOk(pc: Pc) {
    match pc
    case Seed(op, _, _) => op.Lock? || op.TryLock?
    case Receive(op, _, _) => op.Lock? || op.TryLock?
    case Mark(op, _, _) => op.Lock? || op.TryLock?
    case DropMu(op, _, found) => found.None? ==> op.IsLocked?
    case ReadFlag(op, _, _) => op.Unlock? || op.IsLocked?
    case Done(op, _, result) => op.Lock? ==> result
    case _ => true
  }

  ghost predicate ShapesOk(s: State) {
    forall g: Gid :: ShapeOk(s.PcOf(g))
  }

  /** While an entry is being created nobody else knows it. */
  ghost predicate SeedOk(s: State) {
    s.mu.Some? && s.PcOf(s.mu.value).Seed? ==>
      var pc := s.PcOf(s.mu.value);
      && pc.lk < |s.heap| && s.heap[pc.lk] == Cell(0, false)
      && !Held(s, pc.n)
      && forall h: Gid | h != s.mu.value :: RefOf(s.PcOf(h)) != Some(pc.lk)
  }

  /** One token per name: in the channel, with a holder, or about to be sent for the first time. */
  ghost predicate TokensOk(s: State) {
    forall n | n in s.locks && s.locks[n] < |s.heap| ::
      var tokens := s.heap[s.locks[n]].tokens;
      && tokens <= 1
      && (tokens == 1 <==> !Held(s, n) && !Seeded(s, n))
  }

  ghost predicate HoldersOk(s: State) {
    && (forall g, n | (g, n) in s.held :: n in s.locks)
    && (forall g, h, n | (g, n) in s.held && (h, n) in s.held :: g == h)
  }

  predicate CallOk(pc: Pc, g: Gid, held: set<(Gid, Name)>) {
    && (pc.Mark? || Releasing(pc) ==> (g, pc.n) in held)
    && (pc.Done? && pc.result && (pc.op.Lock? || pc.op.TryLock?) ==> (g, pc.n) in held)
    && (pc.Done? && pc.op.Unlock? ==> (g, pc.n) !in held)
  }

  ghost predicate CallsOk(s: State) {
    forall g: Gid :: CallOk(s.PcOf(g), g, s.held)
  }

  ghost predicate FlagsOk(s: State) {
    forall n | n in s.locks && s.locks[n] < |s.heap| ::
      s.heap[s.locks[n]].locked <==> Marked(s, n)
  }

  ghost predicate Inv(s: State) {
    MuOk(s) && EntriesOk(s) && RefsOk(s) && ShapesOk(s) && SeedOk(s) && TokensOk(s) && HoldersOk(s) && CallsOk(s)
    && FlagsOk(s)
  }
}
