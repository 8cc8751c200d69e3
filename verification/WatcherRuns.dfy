/**
 * What the operator and the cronjob have in common, as functions of the server's script: what the two annotation edits
 * under the named lock, the wait and a whole renewal run do, and what follows from that.
 */
module WatcherRuns {
  import opened GoStrings
  import opened GoTime
  import opened IngressStore
  import opened Cluster
  import SecretName

  datatype Error =
    | KeyLocked | GetFailed | UpdateFailed | PollFailed | Panic
    | ListFailed | SecretUnreadable | DeleteFailed | AdapterFailed | WatchFailed

  /** Everything that a watcher's steps may depend on and change: the keys it holds, the server and its clock, the next
      event, the caller's copy and the log. */
  datatype Locked = Locked(held: set<Key>, store: Store, tick: nat, clock: int, ing: Ingress, log: seq<Entry>)

  datatype Outcome = Outcome(now: Locked, err: Option<Error>)

  /** The copy in hand when there is none. */
  const NOBODY := Ingress("", 0, map[], map[], [], [])

  /** The deadline of the surrounding context, if it has one, and the timeout of the wait. */
  datatype Limits = Limits(parent: Option<int>, timeout: int)

  /** The next event: others act while a request is under way, or for `time` at least. */
  ghost function Passed(script: Script, s: Locked, time: nat): Locked {
    var e := script(s.tick);
    s.(store := ApplyEdits(s.store, e.edits), tick := s.tick + 1, clock := s.clock + time + e.elapsed)
  }

  ghost function Noted(s: Locked, e: Entry): Locked {
    s.(log := s.log + [e])
  }

  // ---- The locked edits.

  /**
   * `removeHTTPSAnnotation` or `addHTTPSAnnotation`, for the edit `f`. A held key is refused with nothing changed. A
   * failed Get leaves the key held. Otherwise the key is released, and the edit lands if the Update does not fail and
   * the server still holds the object that was fetched; then that object is changed by `f` and by nothing else.
   */
  ghost function EditRun(script: Script, f: Ingress -> Ingress, was: Locked): Outcome {
    var k := was.ing.key;
    var got := Passed(script, was, 0);
    var put := Passed(script, got, 0);
    if k in was.held then
      Outcome(was, Some(KeyLocked))
    else if script(was.tick).fault || k !in got.store.objs then
      Outcome(got.(held := was.held + {k}), Some(GetFailed))
    else if script(got.tick).fault || k !in put.store.objs || put.store.objs[k] != got.store.objs[k] then
      Outcome(put.(ing := f(got.store.objs[k])), Some(UpdateFailed))
    else
      var after := f(put.store.objs[k]).(version := put.store.rev + 1);
      var stored := put.(store := Store(put.store.rev + 1, put.store.objs[k := after]), ing := after);
      Outcome(Noted(stored, Wrote(put.store.objs[k], after)), None)
  }

  /** The edit fails for exactly four reasons: the key is held, the Get fails, the Update fails, or somebody else writes
      to the ingress between the two. */
  lemma {:induction false} EditLandsExactly(script: Script, f: Ingress -> Ingress, was: Locked)
    requires StoreOk(was.store)
    ensures var k, t := was.ing.key, was.tick;
      EditRun(script, f, was).err.None? <==>
        && k !in was.held && !script(t).fault && k in ApplyEdits(was.store, script(t).edits).objs
        && !script(t + 1).fault && !WritesTo(script(t + 1).edits, k)
  {
    var k, got := was.ing.key, Passed(script, was, 0);
    EditsKeepStore(was.store, script(was.tick).edits);
    hide WritesTo, ApplyEdits, StoreOk;
    if k in got.store.objs {
      UntouchedExactly(got.store, script(got.tick).edits, k);
    }
  }

  /** Between the Get and the Update the versions agree exactly when the object is the one that was fetched. */
  lemma {:induction false} VersionsAgree(st: Store, edits: seq<Edit>, base: Ingress, copy: Ingress)
    requires StoreOk(st) && base.key in st.objs && st.objs[base.key] == base
    requires copy.key == base.key && copy.version == base.version
    ensures var st' := ApplyEdits(st, edits);
      CanUpdate(st', copy) <==> base.key in st'.objs && st'.objs[base.key] == base
  {
    EditsKeep(st, edits, base);
  }

  /** The Get and the Update of a locked edit, once the key was free and the Get was answered: `put` is the state after
      the Update, with the key still held. */
  lemma {:induction false} EditPut(script: Script, f: Ingress -> Ingress, was: Locked, put: Locked,
                                   stored: Option<Ingress>)
    requires StoreOk(was.store) && was.ing.key !in was.held
    requires forall ing :: f(ing).key == ing.key && f(ing).version == ing.version
    requires var got := Passed(script, was.(held := was.held + {was.ing.key}), 0);
      StoreOk(got.store) && !script(was.tick).fault && was.ing.key in got.store.objs
    requires var got := Passed(script, was.(held := was.held + {was.ing.key}), 0);
      var copy := f(got.store.objs[was.ing.key]);
      IsPut(script, got.(ing := copy), put, stored)
    ensures var got := Passed(script, was.(held := was.held + {was.ing.key}), 0);
      EditRun(script, f, was) == (match stored
                                  case None => Outcome(put.(held := was.held), Some(UpdateFailed))
                                  case Some(ing) => Outcome(put.(held := was.held, ing := ing), None))
  {
    hide ApplyEdits;
    var got := Passed(script, was, 0);
    VersionsAgree(got.store, script(got.tick).edits, got.store.objs[was.ing.key], f(got.store.objs[was.ing.key]));
  }

  /** An Update of the caller's copy. */
  ghost predicate IsPut(script: Script, was: Locked, now: Locked, stored: Option<Ingress>) {
    var passed, copy := Passed(script, was, 0), was.ing;
    if script(was.tick).fault || !CanUpdate(passed.store, copy) then
      stored == None && now == passed
    else
      && stored == Some(Stamp(passed.store, copy))
      && now == passed.(store := Update(passed.store, copy),
                        log := passed.log + [Wrote(passed.store.objs[copy.key], stored.value)])
  }

  // ---- What follows from an edit run.

  predicate IsStrip(e: Entry, k: Key) {
    e.Wrote? && e.before.key == k && e.after == WithoutBackend(e.before).(version := e.after.version)
  }

  predicate IsRestore(e: Entry, k: Key) {
    e.Wrote? && e.before.key == k && e.after == WithHttps(e.before).(version := e.after.version)
  }

  /** Nobody but the watcher changes the TLS entries of `k`, or deletes it. */
  ghost predicate QuietTls(script: Script, k: Key) {
    forall i: nat, e | e in script(i).edits :: KeepsTls(e, k)
  }

  /** Nobody deletes `k`. */
  ghost predicate Undeleted(script: Script, k: Key) {
    forall i: nat, e | e in script(i).edits :: e.Drop? ==> e.k != k
  }

  /** From `st` to `st'` the first secret name of each of `renamed` has moved on by exactly one version, and nothing
      else about TLS entries has changed, of all ingresses whose TLS entries others leave alone. */
  ghost predicate Shifted(script: Script, st: Store, st': Store, renamed: set<Key>) {
    forall k | QuietTls(script, k) :: Moved(st, st', k, k in renamed)
  }

  ghost predicate Moved(st: Store, st': Store, k: Key, renamed: bool) {
    k in st.objs ==>
      && k in st'.objs && (renamed ==> st.objs[k].tls != [])
      && st'.objs[k].tls == if renamed then HeadRenamed(st.objs[k].tls) else st.objs[k].tls
  }

  lemma {:induction false} ShiftedTwice(script: Script, a: Store, b: Store, c: Store, first: set<Key>,
                                        second: set<Key>)
    requires Shifted(script, a, b, first) && Shifted(script, b, c, second) && first !! second
    ensures Shifted(script, a, c, first + second)
  {
    hide QuietTls, HeadRenamed;
    forall k | QuietTls(script, k) ensures Moved(a, c, k, k in first + second) {
      assert Moved(a, b, k, k in first) && Moved(b, c, k, k in second);
    }
  }

  lemma {:induction false} SteadyTwice(script: Script, a: Store, b: Store, c: Store)
    requires Shifted(script, a, b, {}) && Shifted(script, b, c, {})
    ensures Shifted(script, a, c, {})
  {
    ShiftedTwice(script, a, b, c, {}, {});
    var none: set<Key> := {};
    assert none + none == none;
  }

  lemma {:induction false} EditsShift(script: Script, st: Store, tick: nat)
    ensures Shifted(script, st, ApplyEdits(st, script(tick).edits), {})
  {
    forall k | QuietTls(script, k) ensures Moved(st, ApplyEdits(st, script(tick).edits), k, false) {
      EditsKeepTls(st, script(tick).edits, k);
    }
  }

  /** The TLS entries with the first secret moved to its next name. */
  ghost function HeadRenamed(tls: seq<Tls>): seq<Tls>
    requires tls != []
  {
    tls[0 := tls[0].(secretName := SecretName.Next(tls[0].secretName))]
  }

  /** The log gained the one write that changed the server's object by `f`. */
  ghost predicate IsEdit(f: Ingress -> Ingress, was: Locked, now: Locked) {
    && |now.log| == |was.log| + 1 && now.log[|was.log|].Wrote? && now.log == was.log + [now.log[|was.log|]]
    && var e := now.log[|was.log|];
       e.before.key == was.ing.key && e.after == now.ing == f(e.before).(version := now.ing.version)
  }

  lemma {:induction false} EditRunFacts(script: Script, f: Ingress -> Ingress, was: Locked)
    requires StoreOk(was.store)
    requires forall ing :: f(ing).key == ing.key && f(ing).tls == ing.tls
    ensures var now, err := EditRun(script, f, was).now, EditRun(script, f, was).err;
      && now.ing.key == was.ing.key && was.tick <= now.tick <= was.tick + 2 && was.clock <= now.clock
      && (err.None? ==> now.ing.key in now.store.objs && now.store.objs[now.ing.key] == now.ing)
      && now.held == (if err == Some(GetFailed) then was.held + {was.ing.key} else was.held)
      && (err == Some(KeyLocked) <==> was.ing.key in was.held)
      && (err.Some? ==> now.log == was.log && err.value in {KeyLocked, GetFailed, UpdateFailed})
      && (err.None? ==> IsEdit(f, was, now))
      && (err.Some? ==> now.store == OthersOnly(script, was.store, was.tick, now.tick))
      && StoreOk(now.store) && Shifted(script, was.store, now.store, {})
  {
    var k, t := was.ing.key, was.tick;
    EditRunShifts(script, f, was);
    hide Shifted, ApplyEdits;
    assert OthersOnly(script, was.store, t, t) == was.store;
    if k !in was.held {
      var s1 := ApplyEdits(was.store, script(t).edits);
      EditsKeepStore(was.store, script(t).edits);
      assert OthersOnly(script, was.store, t, t + 1) == s1;
      EditsKeepStore(s1, script(t + 1).edits);
      assert OthersOnly(script, was.store, t, t + 2) == ApplyEdits(s1, script(t + 1).edits);
    }
  }

  lemma {:induction false} EditRunShifts(script: Script, f: Ingress -> Ingress, was: Locked)
    requires forall ing :: f(ing).key == ing.key && f(ing).tls == ing.tls
    ensures Shifted(script, was.store, EditRun(script, f, was).now.store, {})
  {
    var k, t, out := was.ing.key, was.tick, EditRun(script, f, was);
    SteadySelf(script, was.store);
    if k !in was.held {
      var s1 := ApplyEdits(was.store, script(t).edits);
      var s2 := ApplyEdits(s1, script(t + 1).edits);
      EditsShift(script, was.store, t);
      EditsShift(script, s1, t + 1);
      SteadyTwice(script, was.store, s1, s2);
      if out.err.None? {
        PutShifts(script, s2, out.now.store, k);
        SteadyTwice(script, was.store, s2, out.now.store);
      }
    }
  }

  lemma {:induction false} SteadySelf(script: Script, st: Store)
    ensures Shifted(script, st, st, {})
  {}

  lemma {:induction false} PutShifts(script: Script, st: Store, st': Store, k: Key)
    requires k in st.objs && k in st'.objs && st'.objs == st.objs[k := st'.objs[k]]
    requires st'.objs[k].tls == st.objs[k].tls
    ensures Shifted(script, st, st', {})
  {}

  /** The server after the events `start` up to `until` with no write of the watcher's own. */
  ghost function OthersOnly(script: Script, st: Store, start: nat, until: nat): Store {
    if until <= start then st else ApplyEdits(OthersOnly(script, st, start, until - 1), script(until - 1).edits)
  }

  lemma {:induction false} OthersKeepStore(script: Script, st: Store, start: nat, until: nat)
    requires StoreOk(st)
    ensures StoreOk(OthersOnly(script, st, start, until))
    decreases until
  {
    if until > start {
      OthersKeepStore(script, st, start, until - 1);
      EditsKeepStore(OthersOnly(script, st, start, until - 1), script(until - 1).edits);
    }
  }

  lemma {:induction false} OthersShift(script: Script, st: Store, start: nat, until: nat)
    ensures Shifted(script, st, OthersOnly(script, st, start, until), {})
    decreases until
  {
    if until > start {
      var mid := OthersOnly(script, st, start, until - 1);
      OthersShift(script, st, start, until - 1);
      EditsShift(script, mid, until - 1);
      SteadyTwice(script, st, mid, OthersOnly(script, st, start, until));
    }
  }

  lemma {:induction false} OthersKeepBackend(script: Script, st: Store, start: nat, until: nat, k: Key)
    requires Undeleted(script, k)
    ensures SameBackend(st, OthersOnly(script, st, start, until), k)
    decreases until
  {
    if until > start {
      OthersKeepBackend(script, st, start, until - 1, k);
      EditsKeepBackend(OthersOnly(script, st, start, until - 1), script(until - 1).edits, k);
    }
  }

  lemma {:induction false} OthersCompose(script: Script, st: Store, a: nat, b: nat, c: nat)
    requires a <= b <= c
    ensures OthersOnly(script, OthersOnly(script, st, a, b), b, c) == OthersOnly(script, st, a, c)
    decreases c
  {
    if b < c {
      OthersCompose(script, st, a, b, c - 1);
    }
  }

  // ---- The wait.

  /** The deadline of the wait, or that of the context around it, is not later than `at`. */
  predicate Expired(lim: Limits, start: int, at: int) {
    at >= start + lim.timeout || (lim.parent.Some? && at >= lim.parent.value)
  }

  /**
   * `waitForChallengeAbsence` from the poll after those that found `seen`, the wait having begun at `start`. A reply at
   * or after the deadline is a failed poll. A miss sleeps for a second; after a success the clock is read once more.
   */
  ghost function WaitRun(script: Script, lim: Limits, start: int, s: Locked, seen: seq<Scan>): Outcome
    decreases start + lim.timeout - s.clock
  {
    var k, got := s.ing.key, Passed(script, s, 0);
    if Expired(lim, start, s.clock) then
      Outcome(Noted(s, Waited(k, lim.timeout, Sentinel(lim.timeout), true, seen)), None)
    else if script(s.tick).fault || k !in got.store.objs || Expired(lim, start, got.clock) then
      Outcome(got, Some(PollFailed))
    else
      var scan := ScanRules(got.store.objs[k].rules);
      match scan
      case NilHttp => Outcome(got, Some(Panic))
      case Found => WaitRun(script, lim, start, Passed(script, got, SECOND), seen + [scan])
      case Absent =>
        var read := Passed(script, got, 0);
        Outcome(Noted(read, Waited(k, lim.timeout, Saturate(read.clock - start), false, seen + [scan])), None)
  }

  /** A finished wait is truthful: it ended on a poll that saw no challenge under any rule, or the deadline passed
      and every poll had seen one. */
  ghost predicate IsWait(e: Entry, k: Key, timeout: int) {
    && e.Waited? && e.key == k && e.timeout == timeout
    && (forall i | 0 <= i < |e.seen| - 1 :: e.seen[i].Found?)
    && (e.timedOut ==> e.took == Sentinel(timeout) && forall i | 0 <= i < |e.seen| :: e.seen[i].Found?)
    && (!e.timedOut ==> e.took >= 0 && |e.seen| >= 1 && e.seen[|e.seen| - 1].Absent?)
  }

  lemma {:induction false} WaitRunFacts(script: Script, lim: Limits, start: int, s: Locked, seen: seq<Scan>)
    requires StoreOk(s.store) && start <= s.clock && forall i | 0 <= i < |seen| :: seen[i].Found?
    ensures var now, err := WaitRun(script, lim, start, s, seen).now, WaitRun(script, lim, start, s, seen).err;
      && StoreOk(now.store) && s.tick <= now.tick && s.clock <= now.clock && now.ing == s.ing && now.held == s.held
      && (err.Some? ==> now.log == s.log && err.value in {PollFailed, Panic})
      && (err.None? ==> |now.log| == |s.log| + 1 && now.log == s.log + [now.log[|s.log|]]
                        && IsWait(now.log[|s.log|], s.ing.key, lim.timeout))
      && now.store == OthersOnly(script, s.store, s.tick, now.tick)
    decreases start + lim.timeout - s.clock
  {
    hide ScanRules, Sentinel, ApplyEdits, Expired;
    var got := Passed(script, s, 0);
    var next := Passed(script, got, SECOND);
    EditsKeepStore(s.store, script(s.tick).edits);
    EditsKeepStore(got.store, script(got.tick).edits);
    assert OthersOnly(script, s.store, s.tick, s.tick) == s.store;
    assert OthersOnly(script, s.store, s.tick, s.tick + 1) == got.store;
    assert OthersOnly(script, s.store, s.tick, s.tick + 2) == next.store == Passed(script, got, 0).store;
    if !Expired(lim, start, s.clock) && !script(s.tick).fault && s.ing.key in got.store.objs
       && !Expired(lim, start, got.clock) && ScanRules(got.store.objs[s.ing.key].rules).Found? {
      NotYetExpired(lim, start, s.clock);
      WaitRunFacts(script, lim, start, next, seen + [Found]);
      OthersCompose(script, s.store, s.tick, next.tick, WaitRun(script, lim, start, next, seen + [Found]).now.tick);
    }
  }

  lemma {:induction false} NotYetExpired(lim: Limits, start: int, at: int)
    requires !Expired(lim, start, at)
    ensures at < start + lim.timeout
  {}

  /** Each poll is two events, its Get and the sleep or the reading of the clock after it, or one if it fails. Each miss
      sleeps for a second, so a timeout of `d` seconds means at most `d` polls. */
  lemma {:induction false} PollsAtMost(script: Script, lim: Limits, start: int, s: Locked, seen: seq<Scan>)
    requires s.clock - start >= |seen| * SECOND
    ensures var events := WaitRun(script, lim, start, s, seen).now.tick - s.tick;
      events > 0 ==> (|seen| + (events + 1) / 2 - 1) * SECOND < lim.timeout
    decreases start + lim.timeout - s.clock
  {
    hide ScanRules, Sentinel, ApplyEdits, Saturate;
    var got := Passed(script, s, 0);
    if !Expired(lim, start, s.clock) && !script(s.tick).fault && s.ing.key in got.store.objs
       && !Expired(lim, start, got.clock) && ScanRules(got.store.objs[s.ing.key].rules).Found? {
      PollsAtMost(script, lim, start, Passed(script, got, SECOND), seen + [Found]);
    }
  }

  // ---- When the wait succeeds, and when it times out.

  /** The state after `n` polls that saw a challenge, with the sleeps after them. */
  ghost function AfterMisses(script: Script, s: Locked, n: nat): Locked {
    if n == 0 then s else Passed(script, Passed(script, AfterMisses(script, s, n - 1), 0), SECOND)
  }

  /** The state when the reply to poll `n` is there. */
  ghost function Reply(script: Script, s: Locked, n: nat): Locked {
    Passed(script, AfterMisses(script, s, n), 0)
  }

  /** Strictly before the deadline of the wait, and before that of the context around it. */
  predicate Timely(lim: Limits, start: int, at: int) {
    at < start + lim.timeout && (lim.parent.Some? ==> at < lim.parent.value)
  }

  /** Poll `n` is answered in time, by an ingress with this scan. */
  ghost predicate Sees(script: Script, lim: Limits, s: Locked, n: nat, scan: Scan) {
    var got := Reply(script, s, n);
    && !script(AfterMisses(script, s, n).tick).fault && Timely(lim, s.clock, got.clock)
    && s.ing.key in got.store.objs && ScanRules(got.store.objs[s.ing.key].rules) == scan
  }

  ghost predicate Misses(script: Script, lim: Limits, s: Locked, n: nat) {
    forall i: nat | i < n :: Sees(script, lim, s, i, Found)
  }

  function Founds(n: nat): (seen: seq<Scan>)
    ensures |seen| == n && forall i | 0 <= i < n :: seen[i].Found?
  {
    seq(n, i => Found)
  }

  lemma {:induction false} AfterMissesFrame(script: Script, s: Locked, n: nat)
    ensures var t := AfterMisses(script, s, n);
      && t.ing == s.ing && t.log == s.log && t.held == s.held && t.tick == s.tick + 2 * n
      && t.clock == s.clock + n * SECOND + Elapsed(script, s.tick, t.tick)
      && t.store == OthersOnly(script, s.store, s.tick, t.tick)
  {
    hide ApplyEdits;
    if n > 0 {
      AfterMissesFrame(script, s, n - 1);
    }
  }

  /** The time that the events `start` up to `until` took by themselves. */
  ghost function Elapsed(script: Script, start: nat, until: nat): nat {
    if until <= start then 0 else Elapsed(script, start, until - 1) + script(until - 1).elapsed
  }

  /** One poll that is answered in time. */
  lemma {:induction false} OnePoll(script: Script, lim: Limits, start: int, s: Locked, seen: seq<Scan>, scan: Scan)
    requires !Expired(lim, start, s.clock) && !script(s.tick).fault
    requires var got := Passed(script, s, 0);
      && s.ing.key in got.store.objs && !Expired(lim, start, got.clock)
      && ScanRules(got.store.objs[s.ing.key].rules) == scan
    ensures var got := Passed(script, s, 0);
      match scan
      case NilHttp => WaitRun(script, lim, start, s, seen) == Outcome(got, Some(Panic))
      case Found =>
        WaitRun(script, lim, start, s, seen) == WaitRun(script, lim, start, Passed(script, got, SECOND), seen + [scan])
      case Absent =>
        var read := Passed(script, got, 0);
        var e := Waited(s.ing.key, lim.timeout, Saturate(read.clock - start), false, seen + [scan]);
        WaitRun(script, lim, start, s, seen) == Outcome(Noted(read, e), None)
  {
    hide ScanRules, ApplyEdits, Expired, Saturate;
  }

  /** As long as the polls see a challenge in time the wait goes on: poll `n` is sent `n` seconds after the start, and
      later only by what the requests took. */
  lemma {:induction false} WaitGoesOn(script: Script, lim: Limits, s: Locked, n: nat)
    requires Misses(script, lim, s, n)
    ensures var t := AfterMisses(script, s, n);
      WaitRun(script, lim, s.clock, s, []) == WaitRun(script, lim, s.clock, t, Founds(n))
  {
    hide ScanRules, ApplyEdits, Sentinel;
    if n == 0 {
      assert Founds(0) == [];
    } else {
      var t := AfterMisses(script, s, n - 1);
      assert Sees(script, lim, s, n - 1, Found);
      WaitGoesOn(script, lim, s, n - 1);
      AfterMissesFrame(script, s, n - 1);
      assert Founds(n - 1) + [Found] == Founds(n);
      assert !Expired(lim, s.clock, t.clock);
      hide WaitRun;
      OnePoll(script, lim, s.clock, t, Founds(n - 1), Found);
    }
  }

  ghost predicate SucceedsAt(script: Script, lim: Limits, s: Locked, n: nat) {
    Misses(script, lim, s, n) && Sees(script, lim, s, n, Absent)
  }

  ghost predicate TimesOutAt(script: Script, lim: Limits, s: Locked, n: nat) {
    Misses(script, lim, s, n) && !Timely(lim, s.clock, AfterMisses(script, s, n).clock)
  }

  ghost predicate Succeeds(out: Outcome, n: nat) {
    && out.err.None? && out.now.log != [] && var e := out.now.log[|out.now.log| - 1];
       e.Waited? && !e.timedOut && |e.seen| == n + 1
  }

  ghost predicate TimesOut(out: Outcome, n: nat) {
    && out.err.None? && out.now.log != [] && var e := out.now.log[|out.now.log| - 1];
       e.Waited? && e.timedOut && |e.seen| == n
  }

  /** The wait notices at its very next poll that the challenge is gone: if the polls before `n` see it and poll `n`
      does not, and all are answered in time, it succeeds with that poll. The time it reports is `n` seconds and what
      the requests took. */
  lemma {:induction false} SucceedsThen(script: Script, lim: Limits, s: Locked, n: nat)
    requires SucceedsAt(script, lim, s, n)
    ensures var out := WaitRun(script, lim, s.clock, s, []);
      && Succeeds(out, n) && out.now.tick == s.tick + 2 * n + 2
      && out.now.log[|out.now.log| - 1].took == Saturate(out.now.clock - s.clock)
      && out.now.clock - s.clock == n * SECOND + Elapsed(script, s.tick, s.tick + 2 * n + 2)
  {
    hide ScanRules, ApplyEdits, Sentinel, Misses, WaitRun, Saturate, OthersOnly, Elapsed, AfterMisses;
    WaitGoesOn(script, lim, s, n);
    AfterMissesFrame(script, s, n);
    assert !Expired(lim, s.clock, AfterMisses(script, s, n).clock);
    OnePoll(script, lim, s.clock, AfterMisses(script, s, n), Founds(n), Absent);
    ElapsedTwice(script, s.tick, s.tick + 2 * n);
  }

  lemma {:induction false} ElapsedTwice(script: Script, start: nat, until: nat)
    requires start <= until
    ensures Elapsed(script, start, until + 2)
         == Elapsed(script, start, until) + script(until).elapsed + script(until + 1).elapsed
  {
    assert Elapsed(script, start, until + 1) == Elapsed(script, start, until) + script(until).elapsed;
  }

  lemma {:induction false} TimesOutThen(script: Script, lim: Limits, s: Locked, n: nat)
    requires TimesOutAt(script, lim, s, n)
    ensures var out := WaitRun(script, lim, s.clock, s, []);
      && TimesOut(out, n)
      && out.now == Noted(AfterMisses(script, s, n),
                          Waited(s.ing.key, lim.timeout, Sentinel(lim.timeout), true, Founds(n)))
  {
    hide ScanRules, ApplyEdits, Sentinel, Misses;
    WaitGoesOn(script, lim, s, n);
    AfterMissesFrame(script, s, n);
  }

  /** How often the wait polls in vain is decided by the script. */
  lemma {:induction false} LastPoll(script: Script, lim: Limits, s: Locked, n: nat) returns (m: nat)
    requires Misses(script, lim, s, n)
    ensures m >= n && Misses(script, lim, s, m) && !Sees(script, lim, s, m, Found)
    decreases s.clock + lim.timeout - AfterMisses(script, s, n).clock
  {
    hide ScanRules, ApplyEdits;
    AfterMissesFrame(script, s, n);
    if Sees(script, lim, s, n, Found) {
      assert Misses(script, lim, s, n + 1);
      m := LastPoll(script, lim, s, n + 1);
    } else {
      m := n;
    }
  }

  /** The wait succeeds exactly if some poll sees no challenge, in time and after polls that all saw one in time; and
      it times out exactly if the deadline is there after such polls. In every other case it fails or panics. */
  lemma {:induction false} WaitEndsExactly(script: Script, lim: Limits, s: Locked, n: nat)
    ensures var out := WaitRun(script, lim, s.clock, s, []);
      && (Succeeds(out, n) <==> SucceedsAt(script, lim, s, n))
      && (TimesOut(out, n) <==> TimesOutAt(script, lim, s, n))
      && (out.err.None? ==> exists m :: SucceedsAt(script, lim, s, m) || TimesOutAt(script, lim, s, m))
  {
    var m := LastPoll(script, lim, s, 0);
    var t, out := AfterMisses(script, s, m), WaitRun(script, lim, s.clock, s, []);
    WaitGoesOn(script, lim, s, m);
    AfterMissesFrame(script, s, m);
    hide ScanRules, ApplyEdits, Sentinel, Misses, AfterMisses;
    if TimesOutAt(script, lim, s, m) {
      TimesOutThen(script, lim, s, m);
    } else if SucceedsAt(script, lim, s, m) {
      SucceedsThen(script, lim, s, m);
    } else {
      assert out.err.Some?;
    }
    if SucceedsAt(script, lim, s, n) {
      SucceedsThen(script, lim, s, n);
    }
    if TimesOutAt(script, lim, s, n) {
      TimesOutThen(script, lim, s, n);
    }
  }

  // ---- One renewal run.

  /** The removal; if it succeeds the wait; if that succeeds the reinstatement. */
  ghost function RenewalRun(script: Script, lim: Limits, was: Locked): Outcome {
    var removed := EditRun(script, WithoutBackend, was);
    if removed.err.Some? then removed
    else
      var waited := WaitRun(script, lim, removed.now.clock, removed.now, []);
      if waited.err.Some? then waited
      else EditRun(script, WithHttps, waited.now)
  }

  /** What a run leaves in the log: a removal, a finished wait, a reinstatement, or the first few of these. */
  ghost predicate RunSeg(k: Key, timeout: int, seg: seq<Entry>) {
    && |seg| <= 3
    && (|seg| > 0 ==> IsStrip(seg[0], k))
    && (|seg| > 1 ==> IsWait(seg[1], k, timeout))
    && (|seg| > 2 ==> IsRestore(seg[2], k))
  }

  /** The entries that were added to a log. */
  ghost function Since(was: Locked, now: Locked): seq<Entry> {
    if |was.log| <= |now.log| then now.log[|was.log|..] else []
  }

  /**
   * What a run amounts to. It returns without an error exactly when it stripped the annotation, waited, and put it
   * back on the object as others had left it, where it is now. Unless somebody deletes the ingress, a failed wait or a
   * failed reinstatement leaves it stripped, and a failed removal leaves the annotation as it was. The key was refused
   * exactly if it was held before, and it stays held exactly when a Get failed.
   */
  ghost predicate IsRun(script: Script, timeout: int, was: Locked, out: Outcome, seg: seq<Entry>) {
    var k, now, err := was.ing.key, out.now, out.err;
    && now.ing.key == k && was.tick <= now.tick && was.clock <= now.clock
    && now.log == was.log + seg && RunSeg(k, timeout, seg)
    && (err.None? <==> |seg| == 3)
    && (err.None? ==> k in now.store.objs && seg[2].after == now.store.objs[k] == now.ing)
    && (err.None? ==> IsBackendHttpsAnnotations(now.ing))
    && (err.Some? ==> err.value in if |seg| == 1 then {PollFailed, Panic} else {KeyLocked, GetFailed, UpdateFailed})
    && (err == Some(KeyLocked) <==> k in was.held)
    && now.held == was.held + (if err == Some(GetFailed) then {k} else {})
    && StoreOk(now.store) && Shifted(script, was.store, now.store, {})
    && (Undeleted(script, k) && |seg| == 0 ==> SameBackend(was.store, now.store, k))
    && (Undeleted(script, k) && 1 <= |seg| <= 2 ==> IsStripped(now.store, k))
  }

  predicate IsStripped(st: Store, k: Key) {
    k in st.objs && BackendOf(st, k).None?
  }

  lemma {:induction false} NotStripped(script: Script, timeout: int, was: Locked)
    requires StoreOk(was.store) && EditRun(script, WithoutBackend, was).err.Some?
    ensures IsRun(script, timeout, was, EditRun(script, WithoutBackend, was), [])
  {
    hide EditRun, Shifted, OthersOnly, SameBackend;
    EditRunFacts(script, WithoutBackend, was);
    if Undeleted(script, was.ing.key) {
      OthersKeepBackend(script, was.store, was.tick, EditRun(script, WithoutBackend, was).now.tick, was.ing.key);
    }
  }

  /** A removal that reached the server, and events in which nothing but others' writes happened since. */
  lemma {:induction false} StaysStripped(script: Script, was: Locked, st: Store, until: nat)
    requires StoreOk(was.store) && EditRun(script, WithoutBackend, was).err.None?
    requires var stripped := EditRun(script, WithoutBackend, was).now;
      st == OthersOnly(script, stripped.store, stripped.tick, until)
    ensures Undeleted(script, was.ing.key) ==> IsStripped(st, was.ing.key)
  {
    hide EditRun, OthersOnly;
    var stripped := EditRun(script, WithoutBackend, was).now;
    EditRunFacts(script, WithoutBackend, was);
    if Undeleted(script, was.ing.key) {
      OthersKeepBackend(script, stripped.store, stripped.tick, until, was.ing.key);
    }
  }

  lemma {:induction false} NotWaited(script: Script, lim: Limits, was: Locked) returns (seg: seq<Entry>)
    requires StoreOk(was.store) && EditRun(script, WithoutBackend, was).err.None?
    requires var stripped := EditRun(script, WithoutBackend, was).now;
      WaitRun(script, lim, stripped.clock, stripped, []).err.Some?
    ensures var stripped := EditRun(script, WithoutBackend, was).now;
      var out := WaitRun(script, lim, stripped.clock, stripped, []);
      IsRun(script, lim.timeout, was, out, seg) && |seg| == 1
  {
    hide EditRun, WaitRun, IsWait, Shifted, IsStripped, Undeleted, OthersOnly;
    var stripped := EditRun(script, WithoutBackend, was).now;
    EditRunFacts(script, WithoutBackend, was);
    WaitRunFacts(script, lim, stripped.clock, stripped, []);
    var out := WaitRun(script, lim, stripped.clock, stripped, []);
    OthersShift(script, stripped.store, stripped.tick, out.now.tick);
    SteadyTwice(script, was.store, stripped.store, out.now.store);
    StaysStripped(script, was, out.now.store, out.now.tick);
    seg := [out.now.log[|was.log|]];
  }

  lemma {:induction false} Completed(script: Script, lim: Limits, was: Locked)
    requires StoreOk(was.store) && EditRun(script, WithoutBackend, was).err.None?
    requires var stripped := EditRun(script, WithoutBackend, was).now;
      WaitRun(script, lim, stripped.clock, stripped, []).err.None?
    ensures var stripped := EditRun(script, WithoutBackend, was).now;
      var waited := WaitRun(script, lim, stripped.clock, stripped, []).now;
      var out := EditRun(script, WithHttps, waited);
      && IsRun(script, lim.timeout, was, out, Since(was, out.now)) && |out.now.log| >= |was.log| + 2
      && |waited.log| == |was.log| + 2 && Since(was, out.now)[1] == waited.log[|was.log| + 1]
  {
    hide EditRun, WaitRun, IsWait, Shifted, IsStripped, Undeleted, OthersOnly;
    var stripped := EditRun(script, WithoutBackend, was).now;
    EditRunFacts(script, WithoutBackend, was);
    WaitRunFacts(script, lim, stripped.clock, stripped, []);
    var waited := WaitRun(script, lim, stripped.clock, stripped, []).now;
    EditRunFacts(script, WithHttps, waited);
    var out := EditRun(script, WithHttps, waited);
    OthersShift(script, stripped.store, stripped.tick, waited.tick);
    SteadyTwice(script, was.store, stripped.store, waited.store);
    SteadyTwice(script, was.store, waited.store, out.now.store);
    if out.err.Some? {
      OthersCompose(script, stripped.store, stripped.tick, waited.tick, out.now.tick);
      StaysStripped(script, was, out.now.store, out.now.tick);
    }
  }

  lemma {:induction false} RunFacts(script: Script, lim: Limits, was: Locked)
    requires StoreOk(was.store)
    ensures var out := RenewalRun(script, lim, was);
      IsRun(script, lim.timeout, was, out, Since(was, out.now)) && |was.log| <= |out.now.log|
  {
    var out := RenewalRun(script, lim, was);
    hide EditRun, WaitRun, IsRun;
    var removed := EditRun(script, WithoutBackend, was);
    if removed.err.Some? {
      NotStripped(script, lim.timeout, was);
      SinceIs(script, lim.timeout, was, out, []);
    } else if WaitRun(script, lim, removed.now.clock, removed.now, []).err.Some? {
      var seg := NotWaited(script, lim, was);
      SinceIs(script, lim.timeout, was, out, seg);
    } else {
      Completed(script, lim, was);
    }
  }

  /** The log of a run has its second entry exactly if the wait was finished, and then that is the wait. */
  lemma {:induction false} RunSteps(script: Script, lim: Limits, was: Locked)
    requires StoreOk(was.store)
    ensures var removed := EditRun(script, WithoutBackend, was);
      if removed.err.Some? then Since(was, removed.now) == []
      else
        var waited := WaitRun(script, lim, removed.now.clock, removed.now, []);
        if waited.err.Some? then |Since(was, waited.now)| == 1
        else
          var out := EditRun(script, WithHttps, waited.now);
          var seg := Since(was, out.now);
          && 2 <= |seg| <= 3 && (out.err.None? <==> |seg| == 3)
          && waited.now.log != [] && seg[1] == waited.now.log[|waited.now.log| - 1] && seg[1].Waited?
  {
    hide EditRun, WaitRun, IsRun;
    var removed := EditRun(script, WithoutBackend, was);
    if removed.err.Some? {
      NotStripped(script, lim.timeout, was);
      SinceIs(script, lim.timeout, was, removed, []);
    } else {
      var waited := WaitRun(script, lim, removed.now.clock, removed.now, []);
      if waited.err.Some? {
        var seg := NotWaited(script, lim, was);
        SinceIs(script, lim.timeout, was, waited, seg);
      } else {
        Completed(script, lim, was);
        var out := EditRun(script, WithHttps, waited.now);
        SegmentOf(script, lim.timeout, was, out);
      }
    }
  }

  lemma {:induction false} SegmentOf(script: Script, timeout: int, was: Locked, out: Outcome)
    requires IsRun(script, timeout, was, out, Since(was, out.now))
    ensures out.err.None? <==> |Since(was, out.now)| == 3
    ensures |Since(was, out.now)| <= 3
    ensures |Since(was, out.now)| >= 2 ==> Since(was, out.now)[1].Waited?
  {}

  lemma {:induction false} SinceIs(script: Script, timeout: int, was: Locked, out: Outcome, seg: seq<Entry>)
    requires IsRun(script, timeout, was, out, seg)
    ensures Since(was, out.now) == seg && |was.log| <= |out.now.log|
  {}

  // ---- The log of a whole audit.

  /** The log entries of several steps, one after the other. */
  ghost function Concat(segs: seq<seq<Entry>>): seq<Entry> {
    if segs == [] then [] else Concat(segs[..|segs| - 1]) + segs[|segs| - 1]
  }

  predicate IsReadOf(e: Entry, secret: SecretId) {
    e.ReadExpiry? && e.secret == secret
  }

  /** Decoding and parsing of a certificate: its expiry, if it can be read. */
  type Parser = seq<bv8> -> Option<int>

  /** The expiry of the certificate in a secret, if a Get answers and there is one that can be read. */
  function ExpiryIn(parse: Parser, e: Event, secret: SecretId): Option<int> {
    if e.fault || secret !in e.secrets || e.secrets[secret].crt.None? then None else parse(e.secrets[secret].crt.value)
  }

  /** The settings of the ingress' namespace, if a Get answers and there are any. */
  function SettingsIn(e: Event, k: Key): Option<NimbleOpti> {
    if e.fault || NamespaceOf(k) !in e.nimbles then None else Some(e.nimbles[NamespaceOf(k)])
  }

  ghost predicate IsRename(e: Entry, k: Key) {
    && e.Wrote? && e.before.key == k && e.before.tls != []
    && e.after == e.before.(tls := HeadRenamed(e.before.tls), version := e.after.version)
  }

  /** Entry `i` of the log, made since `start`: a write changes one annotation, or the first secret name, of one of
      `keys`; a deletion hits a secret whose certificate was read just before and was due by the threshold, which is
      `days` where the program has only one. */
  ghost predicate EntryOk(log: seq<Entry>, start: nat, i: nat, keys: set<Key>, days: Option<int>)
    requires i < |log|
  {
    match log[i]
    case Wrote(before, after) =>
      before.key in keys
      && (IsStrip(log[i], before.key) || IsRestore(log[i], before.key) || IsRename(log[i], before.key))
    case Waited(_, _, _, _, _) => true
    case ReadExpiry(_, _, _) => true
    case Deleted(secret, used) =>
      i > start && log[i - 1].ReadExpiry? && log[i - 1].secret == secret
      && DueForRenewal(log[i - 1].notAfter - log[i - 1].at, used) && (days.Some? ==> used == days.value)
  }

  ghost predicate Logged(was: seq<Entry>, now: seq<Entry>, keys: set<Key>, days: Option<int>) {
    && |was| <= |now| && now[..|was|] == was
    && forall i | |was| <= i < |now| :: EntryOk(now, |was|, i, keys, days)
  }

  lemma {:induction false} LoggedTwice(a: seq<Entry>, b: seq<Entry>, c: seq<Entry>, keys: set<Key>, more: set<Key>,
                                       days: Option<int>)
    requires Logged(a, b, keys, days) && Logged(b, c, more, days) && keys <= more
    ensures Logged(a, c, more, days)
  {
    forall i | |a| <= i < |c| ensures EntryOk(c, |a|, i, more, days) {
      if i < |b| {
        assert c[i] == b[i] && EntryOk(b, |a|, i, keys, days);
        assert i > 0 ==> c[i - 1] == b[i - 1];
      } else {
        assert EntryOk(c, |b|, i, more, days);
      }
    }
  }

  lemma {:induction false} RunEntry(k: Key, t: int, log: seq<Entry>, start: nat, i: nat, days: Option<int>)
    requires start <= i < |log| && RunSeg(k, t, log[start..])
    ensures EntryOk(log, 0, i, {k}, days)
  {
    assert log[start..][i - start] == log[i];
  }

  /** Whatever precedes it, a log that is in order on its own stays so. */
  lemma {:induction false} LoggedAfter(before: seq<Entry>, seg: seq<Entry>, keys: set<Key>, more: set<Key>,
                                       days: Option<int>)
    requires Logged([], seg, keys, days) && keys <= more
    ensures Logged(before, before + seg, more, days)
  {
    var log := before + seg;
    forall i | |before| <= i < |log| ensures EntryOk(log, |before|, i, more, days) {
      assert EntryOk(seg, 0, i - |before|, keys, days);
      assert i > |before| ==> log[i - 1] == seg[i - 1 - |before|];
    }
  }
}
