/** What follows from the operator's runs and audits: verdicts, metrics, and what is written and deleted. */
module OperatorTheorems {
  import opened GoStrings
  import opened Decimal
  import opened GoTime
  import opened IngressStore
  import opened Cluster
  import opened WatcherRuns
  import opened OperatorRuns

  // ---- The verdict.

  /** A run is taken for a renewal exactly if its last poll saw no challenge, at any delay, except that a success
      which takes exactly the doubled timeout is mistaken for a missed deadline. */
  lemma {:induction false} VerdictIsTruthful(k: Key, timeout: int, run: seq<Entry>)
    requires RunSeg(k, timeout, run) && |run| >= 2
    ensures Verdict(timeout, run) <==> !run[1].timedOut && run[1].took != Sentinel(timeout)
    ensures Verdict(timeout, run) ==> |run[1].seen| >= 1 && run[1].seen[|run[1].seen| - 1].Absent?
  {}

  // ---- When a run starts.

  /** The settings of the namespace can be had: they are there, or they can be created. */
  predicate CanHave(namespace: string, first: Event, second: Event) {
    !first.fault && (namespace !in first.nimbles ==> !second.fault && namespace !in second.nimbles)
  }

  /** The processing fails for want of settings exactly if they cannot be had; otherwise it goes by the namespace's own,
      or by 30 days and 10 seconds. */
  lemma {:induction false} AdapterFailsExactly(script: Script, was: Locked, m: Metrics)
    requires StoreOk(was.store)
    ensures var ns, first := NamespaceOf(was.ing.key), script(was.tick);
      var had := SettingsRun(script, ns, was);
      && (ProcessRun(script, was, m).err == Some(AdapterFailed) <==> !CanHave(ns, first, script(was.tick + 1)))
      && (had.settings.Some? <==> CanHave(ns, first, script(was.tick + 1)))
      && (had.settings.Some? ==>
            had.settings.value == if ns in first.nimbles then first.nimbles[ns] else NimbleOpti(30, 10))
  {
    hide RenewalRun, ScanRules, IsRun;
    var had := SettingsRun(script, NamespaceOf(was.ing.key), was);
    EditsKeepStore(was.store, script(was.tick).edits);
    EditsKeepStore(ApplyEdits(was.store, script(was.tick).edits), script(was.tick + 1).edits);
    hide ApplyEdits;
    if had.settings.Some? {
      RunFacts(script, LimitsOf(had.settings.value), had.now);
      RunErrors(script, LimitsOf(had.settings.value), had.now);
    }
  }

  lemma {:induction false} RunErrors(script: Script, lim: Limits, was: Locked)
    requires IsRun(script, lim.timeout, was, RenewalRun(script, lim, was), Since(was, RenewalRun(script, lim, was).now))
    ensures RenewalRun(script, lim, was).err != Some(AdapterFailed)
  {
    hide RenewalRun, RunSeg, Shifted;
  }

  /**
   * An audited ingress starts with the removal of its annotation exactly if it is labelled as enabled, carries HTTPS
   * and has a challenge path before any rule without HTTP paths, if the settings can be had, if its key is free, and if
   * neither the Get nor the Update fails and no other writer comes between them. `t` is the event of the Get.
   */
  lemma {:induction false} VisitStartsExactly(setup: Setup, was: Locked, m: Metrics)
    requires StoreOk(was.store)
    ensures var ing, e := was.ing, setup.script(was.tick);
      var k, seg := ing.key, Since(was, VisitRun(setup, was, m).now);
      var t := if NamespaceOf(k) in e.nimbles then was.tick + 1 else was.tick + 2;
      (seg != [] && IsStrip(seg[0], k)) <==>
        && "nimble.opti.adapter/enabled" in ing.labels && ing.labels["nimble.opti.adapter/enabled"] == "true"
        && "nginx.ingress.kubernetes.io/backend-protocol" in ing.annotations
        && ing.annotations["nginx.ingress.kubernetes.io/backend-protocol"] == "HTTPS"
        && HasChallenge(ing.rules) && CanHave(NamespaceOf(k), e, setup.script(was.tick + 1)) && k !in was.held
        && !setup.script(t).fault && k in OthersOnly(setup.script, was.store, was.tick, t + 1).objs
        && !setup.script(t + 1).fault && !WritesTo(setup.script(t + 1).edits, k)
  {
    hide ScanRules, HasChallenge, WritesTo, VisitRun, ProcessRun, SettingsRun, CanHave, Since, OthersOnly;
    var had := SettingsRun(setup.script, NamespaceOf(was.ing.key), was);
    SettingsFrame(setup.script, NamespaceOf(was.ing.key), was);
    AdapterFailsExactly(setup.script, was, m);
    ScanIsTruthful(was.ing.rules);
    if !Guarded(was.ing) || had.settings.None? {
      NothingStarts(setup, was, m);
    } else if ScanRules(was.ing.rules).Found? {
      ChallengeStarts(setup, was, m);
    } else {
      NoChallengeNoStart(setup, was, m);
    }
  }

  lemma {:induction false} NothingStarts(setup: Setup, was: Locked, m: Metrics)
    requires !Guarded(was.ing) || SettingsRun(setup.script, NamespaceOf(was.ing.key), was).settings.None?
    ensures Since(was, VisitRun(setup, was, m).now) == []
  {
    hide ApplyEdits, Guarded;
  }

  lemma {:induction false} SettingsFrame(script: Script, namespace: string, was: Locked)
    requires StoreOk(was.store)
    ensures var now := SettingsRun(script, namespace, was).now;
      && now.ing == was.ing && now.log == was.log && now.held == was.held && StoreOk(now.store)
      && was.tick < now.tick <= was.tick + 2
      && (SettingsRun(script, namespace, was).settings.Some? ==>
            now.tick == if namespace in script(was.tick).nimbles then was.tick + 1 else was.tick + 2)
      && now.store == OthersOnly(script, was.store, was.tick, now.tick)
  {
    var t := was.tick;
    var st := ApplyEdits(was.store, script(t).edits);
    EditsKeepStore(was.store, script(t).edits);
    EditsKeepStore(st, script(t + 1).edits);
    hide ApplyEdits;
    assert OthersOnly(script, was.store, t, t) == was.store;
    assert OthersOnly(script, was.store, t, t + 1) == st;
    assert OthersOnly(script, was.store, t, t + 2) == ApplyEdits(st, script(t + 1).edits);
  }

  lemma {:induction false} ChallengeStarts(setup: Setup, was: Locked, m: Metrics)
    requires StoreOk(was.store) && Guarded(was.ing) && ScanRules(was.ing.rules).Found?
    requires SettingsRun(setup.script, NamespaceOf(was.ing.key), was).settings.Some?
    ensures var seg := Since(was, VisitRun(setup, was, m).now);
      var t, k := SettingsRun(setup.script, NamespaceOf(was.ing.key), was).now.tick, was.ing.key;
      (seg != [] && IsStrip(seg[0], k)) <==>
        && k !in was.held && !setup.script(t).fault && k in OthersOnly(setup.script, was.store, was.tick, t + 1).objs
        && !setup.script(t + 1).fault && !WritesTo(setup.script(t + 1).edits, k)
  {
    var had := SettingsRun(setup.script, NamespaceOf(was.ing.key), was);
    var lim, start := LimitsOf(had.settings.value), had.now;
    var out, r := RenewalRun(setup.script, lim, start), ProcessRun(setup.script, was, m);
    assert r.now == out.now && r.err == out.err by { hide RenewalRun, SettingsRun, RunMetrics; }
    assert r.err.Some? ==> VisitRun(setup, was, m) == r by { hide ProcessRun, MakesRenewal; }
    hide ProcessRun, SettingsRun, EditRun, WaitRun, WritesTo, IsRun, ScanRules, VisitRun;
    SettingsFrame(setup.script, NamespaceOf(was.ing.key), was);
    EditLandsExactly(setup.script, WithoutBackend, start);
    if EditRun(setup.script, WithoutBackend, start).err.Some? {
      NotStripped(setup.script, lim.timeout, start);
      SinceIs(setup.script, lim.timeout, start, out, []);
    } else {
      hide RenewalRun;
      StripsFirst(setup.script, lim, start);
      LogStays(setup, was, m);
    }
  }

  /** What the processing logged stays in front of what the TLS entries add. */
  lemma {:induction false} LogStays(setup: Setup, was: Locked, m: Metrics)
    requires Guarded(was.ing) && StoreOk(ProcessRun(setup.script, was, m).now.store)
    ensures ProcessRun(setup.script, was, m).now.log <= VisitRun(setup, was, m).now.log
  {
    var r := ProcessRun(setup.script, was, m);
    hide ProcessRun, MakesRenewal, TlsUpTo, Tallied, EntryOk;
    if r.err.None? && !MakesRenewal(setup.script, was) {
      TlsUpToSteps(setup, r.now.ing.tls, r.now, r.metrics, |r.now.ing.tls|);
    }
  }

  /** A wait that did not time out, and did not take exactly twice the delay. */
  predicate SawItGo(delay: int, e: Entry) {
    e.Waited? && !e.timedOut && e.took != 2 * delay * 1_000_000_000
  }

  /** A processing is taken for a renewal, at every delay up to 4611686018 seconds, exactly if its run was completed
      and its wait saw the challenge go. */
  lemma {:induction false} RenewalIsMade(script: Script, was: Locked, m: Metrics)
    requires StoreOk(was.store)
    ensures var had := SettingsRun(script, NamespaceOf(was.ing.key), was);
      var run := Since(was, ProcessRun(script, was, m).now);
      && (|run| == 3 ==> had.settings.Some? && HasChallenge(was.ing.rules))
      && (had.settings.Some? && 1 <= had.settings.value.delay <= 4_611_686_018 ==>
            (MakesRenewal(script, was) <==> |run| == 3 && SawItGo(had.settings.value.delay, run[1])))
  {
    var had, r := SettingsRun(script, NamespaceOf(was.ing.key), was), ProcessRun(script, was, m);
    SettingsFrame(script, NamespaceOf(was.ing.key), was);
    ScanIsTruthful(was.ing.rules);
    hide SettingsRun, RenewalRun, ScanRules, HasChallenge, IsStrip, IsRestore, Shifted, Verdict;
    if had.settings.Some? && ScanRules(was.ing.rules).Found? {
      var adapter := had.settings.value;
      RunFacts(script, LimitsOf(adapter), had.now);
      var run := Since(had.now, r.now);
      assert run == Since(was, r.now);
      if |run| == 3 && 1 <= adapter.delay <= 4_611_686_018 {
        VerdictIsTruthful(was.ing.key, Timeout(adapter.delay), run);
        SentinelExactness(adapter.delay);
      }
    }
  }

  lemma {:induction false} StripsFirst(script: Script, lim: Limits, was: Locked)
    requires StoreOk(was.store) && EditRun(script, WithoutBackend, was).err.None?
    ensures var now := RenewalRun(script, lim, was).now;
      && StoreOk(now.store) && now.ing.key == was.ing.key
      && |now.log| > |was.log| && now.log[..|was.log|] == was.log && IsStrip(now.log[|was.log|], was.ing.key)
  {
    RunFacts(script, lim, was);
    RunSteps(script, lim, was);
    hide EditRun, WaitRun, Shifted, IsWait, IsRestore;
    var out := RenewalRun(script, lim, was);
    var seg := Since(was, out.now);
    assert |seg| >= 1 && out.now.log[|was.log|] == seg[0];
  }

  lemma {:induction false} NoChallengeNoStart(setup: Setup, was: Locked, m: Metrics)
    requires StoreOk(was.store) && Guarded(was.ing) && !ScanRules(was.ing.rules).Found?
    requires SettingsRun(setup.script, NamespaceOf(was.ing.key), was).settings.Some?
    ensures var seg := Since(was, VisitRun(setup, was, m).now);
      seg != [] ==> seg[0].ReadExpiry?
  {
    SettingsFrame(setup.script, NamespaceOf(was.ing.key), was);
    hide ScanRules, SettingsRun, TlsUpTo, RenewalRun;
    var had := SettingsRun(setup.script, NamespaceOf(was.ing.key), was);
    if ScanRules(was.ing.rules).Absent? {
      assert VisitRun(setup, was, m) == TlsUpTo(setup, was.ing.tls, had.now, m, |was.ing.tls|);
      TlsUpToSteps(setup, was.ing.tls, had.now, m, |was.ing.tls|);
    }
  }

  // ---- The watch.

  ghost predicate Harmless(e: WatchEvent) {
    e.Skipped? || (e.Seen? && ScanRules(e.ing.rules).Absent?)
  }

  ghost predicate Appears(e: WatchEvent) {
    e.Seen? && ScanRules(e.ing.rules).Found?
  }

  /** When event `i` is delivered. */
  ghost function DeliveredAt(events: seq<Delivery>, i: nat): nat
    requires i < |events|
  {
    events[i].gap + if i == 0 then 0 else DeliveredAt(events, i - 1)
  }

  ghost predicate AppearsAt(events: seq<Delivery>, left: nat, i: nat) {
    && i < |events| && Appears(events[i].event) && DeliveredAt(events, i) <= left
    && forall j | 0 <= j < i :: Harmless(events[j].event)
  }

  lemma {:induction false} DeliveredLater(events: seq<Delivery>, i: nat)
    requires i + 1 < |events|
    ensures DeliveredAt(events, i + 1) == events[0].gap + DeliveredAt(events[1..], i)
  {
    if i > 0 {
      DeliveredLater(events, i - 1);
    }
  }

  /** The wait for a challenge succeeds exactly if one appears in time, before the watch breaks, the ingress is deleted
      or a rule without HTTP paths shows up; and it is over when that event is delivered. */
  lemma {:induction false} WatchSucceedsExactly(events: seq<Delivery>, left: nat)
    ensures WatchVerdict(events, left).None? <==> exists i: nat :: AppearsAt(events, left, i)
    ensures forall i: nat | AppearsAt(events, left, i) :: WatchSpent(events, left) == DeliveredAt(events, i)
    decreases |events|
  {
    hide ScanRules;
    if events != [] && events[0].gap <= left {
      var rest, less := events[1..], left - events[0].gap;
      WatchSucceedsExactly(rest, less);
      forall i: nat | i < |rest| && Harmless(events[0].event)
        ensures AppearsAt(rest, less, i) == AppearsAt(events, left, i + 1)
      {
        LaterAppears(events, left, i);
      }
      if i: nat :| AppearsAt(rest, less, i) {
        assert Harmless(events[0].event) ==> AppearsAt(events, left, i + 1);
      }
      forall i: nat | AppearsAt(events, left, i) ensures WatchSpent(events, left) == DeliveredAt(events, i) {
        if i > 0 {
          assert AppearsAt(rest, less, i - 1);
          DeliveredLater(events, i - 1);
        }
      }
      if i: nat :| AppearsAt(events, left, i) {
        assert i > 0 ==> Harmless(events[0].event) && AppearsAt(rest, less, i - 1);
      }
      assert Appears(events[0].event) ==> AppearsAt(events, left, 0);
    } else {
      forall i: nat ensures !AppearsAt(events, left, i) {
        if i < |events| { NotBefore(events, i); }
      }
    }
  }

  lemma {:induction false} LaterAppears(events: seq<Delivery>, left: nat, i: nat)
    requires i + 1 < |events| && Harmless(events[0].event) && events[0].gap <= left
    ensures AppearsAt(events, left, i + 1) == AppearsAt(events[1..], left - events[0].gap, i)
  {
    hide Harmless;
    DeliveredLater(events, i);
    var rest := events[1..];
    assert forall j | 0 < j < |events| :: events[j] == rest[j - 1];
  }

  lemma {:induction false} NotBefore(events: seq<Delivery>, i: nat)
    requires i < |events|
    ensures DeliveredAt(events, i) >= events[0].gap
  {
    if i > 0 {
      NotBefore(events, i - 1);
    }
  }

  // ---- Metrics.

  /** What one run adds to the metrics, at every delay up to 4611686018 seconds. The counter grows by one exactly if the
      run was completed and the challenge went within the delay. Each finished wait is observed once: with the delay if
      it timed out or took exactly twice as long, and with the time it took otherwise. */
  lemma {:induction false} RunMetricsExactly(m: Metrics, k: Key, delay: int, run: seq<Entry>)
    requires RunSeg(k, Timeout(delay), run) && 1 <= delay <= 4_611_686_018
    ensures var m' := RunMetrics(m, Timeout(delay), run);
      && m'.renewals == m.renewals + (if |run| == 3 && !run[1].timedOut && run[1].took <= delay * 1_000_000_000
                                      then 1 else 0)
      && m'.durations == m.durations + (if |run| < 2 then []
                                        else if run[1].timedOut || run[1].took == 2 * delay * 1_000_000_000
                                        then [delay * 1_000_000_000] else [run[1].took])
  {
    if |run| >= 2 {
      assert IsWait(run[1], k, Timeout(delay));
      SentinelExactness(delay);
      assert Timeout(delay) == delay * SECOND;
    }
  }

  predicate IsRemoval(e: Entry) {
    e.Wrote? && e.after == WithoutBackend(e.before).(version := e.after.version)
  }

  ghost function Removals(log: seq<Entry>): nat {
    if log == [] then 0 else Removals(log[..|log| - 1]) + if IsRemoval(log[|log| - 1]) then 1 else 0
  }

  /** The durations that the finished waits of a log call for. */
  ghost function Observed(log: seq<Entry>): seq<int> {
    if log == [] then [] else Observed(log[..|log| - 1]) + ObservedAt(log[|log| - 1])
  }

  ghost function ObservedAt(e: Entry): seq<int> {
    if !e.Waited? then [] else if e.took == Sentinel(e.timeout) then [e.timeout] else [e.took]
  }

  /** How often in a log a wait that was over in time is followed by the reinstatement. */
  ghost function Counted(log: seq<Entry>): nat {
    if log == [] then 0 else Counted(log[..|log| - 1]) + if Counts(log) then 1 else 0
  }

  ghost predicate Counts(log: seq<Entry>) {
    |log| >= 2 && log[|log| - 2].Waited? && log[|log| - 2].took <= log[|log| - 2].timeout
    && IsRestore(log[|log| - 1], log[|log| - 2].key)
  }

  /** Between runs: a log does not begin with the end of a run. */
  ghost predicate Clean(log: seq<Entry>) {
    log != [] && log[0].Wrote? ==> !IsRestore(log[0], log[0].before.key)
  }

  lemma {:induction false} TalliesAdd(a: seq<Entry>, b: seq<Entry>)
    requires Clean(b)
    ensures Removals(a + b) == Removals(a) + Removals(b)
    ensures Observed(a + b) == Observed(a) + Observed(b)
    ensures Counted(a + b) == Counted(a) + Counted(b)
    decreases |b|
  {
    hide IsRemoval, ObservedAt, Counts, Counted, Removals, Observed, IsRestore;
    if b == [] {
      NoTally();
      assert a + b == a && Observed(a) + [] == Observed(a);
    } else {
      var init, last := b[..|b| - 1], b[|b| - 1];
      TalliesAdd(a, init);
      LastCounts(a, b);
      Unfold(a + b);
      Unfold(b);
      assert (a + b)[..|a + b| - 1] == a + init;
      assert Observed(a) + Observed(init) + ObservedAt(last) == Observed(a) + (Observed(init) + ObservedAt(last));
    }
  }

  lemma {:induction false} NoTally()
    ensures Removals([]) == 0 && Observed([]) == [] && Counted([]) == 0
  {}

  lemma {:induction false} Unfold(log: seq<Entry>)
    requires log != []
    ensures var init, e := log[..|log| - 1], log[|log| - 1];
      && Removals(log) == Removals(init) + (if IsRemoval(e) then 1 else 0)
      && Observed(log) == Observed(init) + ObservedAt(e)
      && Counted(log) == Counted(init) + if Counts(log) then 1 else 0
  {}

  lemma {:induction false} LastCounts(a: seq<Entry>, b: seq<Entry>)
    requires Clean(b) && b != []
    ensures Counts(a + b) <==> Counts(b)
  {
    assert |b| >= 2 ==> (a + b)[|a + b| - 2] == b[|b| - 2];
  }

  /** The metrics account for exactly what the log says, and in it each run is removed before it is waited for, and
      waited for before it is counted. */
  ghost predicate Tallied(m: Metrics, log: seq<Entry>, m': Metrics) {
    && Clean(log)
    && m'.durations == m.durations + Observed(log) && m'.renewals == m.renewals + Counted(log)
    && Counted(log) <= |Observed(log)| <= Removals(log)
  }

  lemma {:induction false} TalliedTwice(a: Metrics, b: Metrics, c: Metrics, first: seq<Entry>, second: seq<Entry>)
    requires Tallied(a, first, b) && Tallied(b, second, c)
    ensures Tallied(a, first + second, c)
  {
    hide Observed, Counted, Removals, IsRestore;
    TalliesAdd(first, second);
    if first == [] {
      assert first + second == second;
    }
    assert a.durations + Observed(first) + Observed(second) == a.durations + (Observed(first) + Observed(second));
  }

  lemma {:induction false} NothingTallied(m: Metrics, log: seq<Entry>)
    requires forall e | e in log :: e.ReadExpiry? || e.Deleted?
    ensures Tallied(m, log, m)
    decreases |log|
  {
    if log == [] {
      assert m.durations + [] == m.durations;
    } else {
      NothingTallied(m, log[..|log| - 1]);
      assert log[|log| - 1] in log;
    }
  }

  lemma {:induction false} RunIsTallied(m: Metrics, k: Key, timeout: int, run: seq<Entry>)
    requires RunSeg(k, timeout, run)
    ensures Tallied(m, run, RunMetrics(m, timeout, run))
  {
    RunParts(k, timeout, run);
    RunCounts(k, timeout, run);
    hide IsRemoval, RunSeg, Removals, Observed, Counted, Counts, Clean, Sentinel;
    NoTally();
    var none: seq<Entry> := [];
    assert m.durations + [] == m.durations && run[..0] == none && run[..|run|] == run;
    if |run| >= 1 {
      Unfold(run[..1]);
    }
    if |run| >= 2 {
      Unfold(run[..2]);
      assert run[..2][..1] == run[..1];
    }
    if |run| == 3 {
      Unfold(run);
    }
  }

  lemma {:induction false} RunCounts(k: Key, timeout: int, run: seq<Entry>)
    requires RunSeg(k, timeout, run)
    ensures Clean(run) && forall n | 1 <= n <= |run| :: Counts(run[..n]) <==> n == 3 && run[1].took <= timeout
  {
    RunParts(k, timeout, run);
    hide RunSeg, IsRemoval;
  }

  lemma {:induction false} RunParts(k: Key, timeout: int, run: seq<Entry>)
    requires RunSeg(k, timeout, run)
    ensures |run| >= 1 ==> IsRemoval(run[0]) && Clean(run)
    ensures |run| >= 2 ==> run[1].Waited? && run[1].key == k && run[1].timeout == timeout && !IsRemoval(run[1])
    ensures |run| >= 3 ==> IsRestore(run[2], k) && !IsRemoval(run[2])
  {
    if |run| >= 1 {
      assert WithHttps(run[0].before).annotations[BACKEND_PROTOCOL] == "HTTPS";
    }
    if |run| >= 3 {
      RestoreIsNoRemoval(run[2], k);
    }
  }

  lemma {:induction false} RestoreIsNoRemoval(e: Entry, k: Key)
    requires IsRestore(e, k)
    ensures e.Wrote? && !IsRemoval(e)
  {}

  /** A counted renewal is also reported as renewed, for every timeout that can be doubled. */
  lemma {:induction false} CountedIsRenewed(m: Metrics, k: Key, timeout: int, run: seq<Entry>)
    requires RunSeg(k, timeout, run) && 1 <= timeout && 2 * timeout <= MAX_INT64
    ensures RunMetrics(m, timeout, run).renewals != m.renewals ==>
      |run| == 3 && Verdict(timeout, run) && IsRestore(run[2], k)
  {}

  // ---- Step by step.

  /** What one or more steps wrote and deleted is in order, and the metrics account for it. */
  ghost predicate Steps(was: Locked, m: Metrics, r: Result, keys: set<Key>) {
    && was.tick <= r.now.tick && StoreOk(r.now.store)
    && Logged(was.log, r.now.log, keys, None) && Tallied(m, Since(was, r.now), r.metrics)
  }

  lemma {:induction false} StepsTwice(was: Locked, m: Metrics, mid: Result, r: Result, keys: set<Key>, more: set<Key>)
    requires Steps(was, m, mid, keys) && Steps(mid.now, mid.metrics, r, more) && keys <= more
    ensures Steps(was, m, r, more)
    ensures Since(was, r.now) == Since(was, mid.now) + Since(mid.now, r.now)
  {
    hide EntryOk, Tallied;
    LoggedTwice(was.log, mid.now.log, r.now.log, keys, more, None);
    assert Since(was, r.now) == Since(was, mid.now) + Since(mid.now, r.now);
    TalliedTwice(m, mid.metrics, r.metrics, Since(was, mid.now), Since(mid.now, r.now));
  }

  /** Requests that write no ingress: at most a certificate is read, and then its secret deleted if it is due. */
  lemma {:induction false} RequestSteps(was: Locked, m: Metrics, r: Result, seg: seq<Entry>, keys: set<Key>)
    requires was.tick <= r.now.tick && StoreOk(r.now.store) && r.now.log == was.log + seg && r.metrics == m
    requires |seg| <= 2 && (|seg| >= 1 ==> seg[0].ReadExpiry?)
    requires |seg| == 2 ==>
      && seg[1].Deleted? && seg[1].secret == seg[0].secret
      && DueForRenewal(seg[0].notAfter - seg[0].at, seg[1].days)
    ensures Steps(was, m, r, keys) && Since(was, r.now) == seg
  {
    hide DueForRenewal;
    NothingTallied(m, seg);
  }

  lemma {:induction false} MeasuredSteps(script: Script, adapter: NimbleOpti, was: Locked, m: Metrics)
    requires StoreOk(was.store)
    ensures var r := MeasuredRun(script, adapter, was, m);
      && Steps(was, m, r, {was.ing.key}) && r.now.ing.key == was.ing.key
      && (r.err.None? ==> |Since(was, r.now)| == 3)
  {
    hide RenewalRun, RunMetrics, RunSeg, Shifted, Tallied, Timeout;
    var out, t := RenewalRun(script, LimitsOf(adapter), was), Timeout(adapter.delay);
    RunFacts(script, LimitsOf(adapter), was);
    var run := Since(was, out.now);
    RunIsTallied(m, was.ing.key, t, run);
    RunIsLogged(was.ing.key, t, run);
    LoggedAfter(was.log, run, {was.ing.key}, {was.ing.key}, None);
  }

  lemma {:induction false} RunIsLogged(k: Key, t: int, run: seq<Entry>)
    requires RunSeg(k, t, run)
    ensures Logged([], run, {k}, None)
  {}

  /** One TLS entry. If anything is logged its certificate was read first, and without an error it was read. */
  lemma {:induction false} TlsRunSteps(setup: Setup, secretName: string, was: Locked, m: Metrics)
    requires StoreOk(was.store)
    ensures var r := TlsRun(setup, secretName, was, m);
      && Steps(was, m, r, {was.ing.key}) && r.now.ing.key == was.ing.key
      && var seg := Since(was, r.now);
         && (seg == [] ==> r.err.Some?)
         && (seg != [] ==> IsReadOf(seg[0], SecretOf(was.ing.key, secretName)))
  {
    var script, k, secret := setup.script, was.ing.key, SecretOf(was.ing.key, secretName);
    var r, read := TlsRun(setup, secretName, was, m), Passed(setup.script, was, 0);
    PassKeeps(script, was, 0);
    hide MeasuredRun, WatchRun, ApplyEdits, Steps, DueForRenewal, SettingsIn, CanDelete;
    match ExpiryIn(setup.parse, script(was.tick), secret)
    case None => RequestSteps(was, m, r, [], {k});
    case Some(notAfter) =>
      var e := ReadExpiry(secret, notAfter, read.clock);
      var got := Passed(script, Noted(read, e), 0);
      PassKeeps(script, Noted(read, e), 0);
      match SettingsIn(script(read.tick), k)
      case None => RequestSteps(was, m, r, [e], {k});
      case Some(adapter) =>
        if DueForRenewal(notAfter - read.clock, adapter.threshold) {
          ReplaceSteps(setup.script, secretName, adapter, was, got, m, e);
        } else {
          RequestSteps(was, m, r, [e], {k});
        }
  }

  lemma {:induction false} PassKeeps(script: Script, was: Locked, time: nat)
    requires StoreOk(was.store)
    ensures StoreOk(Passed(script, was, time).store)
  {
    EditsKeepStore(was.store, script(was.tick).edits);
  }

  lemma {:induction false} ReplaceSteps(script: Script, secretName: string, adapter: NimbleOpti, was: Locked,
                                        got: Locked, m: Metrics, e: Entry)
    requires StoreOk(got.store) && got.ing == was.ing && was.tick <= got.tick && got.log == was.log + [e]
    requires IsReadOf(e, SecretOf(was.ing.key, secretName)) && DueForRenewal(e.notAfter - e.at, adapter.threshold)
    ensures var r := ReplaceRun(script, secretName, adapter, got, m);
      && Steps(was, m, r, {was.ing.key}) && r.now.ing.key == was.ing.key
      && Since(was, r.now) != [] && Since(was, r.now)[0] == e
  {
    var k, secret := was.ing.key, SecretOf(was.ing.key, secretName);
    var r, deleted := ReplaceRun(script, secretName, adapter, got, m), Passed(script, got, 0);
    PassKeeps(script, got, 0);
    hide MeasuredRun, ApplyEdits, Steps, DueForRenewal, CanDelete;
    if !CanDelete(script(got.tick), secret) {
      RequestSteps(was, m, r, [e], {k});
    } else {
      var d := Deleted(secret, adapter.threshold);
      var watched := WatchRun(script, Noted(deleted, d));
      WatchFrame(script, Noted(deleted, d));
      hide WatchRun, Passed;
      assert watched.now.log == was.log + [e, d];
      var mid := Result(watched.now, m, watched.err);
      RequestSteps(was, m, mid, [e, d], {k});
      if watched.err.None? {
        MeasuredSteps(script, adapter, watched.now, m);
        StepsTwice(was, m, mid, MeasuredRun(script, adapter, watched.now, m), {k}, {k});
        StepsEnd(was, m, MeasuredRun(script, adapter, watched.now, m), {k});
      }
    }
  }

  lemma {:induction false} StepsEnd(was: Locked, m: Metrics, r: Result, keys: set<Key>)
    requires Steps(was, m, r, keys)
    ensures Steps(was, m, r.(err := None), keys)
  {}

  lemma {:induction false} WatchFrame(script: Script, was: Locked)
    requires StoreOk(was.store)
    ensures var now := WatchRun(script, was).now;
      now.ing == was.ing && now.log == was.log && was.tick < now.tick && StoreOk(now.store)
  {
    hide ApplyEdits, WatchVerdict;
    PassKeeps(script, was, 0);
    var e := script(was.tick);
    PassKeeps(script, Passed(script, was, 0), WatchSpent(e.watch.events, PATIENCE));
  }

  /** All TLS entries. Without an error each of their certificates was read. */
  lemma {:induction false} TlsUpToSteps(setup: Setup, tls: seq<Tls>, was: Locked, m: Metrics, n: nat)
    requires StoreOk(was.store) && n <= |tls|
    ensures var r := TlsUpTo(setup, tls, was, m, n);
      && Steps(was, m, r, {was.ing.key}) && r.now.ing.key == was.ing.key
      && var seg := Since(was, r.now);
         && (seg != [] ==> seg[0].ReadExpiry?)
         && (r.err.None? ==> forall i | 0 <= i < n :: IsRead(seg, SecretOf(was.ing.key, tls[i].secretName)))
  {
    hide TlsRun, Steps, SecretOf;
    if n == 0 {
      RequestSteps(was, m, TlsUpTo(setup, tls, was, m, 0), [], {was.ing.key});
    } else {
      var before, r := TlsUpTo(setup, tls, was, m, n - 1), TlsUpTo(setup, tls, was, m, n);
      TlsUpToSteps(setup, tls, was, m, n - 1);
      if before.err.None? {
        StepsKeep(was, m, before, {was.ing.key});
        TlsRunSteps(setup, tls[n - 1].secretName, before.now, before.metrics);
        StepsTwice(was, m, before, r, {was.ing.key}, {was.ing.key});
        hide TlsUpTo;
        var seg, more := Since(was, before.now), Since(before.now, r.now);
        forall i | 0 <= i < n && r.err.None?
          ensures IsRead(seg + more, SecretOf(was.ing.key, tls[i].secretName))
        {
          StaysRead(seg, more, SecretOf(was.ing.key, tls[i].secretName));
        }
      }
    }
  }

  lemma {:induction false} StepsKeep(was: Locked, m: Metrics, r: Result, keys: set<Key>)
    requires Steps(was, m, r, keys)
    ensures StoreOk(r.now.store) && was.tick <= r.now.tick
  {}

  ghost predicate IsRead(log: seq<Entry>, secret: SecretId) {
    exists i :: 0 <= i < |log| && IsReadOf(log[i], secret)
  }

  lemma {:induction false} StaysRead(a: seq<Entry>, b: seq<Entry>, secret: SecretId)
    ensures IsRead(a, secret) ==> IsRead(a + b, secret)
    ensures b != [] && IsReadOf(b[0], secret) ==> IsRead(a + b, secret)
  {
    if i :| 0 <= i < |a| && IsReadOf(a[i], secret) {
      assert (a + b)[i] == a[i];
    }
    if b != [] {
      assert (a + b)[|a|] == b[0];
    }
  }

  lemma {:induction false} ProcessSteps(script: Script, was: Locked, m: Metrics)
    requires StoreOk(was.store)
    ensures var r := ProcessRun(script, was, m);
      Steps(was, m, r, {was.ing.key}) && StoreOk(r.now.store) && r.now.ing.key == was.ing.key
  {
    var had := SettingsRun(script, NamespaceOf(was.ing.key), was);
    SettingsFrame(script, NamespaceOf(was.ing.key), was);
    hide SettingsRun, MeasuredRun, ScanRules;
    RequestSteps(was, m, Result(had.now, m, None), [], {was.ing.key});
    RequestSteps(was, m, ProcessRun(script, was, m).(now := had.now, metrics := m), [], {was.ing.key});
    if had.settings.Some? {
      MeasuredSteps(script, had.settings.value, had.now, m);
      StepsTwice(was, m, Result(had.now, m, None), MeasuredRun(script, had.settings.value, had.now, m),
                 {was.ing.key}, {was.ing.key});
    }
    hide Logged, Tallied;
  }

  function GuardedKey(ing: Ingress): set<Key> {
    if Guarded(ing) then {ing.key} else {}
  }

  lemma {:induction false} VisitSteps(setup: Setup, was: Locked, m: Metrics)
    requires StoreOk(was.store)
    ensures Steps(was, m, VisitRun(setup, was, m), GuardedKey(was.ing))
  {
    hide ProcessRun, MakesRenewal, TlsUpTo, Steps, Guarded;
    if !Guarded(was.ing) {
      RequestSteps(was, m, Result(was, m, None), [], {});
    } else {
      var r := ProcessRun(setup.script, was, m);
      ProcessSteps(setup.script, was, m);
      if r.err.None? && !MakesRenewal(setup.script, was) {
        TlsUpToSteps(setup, r.now.ing.tls, r.now, r.metrics, |r.now.ing.tls|);
        StepsTwice(was, m, r, VisitRun(setup, was, m), {was.ing.key}, {was.ing.key});
      }
    }
  }

  /** A visit that comes to the TLS entries and returns no error has read the certificate of each of them. */
  lemma {:induction false} VisitReads(setup: Setup, was: Locked, m: Metrics)
    requires StoreOk(was.store) && Guarded(was.ing) && !MakesRenewal(setup.script, was)
    requires VisitRun(setup, was, m).err.None?
    ensures var tls := ProcessRun(setup.script, was, m).now.ing.tls;
      forall i | 0 <= i < |tls| ::
        IsRead(Since(was, VisitRun(setup, was, m).now), SecretId(NamespaceOf(was.ing.key), tls[i].secretName))
  {
    hide ProcessRun, MakesRenewal, TlsUpTo, Steps, Guarded, IsRead;
    var r, out := ProcessRun(setup.script, was, m), VisitRun(setup, was, m);
    ProcessSteps(setup.script, was, m);
    TlsUpToSteps(setup, r.now.ing.tls, r.now, r.metrics, |r.now.ing.tls|);
    StepsTwice(was, m, r, out, {was.ing.key}, {was.ing.key});
    forall i | 0 <= i < |r.now.ing.tls|
      ensures IsRead(Since(was, out.now), SecretOf(was.ing.key, r.now.ing.tls[i].secretName))
    {
      ReadLater(Since(was, r.now), Since(r.now, out.now), SecretOf(was.ing.key, r.now.ing.tls[i].secretName));
    }
  }

  lemma {:induction false} ReadLater(a: seq<Entry>, b: seq<Entry>, secret: SecretId)
    requires IsRead(b, secret)
    ensures IsRead(a + b, secret)
  {
    var i :| 0 <= i < |b| && IsReadOf(b[i], secret);
    assert (a + b)[|a| + i] == b[i];
  }

  // ---- Certificates that are due.

  /** The run that is made once the challenge, watched for by the event after `got`, has been delivered. */
  ghost predicate IsReplaced(script: Script, adapter: NimbleOpti, got: Locked, m: Metrics, r: Result,
                             deleted: seq<Entry>) {
    var events := script(got.tick + 1).watch.events;
    exists i: nat, start: Locked ::
      && AppearsAt(events, 10_000_000_000, i)
      && start.ing == got.ing && start.held == got.held && start.log == deleted && start.tick == got.tick + 3
      && start.clock == got.clock + Elapsed(script, got.tick, got.tick + 3) + DeliveredAt(events, i)
      && r == MeasuredRun(script, adapter, start, m).(err := None)
  }

  /** After the deletion a run is started exactly if a challenge appears within ten seconds, as soon as it does, and its
      own failure is ignored. */
  lemma {:induction false} ReplacesExactly(script: Script, secretName: string, adapter: NimbleOpti, got: Locked,
                                           m: Metrics)
    ensures var secret, r := SecretOf(got.ing.key, secretName), ReplaceRun(script, secretName, adapter, got, m);
      var deleted, watch := got.log + [Deleted(secret, adapter.threshold)], script(got.tick + 1);
      if !CanDelete(script(got.tick), secret) then r.err == Some(DeleteFailed) && r.now.log == got.log
      else if watch.fault || !exists i: nat :: AppearsAt(watch.watch.events, 10_000_000_000, i)
      then r.err.Some? && r.now.log == deleted && r.metrics == m
      else r.err.None? && IsReplaced(script, adapter, got, m, r, deleted)
  {
    hide MeasuredRun, ApplyEdits, WatchVerdict, WatchSpent, AppearsAt;
    var secret, events := SecretOf(got.ing.key, secretName), script(got.tick + 1).watch.events;
    WatchSucceedsExactly(events, PATIENCE);
    if CanDelete(script(got.tick), secret) && !script(got.tick + 1).fault && WatchVerdict(events, PATIENCE).None? {
      var i: nat :| AppearsAt(events, PATIENCE, i);
      var start := WatchRun(script, Noted(Passed(script, got, 0), Deleted(secret, adapter.threshold))).now;
      ThreeEvents(script, got.tick);
      assert ReplaceRun(script, secretName, adapter, got, m) == MeasuredRun(script, adapter, start, m).(err := None);
    }
  }

  lemma {:induction false} ThreeEvents(script: Script, t: nat)
    ensures Elapsed(script, t, t + 3) == script(t).elapsed + script(t + 1).elapsed + script(t + 2).elapsed
  {
    assert Elapsed(script, t, t + 1) == script(t).elapsed;
    assert Elapsed(script, t, t + 2) == script(t).elapsed + script(t + 1).elapsed;
  }

  /**
   * One TLS entry, with settings of 106751 days at most. Its certificate is read if it can be, and then the settings if
   * they can be had. The secret is replaced exactly if at most the threshold remains when the certificate is read.
   */
  lemma {:induction false} TlsDueIsReplaced(setup: Setup, secretName: string, was: Locked, m: Metrics)
    ensures var r, script, t, ns := TlsRun(setup, secretName, was, m), setup.script, was.tick, NamespaceOf(was.ing.key);
      var first, second, secret := script(t), script(t + 1), SecretId(ns, secretName);
      if first.fault || secret !in first.secrets || first.secrets[secret].crt.None?
         || setup.parse(first.secrets[secret].crt.value).None?
      then r.err == Some(SecretUnreadable) && r.now.log == was.log && r.metrics == m
      else
        var notAfter, at := setup.parse(first.secrets[secret].crt.value).value, was.clock + first.elapsed;
        var got := Passed(script, Noted(Passed(script, was, 0), ReadExpiry(secret, notAfter, at)), 0);
        if second.fault || ns !in second.nimbles then r == Result(got, m, Some(AdapterFailed))
        else
          var adapter := second.nimbles[ns];
          1 <= adapter.threshold <= 106_751 ==>
            r == if notAfter - at <= adapter.threshold * DAY then ReplaceRun(script, secretName, adapter, got, m)
                 else Result(got, m, None)
  {
    hide ReplaceRun, ApplyEdits, DueForRenewal;
    match ExpiryIn(setup.parse, setup.script(was.tick), SecretOf(was.ing.key, secretName))
    case None =>
    case Some(notAfter) =>
      match SettingsIn(setup.script(was.tick + 1), was.ing.key)
      case None =>
      case Some(adapter) =>
        var remaining := notAfter - was.clock - setup.script(was.tick).elapsed;
        if 1 <= adapter.threshold <= 106_751 {
          ThresholdExactness(adapter.threshold);
          assert DueForRenewal(remaining, adapter.threshold) <==> remaining <= adapter.threshold * DAY;
        }
  }

  // ---- A whole audit.

  /** The keys that an audit may write to. */
  function GuardedKeys(items: seq<Ingress>): set<Key> {
    set i | 0 <= i < |items| && Guarded(items[i]) :: items[i].key
  }

  lemma {:induction false} AuditSteps(setup: Setup, items: seq<Ingress>, listed: Locked, m: Metrics, n: nat)
    requires StoreOk(listed.store) && Reached(setup, items, listed, m, n)
    ensures Steps(listed, m, AuditUpTo(setup, items, listed, m, n), GuardedKeys(items[..n]))
    decreases n
  {
    hide VisitRun, Steps, GuardedKey, GuardedKeys;
    if n == 0 {
      RequestSteps(listed, m, Result(listed, m, None), [], GuardedKeys(items[..0]));
    } else {
      var before := AuditUpTo(setup, items, listed, m, n - 1);
      var start := before.now.(ing := items[n - 1]);
      assert n > 1 ==> AuditUpTo(setup, items, listed, m, n - 2).err.None?;
      AuditSteps(setup, items, listed, m, n - 1);
      StepsKeep(listed, m, before, GuardedKeys(items[..n - 1]));
      VisitSteps(setup, start, before.metrics);
      FewerKeys(items, n);
      StepsMore(start, before.metrics, VisitRun(setup, start, before.metrics), GuardedKey(items[n - 1]),
                GuardedKeys(items[..n]));
      StepsFrom(start, before.now, before.metrics, VisitRun(setup, start, before.metrics), GuardedKeys(items[..n]));
      StepsTwice(listed, m, before, VisitRun(setup, start, before.metrics), GuardedKeys(items[..n - 1]),
                 GuardedKeys(items[..n]));
    }
  }

  lemma {:induction false} StepsMore(was: Locked, m: Metrics, r: Result, keys: set<Key>, more: set<Key>)
    requires Steps(was, m, r, keys) && keys <= more
    ensures Steps(was, m, r, more)
  {
    hide Tallied;
    forall i | |was.log| <= i < |r.now.log| ensures EntryOk(r.now.log, |was.log|, i, more, None) {
      assert EntryOk(r.now.log, |was.log|, i, keys, None);
    }
  }

  /** The copy in hand does not matter. */
  lemma {:induction false} StepsFrom(was: Locked, same: Locked, m: Metrics, r: Result, keys: set<Key>)
    requires Steps(was, m, r, keys) && same == was.(ing := same.ing)
    ensures Steps(same, m, r, keys)
  {
    hide Tallied, EntryOk;
  }

  lemma {:induction false} FewerKeys(items: seq<Ingress>, n: nat)
    requires 0 < n <= |items|
    ensures GuardedKeys(items[..n - 1]) <= GuardedKeys(items[..n])
    ensures GuardedKey(items[n - 1]) <= GuardedKeys(items[..n])
  {
    assert items[..n][n - 1] == items[n - 1];
    forall i | 0 <= i < n - 1 ensures items[..n - 1][i] == items[..n][i] {}
  }

  /** Each of the `n` ingresses that an audit visited was visited once, in the order of the listing and as it was
      listed, and what its visit logged is still there at the end. Only the last visit can have failed. */
  lemma {:induction false} EachIsVisited(setup: Setup, items: seq<Ingress>, listed: Locked, m: Metrics, n: nat, i: nat)
    requires StoreOk(listed.store) && Reached(setup, items, listed, m, n) && i < n
    ensures var before, after := AuditUpTo(setup, items, listed, m, i), AuditUpTo(setup, items, listed, m, i + 1);
      && before.err.None? && (i + 1 < n ==> after.err.None?)
      && after == VisitRun(setup, before.now.(ing := items[i]), before.metrics)
      && before.now.log <= after.now.log <= AuditUpTo(setup, items, listed, m, n).now.log
    decreases n
  {
    hide VisitRun, EntryOk, Tallied;
    VisitGrows(setup, items, listed, m, n);
    if i + 1 < n {
      EarlierReached(setup, items, listed, m, n);
      EachIsVisited(setup, items, listed, m, n - 1, i);
    }
  }

  lemma {:induction false} EarlierReached(setup: Setup, items: seq<Ingress>, listed: Locked, m: Metrics, n: nat)
    requires Reached(setup, items, listed, m, n) && n > 0
    ensures Reached(setup, items, listed, m, n - 1)
  {
    hide VisitRun;
  }

  lemma {:induction false} VisitGrows(setup: Setup, items: seq<Ingress>, listed: Locked, m: Metrics, n: nat)
    requires StoreOk(listed.store) && Reached(setup, items, listed, m, n) && n > 0
    ensures AuditUpTo(setup, items, listed, m, n - 1).now.log <= AuditUpTo(setup, items, listed, m, n).now.log
  {
    hide VisitRun, EntryOk, Tallied;
    var before := AuditUpTo(setup, items, listed, m, n - 1);
    EarlierReached(setup, items, listed, m, n);
    AuditSteps(setup, items, listed, m, n - 1);
    VisitSteps(setup, before.now.(ing := items[n - 1]), before.metrics);
  }

  /** After an audit, however it ended, the metrics hold exactly what its log calls for: one duration for each finished
      wait, and one renewal for each wait that was over in time and followed by the reinstatement. */
  lemma {:induction false} AuditIsAccounted(setup: Setup, items: seq<Ingress>, listed: Locked, m: Metrics, n: nat)
    requires StoreOk(listed.store) && Reached(setup, items, listed, m, n)
    ensures var r := AuditUpTo(setup, items, listed, m, n);
      var log, m' := Since(listed, r.now), r.metrics;
      && r.now.log == listed.log + log
      && m'.durations == m.durations + Observed(log) && m'.renewals == m.renewals + Counted(log)
      && Counted(log) <= |Observed(log)| <= Removals(log)
  {
    hide AuditUpTo, EntryOk, Observed, Counted, Removals;
    AuditSteps(setup, items, listed, m, n);
  }

  /** An audit writes only to visited ingresses that carry the label and the HTTPS annotation; each write changes one
      annotation; each deleted secret's certificate was read just before and was due by the settings then in force. */
  lemma {:induction false} AuditIsLogged(setup: Setup, items: seq<Ingress>, listed: Locked, m: Metrics, n: nat)
    requires StoreOk(listed.store) && Reached(setup, items, listed, m, n)
    ensures Logged(listed.log, AuditUpTo(setup, items, listed, m, n).now.log, GuardedKeys(items[..n]), None)
  {
    hide AuditUpTo, Logged, Tallied;
    AuditSteps(setup, items, listed, m, n);
  }

  /** Deletion safety over a whole audit, for settings up to 106751 days. */
  lemma {:induction false} DeletedOnlyWhenDue(setup: Setup, items: seq<Ingress>, listed: Locked, m: Metrics, n: nat,
                                              i: nat)
    requires StoreOk(listed.store) && Reached(setup, items, listed, m, n)
    requires var log := AuditUpTo(setup, items, listed, m, n).now.log;
      |listed.log| <= i < |log| && log[i].Deleted? && 1 <= log[i].days <= 106_751
    ensures var log := AuditUpTo(setup, items, listed, m, n).now.log;
      && i > |listed.log| && log[i - 1].ReadExpiry? && log[i - 1].secret == log[i].secret
      && log[i - 1].notAfter - log[i - 1].at <= log[i].days * DAY
  {
    hide AuditUpTo, DueForRenewal;
    AuditIsLogged(setup, items, listed, m, n);
    var log := AuditUpTo(setup, items, listed, m, n).now.log;
    assert EntryOk(log, |listed.log|, i, GuardedKeys(items[..n]), None);
    ThresholdExactness(log[i].days);
    assert DueForRenewal(log[i - 1].notAfter - log[i - 1].at, log[i].days);
  }
}
