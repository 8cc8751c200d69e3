/** What follows from the cronjob's audits: what a late attempt leads to, which secrets are deleted, what is written. */
module CronjobTheorems {
  import opened GoStrings
  import opened GoTime
  import opened IngressStore
  import opened Cluster
  import opened WatcherRuns
  import opened CronjobRuns
  import SecretName

  // ---- The verdict.

  /** Up to 4611686018 seconds of delay, a run is taken for a renewal exactly if its last poll saw no challenge and
      came back within the delay. */
  lemma {:induction false} VerdictIsTruthful(k: Key, delay: int, seg: seq<Entry>)
    requires RunSeg(k, Timeout(delay), seg) && |seg| >= 2 && 1 <= delay <= 4_611_686_018
    ensures Verdict(Timeout(delay), seg) <==> InTime(delay, seg[1])
    ensures Verdict(Timeout(delay), seg) ==> |seg[1].seen| >= 1 && seg[1].seen[|seg[1].seen| - 1].Absent?
  {
    DeadlineIsNotRenewed(delay);
    assert IsWait(seg[1], k, Timeout(delay));
    assert Timeout(delay) == delay * SECOND;
  }

  /** A wait that saw the challenge go, `delay` seconds after it began at the latest. */
  predicate InTime(delay: int, e: Entry) {
    e.Waited? && !e.timedOut && e.took <= delay * 1_000_000_000
  }

  /** A completed run whose wait did not. */
  predicate Late(delay: int, run: seq<Entry>) {
    |run| == 3 && !InTime(delay, run[1])
  }

  lemma {:induction false} LateIsNoVerdict(script: Script, lim: Limits, was: Locked, delay: int)
    requires StoreOk(was.store) && lim.timeout == Timeout(delay) && 1 <= delay <= 4_611_686_018
    ensures var first := RenewalRun(script, lim, was);
      var run := Since(was, first.now);
      Late(delay, run) <==> first.err.None? && !Verdict(lim.timeout, run)
  {
    hide RenewalRun, Shifted, InTime;
    RunFacts(script, lim, was);
    var run := Since(was, RenewalRun(script, lim, was).now);
    if |run| == 3 {
      VerdictIsTruthful(was.ing.key, delay, run);
    }
  }

  // ---- A late first attempt.

  /**
   * After a completed first attempt that came too late: the audit panics exactly if the ingress, as the attempt put it
   * back, has no TLS entry; otherwise it renames the first secret of that very object exactly if the rename's request
   * does not fail and nobody else writes to the ingress before it; and if so it makes a second attempt.
   */
  lemma {:induction false} LateAttemptExactly(script: Script, lim: Limits, was: Locked)
    requires StoreOk(was.store) && was.ing.key !in was.held
    requires var first := RenewalRun(script, lim, was);
      first.err.None? && !Verdict(lim.timeout, Since(was, first.now))
    ensures var first, out := RenewalRun(script, lim, was), ChallengeRun(script, lim, was);
      var seg, e, k := Since(was, out.now), script(first.now.tick), was.ing.key;
      && |seg| >= 3 && seg[..3] == Since(was, first.now) && RunSeg(k, lim.timeout, seg[..3])
      && (|seg| == 3 && out.err == Some(Panic) <==> seg[2].after.tls == [])
      && (|seg| == 3 && out.err == Some(UpdateFailed)
          <==> seg[2].after.tls != [] && (e.fault || WritesTo(e.edits, k)))
      && (|seg| > 3 <==> seg[2].after.tls != [] && !e.fault && !WritesTo(e.edits, k))
      && (|seg| > 3 ==> IsRename(seg[3], k) && seg[3].before == seg[2].after && RunSeg(k, lim.timeout, seg[4..]))
      && (|seg| > 3 ==> (out.err.None? <==> |seg| == 7))
  {
    var out, first := ChallengeRun(script, lim, was), RenewalRun(script, lim, was);
    var seg := Since(was, first.now);
    ChainStarts(script, was);
    ChainRun(script, lim, was, was, false, []);
    assert [] + seg == seg;
    RunEnds(was.ing.key, lim.timeout, seg);
    hide RenewalRun, RenameRun, Chain, Audited, Verdict, RunSeg, IsRename, WritesTo;
    if first.now.ing.tls == [] {
      ChainStops(script, was, first.now, false, seg, Some(Panic));
      SinceIsSeg(script, was, out, false, seg);
    } else {
      ChainRename(script, was, first.now, seg);
      var renamed := RenameRun(script, first.now.ing.tls[0].secretName, first.now);
      if renamed.err.Some? {
        SinceIsSeg(script, was, out, false, seg);
      } else {
        var e := renamed.now.log[|first.now.log|];
        ChainRun(script, lim, was, renamed.now, true, seg + [e]);
        var run := Since(renamed.now, out.now);
        SinceIsSeg(script, was, out, true, seg + [e] + run);
        ThreeParts(lim.timeout, seg, e, run);
      }
    }
  }

  lemma {:induction false} RunEnds(k: Key, t: int, run: seq<Entry>)
    requires RunSeg(k, t, run) && |run| == 3
    ensures run[2].Wrote? && run[..3] == run
  {}

  /** The audit of an ingress comes to a rename. */
  ghost predicate ComesToRename(script: Script, lim: Limits, was: Locked) {
    var first := RenewalRun(script, lim, was);
    && HasChallenge(was.ing.rules)
    && first.err.None? && !Verdict(lim.timeout, Since(was, first.now)) && first.now.ing.tls != []
    && !script(first.now.tick).fault && !WritesTo(script(first.now.tick).edits, was.ing.key)
  }

  /** The log of an audited ingress holds a rename exactly if it has a challenge, the first attempt was completed too
      late and left TLS entries, and the rename met neither a failure nor another writer. Nothing else renames. */
  lemma {:induction false} RenamesExactly(job: Job, was: Locked)
    requires StoreOk(was.store) && was.ing.key !in was.held
    ensures var seg := Since(was, AuditRun(job, was).now);
      && (Renames(was.ing, seg) <==> ComesToRename(job.script, job.lim, was))
      && (Renames(was.ing, seg) <==> exists i :: 0 <= i < |seg| && IsRename(seg[i], was.ing.key))
  {
    var out := AuditRun(job, was);
    var seg := Since(was, out.now);
    AuditRunFacts(job, was);
    ScanIsTruthful(was.ing.rules);
    hide HasChallenge, ScanRules, RenewalRun, ExpiryRun, Verdict, RunSeg, WritesTo, DueForRenewal, IsRename, Audited;
    if ScanRules(was.ing.rules).Found? {
      RenamesWhenLate(job, was);
    }
    if Renames(was.ing, seg) {
      assert IsRename(seg[3], was.ing.key) by { assert ChallengeSeg(was.ing.key, job.lim.timeout, seg, out.err); }
    } else {
      forall i | 0 <= i < |seg| ensures !IsRename(seg[i], was.ing.key) {
        NothingElseRenames(job, was.ing, seg, out.err, i);
      }
    }
  }

  lemma {:induction false} RenamesWhenLate(job: Job, was: Locked)
    requires StoreOk(was.store) && was.ing.key !in was.held && ScanRules(was.ing.rules).Found?
    ensures var seg := Since(was, AuditRun(job, was).now);
      |seg| > 3 <==> ComesToRename(job.script, job.lim, was)
  {
    ScanIsTruthful(was.ing.rules);
    var first := RenewalRun(job.script, job.lim, was);
    RunFacts(job.script, job.lim, was);
    SegmentOf(job.script, job.lim.timeout, was, first);
    hide HasChallenge, ScanRules, RenewalRun, Verdict, RunSeg, WritesTo, IsRename, IsRun;
    if first.err.None? && !Verdict(job.lim.timeout, Since(was, first.now)) {
      LateAttemptExactly(job.script, job.lim, was);
      LeftInHand(job.script, job.lim, was);
    }
  }

  /** What a completed run leaves in hand is what it wrote last. */
  lemma {:induction false} LeftInHand(script: Script, lim: Limits, was: Locked)
    requires StoreOk(was.store) && RenewalRun(script, lim, was).err.None?
    ensures var first := RenewalRun(script, lim, was);
      var run := Since(was, first.now);
      |run| == 3 && run[2].Wrote? && run[2].after == first.now.ing
  {
    hide RenewalRun, Shifted;
    RunFacts(script, lim, was);
  }

  lemma {:induction false} NothingElseRenames(job: Job, ing: Ingress, seg: seq<Entry>, err: Option<Error>, i: nat)
    requires AuditSeg(job, ing, seg, err) && !Renames(ing, seg) && i < |seg|
    ensures !IsRename(seg[i], ing.key)
  {
    hide ScanRules, Verdict, RunSeg, DueForRenewal;
    if ScanRules(ing.rules).Found? {
      RunHasNoRename(ing.key, job.lim.timeout, seg, i);
    } else if i >= 2 {
      assert seg[1..][1..] == seg[2..];
      RunHasNoRename(ing.key, job.lim.timeout, seg[2..], i - 2);
    } else if i == 1 {
      assert seg[1..][0] == seg[1];
    }
  }

  lemma {:induction false} RunHasNoRename(k: Key, t: int, run: seq<Entry>, i: nat)
    requires RunSeg(k, t, run) && i < |run|
    ensures !IsRename(run[i], k)
  {
    hide SecretName.Next, Sentinel;
    if run[i].Wrote? && run[i].before.tls != [] {
      var tls := run[i].before.tls;
      SecretName.NextDiffers(tls[0].secretName);
      assert HeadRenamed(tls)[0].secretName != tls[0].secretName;
    }
  }

  /** What the counter of renewed ingresses counts, up to 4611686018 seconds of delay: those with a challenge whose
      audit went without an error, and whose last wait saw the challenge go within the delay. */
  lemma {:induction false} RenewedExactly(job: Job, was: Locked)
    requires StoreOk(was.store) && was.ing.key !in was.held
    requires job.lim.timeout == Timeout(job.config.delay) && 1 <= job.config.delay <= 4_611_686_018
    ensures var out := AuditRun(job, was);
      var seg := Since(was, out.now);
      IsRenewed(job, was) <==>
        && HasChallenge(was.ing.rules) && out.err.None?
        && (|seg| == 3 || |seg| == 7) && InTime(job.config.delay, if |seg| == 3 then seg[1] else seg[5])
  {
    ScanIsTruthful(was.ing.rules);
    hide ScanRules, HasChallenge, ChallengeRun, LastVerdict;
    if HasChallenge(was.ing.rules) && AuditRun(job, was).err.None? {
      ChallengeRenewed(job.script, job.lim, was, job.config.delay);
    }
  }

  lemma {:induction false} ChallengeRenewed(script: Script, lim: Limits, was: Locked, delay: int)
    requires StoreOk(was.store) && was.ing.key !in was.held && ChallengeRun(script, lim, was).err.None?
    requires lim.timeout == Timeout(delay) && 1 <= delay <= 4_611_686_018
    ensures var seg := Since(was, ChallengeRun(script, lim, was).now);
      && (|seg| == 3 || |seg| == 7)
      && (LastVerdict(script, lim, was) <==> InTime(delay, if |seg| == 3 then seg[1] else seg[5]))
  {
    var k, out, first := was.ing.key, ChallengeRun(script, lim, was), RenewalRun(script, lim, was);
    var seg := Since(was, first.now);
    ChainStarts(script, was);
    ChainRun(script, lim, was, was, false, []);
    assert [] + seg == seg;
    hide RenewalRun, RenameRun, Chain, Audited, Verdict, RunSeg, IsRename, WritesTo, InTime;
    if Verdict(lim.timeout, seg) {
      SinceIsSeg(script, was, out, false, seg);
      VerdictIsTruthful(k, delay, seg);
    } else {
      ChainRename(script, was, first.now, seg);
      var renamed := RenameRun(script, first.now.ing.tls[0].secretName, first.now);
      var e := renamed.now.log[|first.now.log|];
      ChainRun(script, lim, was, renamed.now, true, seg + [e]);
      var run := Since(renamed.now, out.now);
      SinceIsSeg(script, was, out, true, seg + [e] + run);
      VerdictIsTruthful(k, delay, run);
      assert (seg + [e] + run)[5] == run[1];
    }
  }

  // ---- Certificates that are due.

  /**
   * With admin rights, for an ingress with TLS entries and no challenge, at every threshold up to 106751 days: the
   * certificate of the first secret is read if it can be; its secret is deleted exactly if at most the threshold
   * remains at that moment and the deletion is not refused; a refusal ends the audit; and a run starts five seconds
   * after the deletion.
   */
  lemma {:induction false} DueIsDeleted(job: Job, was: Locked)
    requires was.ing.tls != [] && ScanRules(was.ing.rules).Absent?
    requires job.config.admin && 1 <= job.config.threshold <= 106_751
    ensures var out, t, e := AuditRun(job, was), was.tick, job.script(was.tick);
      var secret := SecretId(NamespaceOf(was.ing.key), was.ing.tls[0].secretName);
      if e.fault || secret !in e.secrets || e.secrets[secret].crt.None? || job.parse(e.secrets[secret].crt.value).None?
      then out.err == Some(SecretUnreadable) && out.now.log == was.log
      else
        var at, notAfter := was.clock + e.elapsed, job.parse(e.secrets[secret].crt.value).value;
        var read := was.log + [ReadExpiry(secret, notAfter, at)];
        var due, can := notAfter - at <= job.config.threshold * DAY, CanDelete(job.script(t + 1), secret);
        && (!due ==> out.err.None? && out.now.log == read)
        && (due && !can ==> out.err == Some(DeleteFailed) && out.now.log == read)
        && (due && can ==> exists start ::
              && out == RenewalRun(job.script, job.lim, start) && start.ing == was.ing && start.held == was.held
              && start.log == read + [Deleted(secret, job.config.threshold)] && start.tick == t + 3
              && start.clock == at + job.script(t + 1).elapsed + job.script(t + 2).elapsed + 5_000_000_000)
  {
    hide RenewalRun, ApplyEdits, DueForRenewal, ScanRules;
    ThresholdExactness(job.config.threshold);
    var at := was.clock + job.script(was.tick).elapsed;
    match ExpiryIn(job.parse, job.script(was.tick), SecretOf(was.ing.key, was.ing.tls[0].secretName))
    case None =>
    case Some(notAfter) =>
      var remaining := notAfter - at;
      assert DueForRenewal(remaining, job.config.threshold) <==> remaining <= job.config.threshold * DAY;
  }

  // ---- Ingresses without TLS entries.

  /** Without a challenge and without TLS entries the audit fails in the deletion of a secret with an empty name,
      exactly if it has admin rights, and at every threshold up to 106751 days. */
  lemma {:induction false} NoTlsFailsExactly(job: Job, was: Locked)
    requires was.ing.tls == [] && ScanRules(was.ing.rules).Absent?
    ensures AuditRun(job, was).err == Some(DeleteFailed) <==> job.config.admin && Threshold(job.config.threshold) >= 0
    ensures AuditRun(job, was).now.log == was.log && AuditRun(job, was).err in {None, Some(DeleteFailed)}
    ensures 1 <= job.config.threshold <= 106_751 ==> Threshold(job.config.threshold) >= 0
  {
    hide ScanRules;
    if 1 <= job.config.threshold <= 106_751 {
      ThresholdExactness(job.config.threshold);
      assert DueForRenewal(0, job.config.threshold) <==> 0 <= job.config.threshold * DAY;
    }
  }

  /** So a whole audit with admin rights ends at the first such ingress, and no later one is visited. */
  lemma {:induction false} NoTlsEndsAudit(job: Job, items: seq<Ingress>, listed: Locked, n: nat, i: nat)
    requires Reached(job, items, listed, n) && i < n
    requires items[i].tls == [] && ScanRules(items[i].rules).Absent? && 1 <= job.config.threshold <= 106_751
    ensures SegOf(job, items, listed, i) == []
    ensures i == n - 1 && AuditUpTo(job, items, listed, n).err == Some(DeleteFailed) <==> job.config.admin
  {
    hide AuditRun, ScanRules;
    ReachedBefore(job, items, listed, n, i);
    NoTlsFailsExactly(job, StartOf(job, items, listed, i));
    if i + 1 < n {
      ReachedBefore(job, items, listed, n, i + 1);
    }
  }

  // ---- The log of a whole audit.

  lemma {:induction false} SegIsLogged(job: Job, ing: Ingress, seg: seq<Entry>, err: Option<Error>)
    requires AuditSeg(job, ing, seg, err)
    ensures Logged([], seg, {ing.key}, Some(job.config.threshold))
  {
    hide DueForRenewal, IsWait, IsStrip, IsRestore, IsRename, Verdict;
    forall i | 0 <= i < |seg| ensures EntryOk(seg, 0, i, {ing.key}, Some(job.config.threshold)) {
      if ScanRules(ing.rules).Found? {
        ChallengeEntry(ing.key, job.lim.timeout, seg, err, i, Some(job.config.threshold));
      } else if i >= 1 {
        assert seg[1..][0] == seg[1] && seg[1..][1..] == seg[2..];
        if i >= 2 {
          RunEntry(ing.key, job.lim.timeout, seg, 2, i, Some(job.config.threshold));
        }
      }
    }
  }

  lemma {:induction false} ChallengeEntry(k: Key, t: int, seg: seq<Entry>, err: Option<Error>, i: nat,
                                          days: Option<int>)
    requires ChallengeSeg(k, t, seg, err) && i < |seg|
    ensures EntryOk(seg, 0, i, {k}, days)
  {
    hide Verdict;
    if |seg| > 3 {
      if i < 3 {
        assert seg[..3][i] == seg[i];
      } else if i > 3 {
        assert seg[4..][i - 4] == seg[i];
      }
    }
  }

  function KeysOf(items: seq<Ingress>): set<Key> {
    set i | 0 <= i < |items| :: items[i].key
  }

  /** An audit writes to the ingresses it visited and to no others; each write changes one annotation or moves the
      first secret name on; each deleted secret's certificate was read just before and was due. */
  lemma {:induction false} AuditIsLogged(job: Job, items: seq<Ingress>, listed: Locked, n: nat)
    requires IsAudit(items, listed) && Reached(job, items, listed, n)
    ensures Logged(listed.log, AuditUpTo(job, items, listed, n).now.log, KeysOf(items[..n]), Some(job.config.threshold))
  {
    hide AuditRun, EntryOk, KeysOf;
    if n > 0 {
      hide Logged;
      ReachedBefore(job, items, listed, n, n - 1);
      AuditIsLogged(job, items, listed, n - 1);
      OneMoreIsLogged(job, items, listed, n);
      hide AuditUpTo;
      var mid, now := AuditUpTo(job, items, listed, n - 1).now.log, AuditUpTo(job, items, listed, n).now.log;
      var days := Some(job.config.threshold);
      FewerKeys(items, n);
      LoggedMore(listed.log, mid, KeysOf(items[..n - 1]), KeysOf(items[..n]), days);
      LoggedTwice(listed.log, mid, now, KeysOf(items[..n]), KeysOf(items[..n]), days);
    }
  }

  lemma {:induction false} OneMoreIsLogged(job: Job, items: seq<Ingress>, listed: Locked, n: nat)
    requires IsAudit(items, listed) && Reached(job, items, listed, n) && n > 0
    ensures Logged(AuditUpTo(job, items, listed, n - 1).now.log, AuditUpTo(job, items, listed, n).now.log,
                   KeysOf(items[..n]), Some(job.config.threshold))
  {
    hide AuditRun, AuditSeg, Shifted, Logged, KeysOf, SegOf;
    var seg, mid := SegOf(job, items, listed, n - 1), AuditUpTo(job, items, listed, n - 1).now.log;
    ReachedBefore(job, items, listed, n, n - 1);
    AuditFacts(job, items, listed, n);
    AuditFacts(job, items, listed, n - 1);
    LogGrows(job, items, listed, n);
    SegIsLogged(job, items[n - 1], seg, AuditUpTo(job, items, listed, n).err);
    FewerKeys(items, n);
    LoggedAfter(mid, seg, {items[n - 1].key}, KeysOf(items[..n]), Some(job.config.threshold));
  }

  lemma {:induction false} LogGrows(job: Job, items: seq<Ingress>, listed: Locked, n: nat)
    requires 0 < n <= |items| && Progress(job, items, listed, n) && Progress(job, items, listed, n - 1)
    ensures AuditUpTo(job, items, listed, n).now.log
         == AuditUpTo(job, items, listed, n - 1).now.log + SegOf(job, items, listed, n - 1)
  {
    hide AuditUpTo, SegOf, Shifted, RenamedKeys, Segs;
    var segs, more := Segs(job, items, listed, n), Segs(job, items, listed, n - 1);
    SegsGrow(job, items, listed, n);
    assert segs[..n - 1] == more;
    assert listed.log + Concat(more) + segs[n - 1] == listed.log + (Concat(more) + segs[n - 1]);
  }

  lemma {:induction false} SegsGrow(job: Job, items: seq<Ingress>, listed: Locked, n: nat)
    requires 0 < n <= |items|
    ensures Segs(job, items, listed, n) == Segs(job, items, listed, n - 1) + [SegOf(job, items, listed, n - 1)]
  {}

  lemma {:induction false} FewerKeys(items: seq<Ingress>, n: nat)
    requires 0 < n <= |items|
    ensures KeysOf(items[..n - 1]) <= KeysOf(items[..n]) && {items[n - 1].key} <= KeysOf(items[..n])
  {
    assert items[..n][n - 1] == items[n - 1];
    forall i | 0 <= i < n - 1 ensures items[..n - 1][i] == items[..n][i] {}
  }

  lemma {:induction false} LoggedMore(a: seq<Entry>, b: seq<Entry>, keys: set<Key>, more: set<Key>, days: Option<int>)
    requires Logged(a, b, keys, days) && keys <= more
    ensures Logged(a, b, more, days)
  {
    forall i | |a| <= i < |b| ensures EntryOk(b, |a|, i, more, days) {
      assert EntryOk(b, |a|, i, keys, days);
    }
  }

  /** Deletion safety over a whole audit: a secret is deleted only right after its own certificate was read, and only
      if the exact remaining time was at most the threshold, for every threshold up to 106751 days. */
  lemma {:induction false} DeletedOnlyWhenDue(job: Job, items: seq<Ingress>, listed: Locked, n: nat, i: nat)
    requires IsAudit(items, listed) && Reached(job, items, listed, n) && 1 <= job.config.threshold <= 106_751
    requires var log := AuditUpTo(job, items, listed, n).now.log;
      |listed.log| <= i < |log| && log[i].Deleted?
    ensures var log := AuditUpTo(job, items, listed, n).now.log;
      && i > |listed.log| && log[i - 1].ReadExpiry? && log[i - 1].secret == log[i].secret
      && log[i - 1].notAfter - log[i - 1].at <= job.config.threshold * DAY
  {
    hide AuditUpTo, DueForRenewal;
    AuditIsLogged(job, items, listed, n);
    var log := AuditUpTo(job, items, listed, n).now.log;
    assert EntryOk(log, |listed.log|, i, KeysOf(items[..n]), Some(job.config.threshold));
    ThresholdExactness(job.config.threshold);
    assert DueForRenewal(log[i - 1].notAfter - log[i - 1].at, job.config.threshold);
  }

  // ---- Whole audits.

  /** Each visited ingress is taken up with its key free, so what holds of one audited ingress holds of each. */
  lemma {:induction false} TakenUp(job: Job, items: seq<Ingress>, listed: Locked, n: nat, i: nat)
    requires IsAudit(items, listed) && Reached(job, items, listed, n) && i < n
    ensures var start := StartOf(job, items, listed, i);
      && StoreOk(start.store) && start.ing == items[i] && start.ing.key !in start.held
      && AuditUpTo(job, items, listed, i + 1) == AuditRun(job, start)
  {
    hide AuditRun, Shifted;
    ReachedBefore(job, items, listed, n, i);
    AuditFacts(job, items, listed, i);
  }

  /** An audit renamed the first secret of `k` exactly if it visited `k` and came to a rename there. */
  lemma {:induction false} RenamedKeysExactly(job: Job, items: seq<Ingress>, listed: Locked, n: nat, k: Key)
    requires IsAudit(items, listed) && Reached(job, items, listed, n)
    ensures k in RenamedKeys(job, items, listed, n) <==>
      exists i :: 0 <= i < n && items[i].key == k && ComesToRename(job.script, job.lim, StartOf(job, items, listed, i))
  {
    hide ComesToRename, Renames, AuditRun, AuditUpTo, SegOf, StartOf;
    if n > 0 {
      ReachedBefore(job, items, listed, n, n - 1);
      RenamedKeysExactly(job, items, listed, n - 1, k);
      VisitRenames(job, items, listed, n, n - 1);
    }
  }

  lemma {:induction false} VisitRenames(job: Job, items: seq<Ingress>, listed: Locked, n: nat, i: nat)
    requires IsAudit(items, listed) && Reached(job, items, listed, n) && i < n
    ensures Renames(items[i], SegOf(job, items, listed, i))
       <==> ComesToRename(job.script, job.lim, StartOf(job, items, listed, i))
  {
    hide ComesToRename, Renames, IsRename, AuditRun, AuditUpTo;
    TakenUp(job, items, listed, n, i);
    RenamesExactly(job, StartOf(job, items, listed, i));
  }

  /** In an audit that visits `n` ingresses, a late first attempt on one of them ends the audit in a panic exactly if it
      left no TLS entry, and in a failed Update exactly if the rename was refused; otherwise the secret is renamed. */
  lemma {:induction false} LateInAudit(job: Job, items: seq<Ingress>, listed: Locked, n: nat, i: nat)
    requires IsAudit(items, listed) && Reached(job, items, listed, n) && i < n && HasChallenge(items[i].rules)
    requires var start := StartOf(job, items, listed, i);
      var first := RenewalRun(job.script, job.lim, start);
      first.err.None? && !Verdict(job.lim.timeout, Since(start, first.now))
    ensures var end := AuditUpTo(job, items, listed, n).err;
      var first := RenewalRun(job.script, job.lim, StartOf(job, items, listed, i)).now;
      var e := job.script(first.tick);
      && (first.ing.tls == [] ==> i == n - 1 && end == Some(Panic))
      && (first.ing.tls != [] && (e.fault || WritesTo(e.edits, items[i].key)) ==>
            i == n - 1 && end == Some(UpdateFailed))
      && (first.ing.tls != [] && !e.fault && !WritesTo(e.edits, items[i].key) <==>
          items[i].key in RenamedKeys(job, items, listed, n))
  {
    hide AuditRun, ChallengeRun, RenewalRun, WritesTo, Verdict, HasChallenge, ComesToRename, AuditUpTo;
    TakenUp(job, items, listed, n, i);
    LateAttemptEnds(job, StartOf(job, items, listed, i));
    RenamedKeysExactly(job, items, listed, n, items[i].key);
    if i + 1 < n {
      ReachedBefore(job, items, listed, n, i + 1);
    }
  }

  lemma {:induction false} LateAttemptEnds(job: Job, was: Locked)
    requires StoreOk(was.store) && was.ing.key !in was.held && HasChallenge(was.ing.rules)
    requires var first := RenewalRun(job.script, job.lim, was);
      first.err.None? && !Verdict(job.lim.timeout, Since(was, first.now))
    ensures var out, first := AuditRun(job, was), RenewalRun(job.script, job.lim, was).now;
      var e := job.script(first.tick);
      && (first.ing.tls == [] ==> out.err == Some(Panic))
      && (first.ing.tls != [] && (e.fault || WritesTo(e.edits, was.ing.key)) ==> out.err == Some(UpdateFailed))
      && (first.ing.tls != [] && !e.fault && !WritesTo(e.edits, was.ing.key)
          <==> ComesToRename(job.script, job.lim, was))
  {
    ScanIsTruthful(was.ing.rules);
    LateAttemptExactly(job.script, job.lim, was);
    LeftInHand(job.script, job.lim, was);
    hide ChallengeRun, RenewalRun, WritesTo, RunSeg, IsRename, Verdict, HasChallenge, ScanRules;
  }
}
