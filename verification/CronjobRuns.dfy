/** The cronjob's audit as functions of the server's script, and what follows step by step. */
module CronjobRuns {
  import opened GoStrings
  import opened GoTime
  import opened IngressStore
  import opened Cluster
  import opened WatcherRuns
  import SecretName

  /** The delay in seconds and the threshold in days are checked to be positive when they are loaded. */
  datatype Config = Config(threshold: int, delay: int, admin: bool)

  /** What an audit depends on besides its state. */
  datatype Job = Job(script: Script, lim: Limits, config: Config, parse: Parser)

  // ---- The rename.

  function FirstNamed(tls: seq<Tls>, name: string): (i: nat)
    ensures i <= |tls| && (i < |tls| ==> tls[i].secretName == name)
    ensures forall j | 0 <= j < i :: tls[j].secretName != name
  {
    if tls == [] || tls[0].secretName == name then 0 else 1 + FirstNamed(tls[1..], name)
  }

  lemma {:induction false} FirstNamedIs(tls: seq<Tls>, name: string, i: nat)
    requires i <= |tls| && (i < |tls| ==> tls[i].secretName == name)
    requires forall j | 0 <= j < i :: tls[j].secretName != name
    ensures FirstNamed(tls, name) == i
  {}

  ghost function RenameTls(tls: seq<Tls>, name: string): seq<Tls> {
    var i := FirstNamed(tls, name);
    if i < |tls| then tls[i := tls[i].(secretName := SecretName.Next(name))] else tls
  }

  /** The caller's copy is renamed in any case; the server's object only if the copy is still current. */
  ghost function RenameRun(script: Script, name: string, was: Locked): Outcome {
    var renamed := was.(ing := was.ing.(tls := RenameTls(was.ing.tls, name)));
    var passed := Passed(script, renamed, 0);
    var after := Stamp(passed.store, renamed.ing);
    if was.ing.key in was.held then
      Outcome(renamed, Some(KeyLocked))
    else if script(was.tick).fault || !CanUpdate(passed.store, renamed.ing) then
      Outcome(passed, Some(UpdateFailed))
    else
      Outcome(Noted(passed.(store := Update(passed.store, renamed.ing), ing := after),
                    Wrote(passed.store.objs[was.ing.key], after)), None)
  }

  // ---- One ingress of an audit.

  /** A run's verdict on the certificate: the wait is over, and in time. */
  ghost predicate Verdict(timeout: int, seg: seq<Entry>) {
    |seg| >= 2 && seg[1].Waited? && CronjobRenewed(timeout, seg[1].took)
  }

  /** With a challenge: a run, and if it came too late the rename of the first secret and a second run. */
  ghost function ChallengeRun(script: Script, lim: Limits, was: Locked): Outcome {
    var first := RenewalRun(script, lim, was);
    if first.err.Some? || Verdict(lim.timeout, Since(was, first.now)) then first
    else if first.now.ing.tls == [] then Outcome(first.now, Some(Panic))
    else
      var renamed := RenameRun(script, first.now.ing.tls[0].secretName, first.now);
      if renamed.err.Some? then renamed else RenewalRun(script, lim, renamed.now)
  }

  /** The verdict of the last run of `ChallengeRun`: of the first one, or of the one after the rename. */
  ghost predicate LastVerdict(script: Script, lim: Limits, was: Locked) {
    var first := RenewalRun(script, lim, was);
    if first.err.Some? || Verdict(lim.timeout, Since(was, first.now)) then first.err.None?
    else if first.now.ing.tls == [] then false
    else
      var renamed := RenameRun(script, first.now.ing.tls[0].secretName, first.now);
      && renamed.err.None?
      && Verdict(lim.timeout, Since(renamed.now, RenewalRun(script, lim, renamed.now).now))
  }

  /** A secret that is due: it is deleted, and five seconds later a run is started. */
  ghost function ReplaceRun(job: Job, secret: SecretId, was: Locked): Outcome {
    var deleted := Passed(job.script, was, 0);
    if !CanDelete(job.script(was.tick), secret) then Outcome(deleted, Some(DeleteFailed))
    else
      var noted := Noted(deleted, Deleted(secret, job.config.threshold));
      RenewalRun(job.script, job.lim, Passed(job.script, noted, 5 * SECOND))
  }

  /** Without a challenge, for an administrator: the certificate of the first secret is read, and its secret replaced if
      it is due. Without TLS entries the remaining time is taken for zero, and the name for empty. */
  ghost function ExpiryRun(job: Job, was: Locked): Outcome {
    var tls := was.ing.tls;
    if tls == [] then
      if 0 <= Threshold(job.config.threshold) then ReplaceRun(job, SecretOf(was.ing.key, ""), was)
      else Outcome(was, None)
    else
      var secret := SecretOf(was.ing.key, tls[0].secretName);
      var read := Passed(job.script, was, 0);
      match ExpiryIn(job.parse, job.script(was.tick), secret)
      case None => Outcome(read, Some(SecretUnreadable))
      case Some(notAfter) =>
        var noted := Noted(read, ReadExpiry(secret, notAfter, read.clock));
        if DueForRenewal(notAfter - read.clock, job.config.threshold) then ReplaceRun(job, secret, noted)
        else Outcome(noted, None)
  }

  ghost function AuditRun(job: Job, was: Locked): Outcome {
    match ScanRules(was.ing.rules)
    case NilHttp => Outcome(was, Some(Panic))
    case Found => ChallengeRun(job.script, job.lim, was)
    case Absent => if job.config.admin then ExpiryRun(job, was) else Outcome(was, None)
  }

  // ---- A whole audit.

  /** The listed ingresses one after the other, up to the first error. */
  ghost function AuditUpTo(job: Job, items: seq<Ingress>, listed: Locked, n: nat): Outcome
    requires n <= |items|
  {
    if n == 0 then Outcome(listed, None)
    else
      var before := AuditUpTo(job, items, listed, n - 1);
      if before.err.Some? then before else AuditRun(job, before.now.(ing := items[n - 1]))
  }

  /** The state in which ingress `i` is taken up, and what its audit adds to the log. */
  ghost function StartOf(job: Job, items: seq<Ingress>, listed: Locked, i: nat): Locked
    requires i < |items|
  {
    AuditUpTo(job, items, listed, i).now.(ing := items[i])
  }

  ghost function SegOf(job: Job, items: seq<Ingress>, listed: Locked, i: nat): seq<Entry>
    requires i < |items|
  {
    Since(StartOf(job, items, listed, i), AuditRun(job, StartOf(job, items, listed, i)).now)
  }

  function CountFound(items: seq<Ingress>): nat {
    if items == [] then 0
    else CountFound(items[..|items| - 1]) + if ScanRules(items[|items| - 1].rules).Found? then 1 else 0
  }

  /** The ingress had a challenge, and its last run was completed in time. */
  ghost predicate IsRenewed(job: Job, was: Locked) {
    HasChallenge(was.ing.rules) && AuditRun(job, was).err.None? && LastVerdict(job.script, job.lim, was)
  }

  ghost function CountRenewed(job: Job, items: seq<Ingress>, listed: Locked, n: nat): nat
    requires n <= |items|
  {
    if n == 0 then 0
    else CountRenewed(job, items, listed, n - 1)
         + if IsRenewed(job, StartOf(job, items, listed, n - 1)) then 1 else 0
  }

  /** The audit renamed the first secret of this ingress: a challenge, and more in the log than one run. */
  ghost predicate Renames(ing: Ingress, seg: seq<Entry>) {
    ScanRules(ing.rules).Found? && |seg| > 3
  }

  ghost function RenamedKeys(job: Job, items: seq<Ingress>, listed: Locked, n: nat): set<Key>
    requires n <= |items|
  {
    if n == 0 then {}
    else RenamedKeys(job, items, listed, n - 1)
         + if Renames(items[n - 1], SegOf(job, items, listed, n - 1)) then {items[n - 1].key} else {}
  }

  // ---- What an audit leaves in the log.

  /** What the audit does to one ingress, and how it ends. */
  ghost predicate AuditSeg(job: Job, ing: Ingress, seg: seq<Entry>, err: Option<Error>) {
    match ScanRules(ing.rules)
    case NilHttp => seg == [] && err == Some(Panic)
    case Found => ChallengeSeg(ing.key, job.lim.timeout, seg, err)
    case Absent => if job.config.admin then ExpirySeg(job, ing, seg, err) else seg == [] && err.None?
  }

  ghost predicate ChallengeSeg(k: Key, t: int, seg: seq<Entry>, err: Option<Error>) {
    if |seg| < 3 then
      RunSeg(k, t, seg) && err.Some?
    else if Verdict(t, seg) then
      |seg| == 3 && RunSeg(k, t, seg) && err.None?
    else if |seg| == 3 then
      RunSeg(k, t, seg) && (err == Some(Panic) || err == Some(UpdateFailed))
    else
      RunSeg(k, t, seg[..3]) && IsRename(seg[3], k) && RunSeg(k, t, seg[4..]) && (err.None? <==> |seg| == 7)
  }

  ghost predicate ExpirySeg(job: Job, ing: Ingress, seg: seq<Entry>, err: Option<Error>) {
    if ing.tls == [] then
      seg == [] && err == if Threshold(job.config.threshold) < 0 then None else Some(DeleteFailed)
    else if seg == [] then
      err == Some(SecretUnreadable)
    else if !IsReadOf(seg[0], SecretOf(ing.key, ing.tls[0].secretName)) then
      false
    else if !DueForRenewal(seg[0].notAfter - seg[0].at, job.config.threshold) then
      |seg| == 1 && err.None?
    else
      ReplaceSeg(job, ing.key, seg[0].secret, seg[1..], err)
  }

  ghost predicate ReplaceSeg(job: Job, k: Key, secret: SecretId, seg: seq<Entry>, err: Option<Error>) {
    if seg == [] then
      err == Some(DeleteFailed)
    else
      && seg[0] == Deleted(secret, job.config.threshold)
      && RunSeg(k, job.lim.timeout, seg[1..]) && (err.None? <==> |seg| == 4)
  }

  // ---- One ingress of an audit, step by step: the lock, the TLS entries and the log.

  /** The steps taken so far for the ingress, none of which failed, and the entries they added. */
  ghost predicate Chain(script: Script, was: Locked, now: Locked, renamed: bool, seg: seq<Entry>) {
    && now.ing.key == was.ing.key && was.tick <= now.tick && was.clock <= now.clock && now.held == was.held
    && StoreOk(now.store) && now.log == was.log + seg
    && Shifted(script, was.store, now.store, if renamed then {was.ing.key} else {})
  }

  /** The ingress is done, or the audit stops here. A held key cannot be the reason, and only a failed Get leaves the
      key held. The first secret name has moved on by one version if it was renamed, and not at all otherwise. */
  ghost predicate Audited(script: Script, was: Locked, out: Outcome, renamed: bool, seg: seq<Entry>) {
    && out.now.ing.key == was.ing.key && was.tick <= out.now.tick && was.clock <= out.now.clock
    && out.err != Some(KeyLocked) && out.err != Some(ListFailed)
    && out.now.held == was.held + (if out.err == Some(GetFailed) then {was.ing.key} else {})
    && StoreOk(out.now.store) && out.now.log == was.log + seg
    && Shifted(script, was.store, out.now.store, if renamed then {was.ing.key} else {})
  }

  lemma {:induction false} ChainStarts(script: Script, was: Locked)
    requires StoreOk(was.store)
    ensures Chain(script, was, was, false, [])
  {
    SteadySelf(script, was.store);
  }

  lemma {:induction false} ChainStops(script: Script, was: Locked, now: Locked, renamed: bool, seg: seq<Entry>,
                                      err: Option<Error>)
    requires Chain(script, was, now, renamed, seg)
    requires err != Some(GetFailed) && err != Some(KeyLocked) && err != Some(ListFailed)
    ensures Audited(script, was, Outcome(now, err), renamed, seg)
  {}

  lemma {:induction false} ChainRun(script: Script, lim: Limits, was: Locked, mid: Locked, renamed: bool,
                                    seg: seq<Entry>)
    requires Chain(script, was, mid, renamed, seg) && was.ing.key !in was.held
    ensures var out := RenewalRun(script, lim, mid);
      var run := Since(mid, out.now);
      && Audited(script, was, out, renamed, seg + run)
      && (out.err.None? ==> Chain(script, was, out.now, renamed, seg + run))
      && RunSeg(was.ing.key, lim.timeout, run) && |run| <= 3 && (out.err.None? <==> |run| == 3)
      && (out.err.None? ==> out.now.ing.key in out.now.store.objs && out.now.store.objs[out.now.ing.key] == out.now.ing)
      && (out.err.None? ==> run[2].Wrote? && run[2].after == out.now.ing)
  {
    hide Shifted, RenewalRun;
    RunFacts(script, lim, mid);
    var out := RenewalRun(script, lim, mid);
    var shift: set<Key> := if renamed then {was.ing.key} else {};
    ShiftedTwice(script, was.store, mid.store, out.now.store, shift, {});
    assert shift + {} == shift;
    assert was.log + seg + Since(mid, out.now) == was.log + (seg + Since(mid, out.now));
  }

  lemma {:induction false} RunGrows(script: Script, lim: Limits, was: Locked, mid: Locked, seg: seq<Entry>)
    requires Chain(script, was, mid, false, seg)
    ensures var out := RenewalRun(script, lim, mid);
      out.now.ing.key == was.ing.key && out.now.log == mid.log + Since(mid, out.now)
  {
    hide RenewalRun, RunSeg, Shifted;
    RunFacts(script, lim, mid);
  }

  /** The rename is called with the name of the first entry, so it always finds that entry. It is accepted exactly if
      its event has no fault and no write to the ingress, and then the server's first secret name has moved on by
      exactly one version. */
  lemma {:induction false} ChainRename(script: Script, was: Locked, mid: Locked, seg: seq<Entry>)
    requires Chain(script, was, mid, false, seg) && was.ing.key !in was.held
    requires mid.ing.key in mid.store.objs && mid.store.objs[mid.ing.key] == mid.ing && mid.ing.tls != []
    ensures var out := RenameRun(script, mid.ing.tls[0].secretName, mid);
      && (out.err.None? <==> !script(mid.tick).fault && !WritesTo(script(mid.tick).edits, was.ing.key))
      && (out.err.Some? ==> out.err == Some(UpdateFailed) && Audited(script, was, out, false, seg))
      && (out.err.None? ==>
            && |out.now.log| == |mid.log| + 1 && IsRename(out.now.log[|mid.log|], was.ing.key)
            && out.now.log[|mid.log|].before == mid.ing
            && Chain(script, was, out.now, true, seg + [out.now.log[|mid.log|]]))
  {
    hide Shifted, WritesTo;
    var k, edits, out := was.ing.key, script(mid.tick).edits, RenameRun(script, mid.ing.tls[0].secretName, mid);
    var st := ApplyEdits(mid.store, edits);
    EditsKeep(mid.store, edits, mid.ing);
    UntouchedExactly(mid.store, edits, k);
    assert RenameTls(mid.ing.tls, mid.ing.tls[0].secretName) == HeadRenamed(mid.ing.tls);
    EditsShift(script, mid.store, mid.tick);
    SteadyTwice(script, was.store, mid.store, st);
    if out.err.None? {
      assert st.objs[k] == mid.ing;
      RenameShifts(script, st, out.now.store, k);
      ShiftedTwice(script, was.store, st, out.now.store, {}, {k});
      assert {} + {k} == {k};
      assert was.log + seg + [out.now.log[|mid.log|]] == was.log + (seg + [out.now.log[|mid.log|]]);
    }
  }

  lemma {:induction false} RenameShifts(script: Script, st: Store, st': Store, k: Key)
    requires k in st.objs && k in st'.objs && st'.objs == st.objs[k := st'.objs[k]]
    requires st.objs[k].tls != [] && st'.objs[k].tls == HeadRenamed(st.objs[k].tls)
    ensures Shifted(script, st, st', {k})
  {}

  /** A request, or a pause, that leaves the ingresses to others and adds at most `more` to the log. */
  lemma {:induction false} ChainPass(script: Script, was: Locked, mid: Locked, seg: seq<Entry>, time: nat,
                                     more: seq<Entry>)
    requires Chain(script, was, mid, false, seg)
    ensures var passed := Passed(script, mid, time);
      Chain(script, was, passed.(log := passed.log + more), false, seg + more)
  {
    hide Shifted;
    EditsKeepStore(mid.store, script(mid.tick).edits);
    EditsShift(script, mid.store, mid.tick);
    SteadyTwice(script, was.store, mid.store, ApplyEdits(mid.store, script(mid.tick).edits));
    assert was.log + seg + more == was.log + (seg + more);
  }

  lemma {:induction false} SinceIsSeg(script: Script, was: Locked, out: Outcome, renamed: bool, seg: seq<Entry>)
    requires Audited(script, was, out, renamed, seg)
    ensures Since(was, out.now) == seg
  {}

  /** The audit of an ingress with a challenge. */
  lemma {:induction false} ChallengeFacts(script: Script, lim: Limits, was: Locked)
    requires StoreOk(was.store) && was.ing.key !in was.held
    ensures var out := ChallengeRun(script, lim, was);
      var seg := Since(was, out.now);
      Audited(script, was, out, |seg| > 3, seg) && ChallengeSeg(was.ing.key, lim.timeout, seg, out.err)
  {
    var out, first := ChallengeRun(script, lim, was), RenewalRun(script, lim, was);
    var seg := Since(was, first.now);
    ChainStarts(script, was);
    ChainRun(script, lim, was, was, false, []);
    assert [] + seg == seg;
    hide RenewalRun, RenameRun, Chain, Audited, Verdict, RunSeg, IsRename;
    if first.err.Some? || Verdict(lim.timeout, seg) {
      SinceIsSeg(script, was, out, false, seg);
    } else if first.now.ing.tls == [] {
      ChainStops(script, was, first.now, false, seg, Some(Panic));
      SinceIsSeg(script, was, out, false, seg);
    } else {
      ChainRename(script, was, first.now, seg);
      var renamed := RenameRun(script, first.now.ing.tls[0].secretName, first.now);
      if renamed.err.Some? {
        SinceIsSeg(script, was, out, false, seg);
      } else {
        var e := renamed.now.log[|first.now.log|];
        ChainRun(script, lim, was, renamed.now, true, seg + [e]);
        var run := Since(renamed.now, out.now);
        SinceIsSeg(script, was, out, true, seg + [e] + run);
        ThreeParts(lim.timeout, seg, e, run);
      }
    }
  }

  lemma {:induction false} ThreeParts(t: int, first: seq<Entry>, e: Entry, second: seq<Entry>)
    requires |first| == 3
    ensures var seg := first + [e] + second;
      && |seg| == 4 + |second| && seg[..3] == first && seg[3] == e && seg[4..] == second
      && (Verdict(t, seg) <==> Verdict(t, first))
  {}

  lemma {:induction false} ReplaceFacts(job: Job, was: Locked, mid: Locked, seg: seq<Entry>, secret: SecretId)
    requires Chain(job.script, was, mid, false, seg) && was.ing.key !in was.held
    ensures var out := ReplaceRun(job, secret, mid);
      var more := Since(mid, out.now);
      Audited(job.script, was, out, false, seg + more) && ReplaceSeg(job, was.ing.key, secret, more, out.err)
  {
    var out := ReplaceRun(job, secret, mid);
    hide RenewalRun, Chain, Audited, RunSeg, ApplyEdits, CanDelete;
    if !CanDelete(job.script(mid.tick), secret) {
      ChainPass(job.script, was, mid, seg, 0, []);
      var deleted := Passed(job.script, mid, 0);
      assert deleted.(log := deleted.log + []) == deleted && seg + [] == seg;
      ChainStops(job.script, was, deleted, false, seg, out.err);
      assert Since(mid, out.now) == [];
    } else {
      var e := Deleted(secret, job.config.threshold);
      ChainPass(job.script, was, mid, seg, 0, [e]);
      var noted := Noted(Passed(job.script, mid, 0), e);
      ChainPass(job.script, was, noted, seg + [e], 5 * SECOND, []);
      var slept := Passed(job.script, noted, 5 * SECOND);
      assert slept.(log := slept.log + []) == slept && seg + [e] + [] == seg + [e];
      ChainRun(job.script, job.lim, was, slept, false, seg + [e]);
      var run := Since(slept, out.now);
      RunGrows(job.script, job.lim, was, slept, seg + [e]);
      assert out.now.log == mid.log + ([e] + run);
      assert Since(mid, out.now) == [e] + run && ([e] + run)[1..] == run;
      assert seg + [e] + run == seg + ([e] + run);
    }
  }

  /** The audit of an ingress without one, for an administrator. */
  lemma {:induction false} ExpiryFacts(job: Job, was: Locked)
    requires StoreOk(was.store) && was.ing.key !in was.held
    ensures var out := ExpiryRun(job, was);
      var seg := Since(was, out.now);
      Audited(job.script, was, out, false, seg) && ExpirySeg(job, was.ing, seg, out.err)
  {
    var tls := was.ing.tls;
    ChainStarts(job.script, was);
    hide ReplaceRun, Chain, Audited, Threshold, DueForRenewal, ReplaceSeg, Passed, ExpiryIn;
    if tls == [] {
      if 0 <= Threshold(job.config.threshold) {
        ReplaceFacts(job, was, was, [], SecretOf(was.ing.key, ""));
        NoEmptyName(job, was);
        assert [] + Since(was, ExpiryRun(job, was).now) == Since(was, ExpiryRun(job, was).now);
      } else {
        ChainStops(job.script, was, was, false, [], None);
        SinceIsSeg(job.script, was, ExpiryRun(job, was), false, []);
      }
    } else {
      match ExpiryIn(job.parse, job.script(was.tick), SecretOf(was.ing.key, tls[0].secretName))
      case None => UnreadFacts(job, was);
      case Some(notAfter) => ReadFacts(job, was, notAfter);
    }
  }

  lemma {:induction false} UnreadFacts(job: Job, was: Locked)
    requires Chain(job.script, was, was, false, [])
    ensures var out := Outcome(Passed(job.script, was, 0), Some(SecretUnreadable));
      Audited(job.script, was, out, false, []) && Since(was, out.now) == []
  {
    hide Chain, Audited;
    var read := Passed(job.script, was, 0);
    ChainPass(job.script, was, was, [], 0, []);
    var none: seq<Entry> := [];
    assert read.(log := read.log + none) == read && none + none == none;
    ChainStops(job.script, was, read, false, [], Some(SecretUnreadable));
    SinceIsSeg(job.script, was, Outcome(read, Some(SecretUnreadable)), false, []);
  }

  lemma {:induction false} ReadFacts(job: Job, was: Locked, notAfter: int)
    requires Chain(job.script, was, was, false, []) && was.ing.key !in was.held && was.ing.tls != []
    requires var secret := SecretOf(was.ing.key, was.ing.tls[0].secretName);
      ExpiryIn(job.parse, job.script(was.tick), secret) == Some(notAfter)
    ensures var out := ExpiryRun(job, was);
      var seg := Since(was, out.now);
      Audited(job.script, was, out, false, seg) && ExpirySeg(job, was.ing, seg, out.err)
  {
    hide ReplaceRun, Chain, Audited, DueForRenewal, ReplaceSeg, ExpiryIn;
    var out, secret := ExpiryRun(job, was), SecretOf(was.ing.key, was.ing.tls[0].secretName);
    var read := Passed(job.script, was, 0);
    var e := ReadExpiry(secret, notAfter, read.clock);
    var noted := Noted(read, e);
    ChainPass(job.script, was, was, [], 0, [e]);
    assert [] + [e] == [e];
    hide Passed;
    if DueForRenewal(notAfter - read.clock, job.config.threshold) {
      ReplaceFacts(job, was, noted, [e], secret);
      var more := Since(noted, out.now);
      SinceIsSeg(job.script, was, out, false, [e] + more);
      assert ([e] + more)[1..] == more;
    } else {
      ChainStops(job.script, was, noted, false, [e], None);
      SinceIsSeg(job.script, was, out, false, [e]);
    }
  }

  lemma {:induction false} NoEmptyName(job: Job, was: Locked)
    ensures var out := ReplaceRun(job, SecretOf(was.ing.key, ""), was);
      out == Outcome(Passed(job.script, was, 0), Some(DeleteFailed)) && Since(was, out.now) == []
  {}

  lemma {:induction false} AuditRunFacts(job: Job, was: Locked)
    requires StoreOk(was.store) && was.ing.key !in was.held
    ensures var out := AuditRun(job, was);
      var seg := Since(was, out.now);
      Audited(job.script, was, out, Renames(was.ing, seg), seg) && AuditSeg(job, was.ing, seg, out.err)
  {
    ChainStarts(job.script, was);
    hide ChallengeRun, ExpiryRun, ScanRules, Chain, Audited, ChallengeSeg, ExpirySeg;
    match ScanRules(was.ing.rules)
    case NilHttp =>
      ChainStops(job.script, was, was, false, [], Some(Panic));
      SinceIsSeg(job.script, was, AuditRun(job, was), false, []);
    case Found => ChallengeFacts(job.script, job.lim, was);
    case Absent =>
      if job.config.admin {
        ExpiryFacts(job, was);
      } else {
        ChainStops(job.script, was, was, false, [], None);
        SinceIsSeg(job.script, was, AuditRun(job, was), false, []);
      }
  }

  // ---- A whole audit, step by step.

  ghost function Segs(job: Job, items: seq<Ingress>, listed: Locked, n: nat): seq<seq<Entry>>
    requires n <= |items|
    ensures |Segs(job, items, listed, n)| == n
  {
    if n == 0 then [] else Segs(job, items, listed, n - 1) + [SegOf(job, items, listed, n - 1)]
  }

  /** A listing to be audited from a fresh process: every key once, and none of them held. */
  ghost predicate IsAudit(items: seq<Ingress>, listed: Locked) {
    && StoreOk(listed.store) && listed.held == {}
    && forall i, j | 0 <= i < j < |items| :: items[i].key != items[j].key
  }

  /** Where an audit stands after `n` ingresses: a held key is never the error, a key stays held only by a failed Get,
      which ends the audit; and the first secret names have moved on exactly where the audit renamed them. */
  ghost predicate Progress(job: Job, items: seq<Ingress>, listed: Locked, n: nat)
    requires n <= |items|
  {
    var out := AuditUpTo(job, items, listed, n);
    && listed.tick <= out.now.tick && listed.clock <= out.now.clock && StoreOk(out.now.store)
    && out.err != Some(KeyLocked) && out.err != Some(ListFailed)
    && out.now.held == (if out.err == Some(GetFailed) && n > 0 then {items[n - 1].key} else {})
    && out.now.log == listed.log + Concat(Segs(job, items, listed, n))
    && Shifted(job.script, listed.store, out.now.store, RenamedKeys(job, items, listed, n))
  }

  /** Everything before `n` went without an error. */
  ghost predicate Reached(job: Job, items: seq<Ingress>, listed: Locked, n: nat) {
    n <= |items| && (n > 0 ==> AuditUpTo(job, items, listed, n - 1).err.None?)
  }

  lemma {:induction false} ReachedBefore(job: Job, items: seq<Ingress>, listed: Locked, n: nat, i: nat)
    requires Reached(job, items, listed, n) && i <= n
    ensures Reached(job, items, listed, i) && (i < n ==> AuditUpTo(job, items, listed, i).err.None?)
    decreases n - i
  {
    hide AuditRun;
    if i < n {
      ReachedBefore(job, items, listed, n, i + 1);
    }
  }

  lemma {:induction false} AuditFacts(job: Job, items: seq<Ingress>, listed: Locked, n: nat)
    requires IsAudit(items, listed) && Reached(job, items, listed, n)
    ensures Progress(job, items, listed, n)
    ensures n > 0 ==>
      AuditSeg(job, items[n - 1], SegOf(job, items, listed, n - 1), AuditUpTo(job, items, listed, n).err)
  {
    hide AuditRun, Shifted, AuditSeg, Renames;
    if n == 0 {
      SteadySelf(job.script, listed.store);
      assert listed.log + [] == listed.log;
    } else {
      var before, start := AuditUpTo(job, items, listed, n - 1), StartOf(job, items, listed, n - 1);
      var out, seg := AuditRun(job, start), SegOf(job, items, listed, n - 1);
      ReachedBefore(job, items, listed, n, n - 1);
      AuditFacts(job, items, listed, n - 1);
      AuditRunFacts(job, start);
      NotRenamedYet(job, items, listed, n - 1, n - 1);
      ShiftedTwice(job.script, listed.store, before.now.store, out.now.store, RenamedKeys(job, items, listed, n - 1),
                   if Renames(items[n - 1], seg) then {items[n - 1].key} else {});
      var segs := Segs(job, items, listed, n - 1);
      assert Segs(job, items, listed, n)[..n - 1] == segs;
      assert listed.log + Concat(segs) + seg == listed.log + (Concat(segs) + seg);
    }
  }

  lemma {:induction false} NotRenamedYet(job: Job, items: seq<Ingress>, listed: Locked, n: nat, i: nat)
    requires n <= i < |items| && forall a, b | 0 <= a < b < |items| :: items[a].key != items[b].key
    ensures items[i].key !in RenamedKeys(job, items, listed, n)
    decreases n
  {
    hide Renames, SegOf;
    if n > 0 {
      NotRenamedYet(job, items, listed, n - 1, i);
    }
  }
}
