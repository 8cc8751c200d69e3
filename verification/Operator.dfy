/** The operator: `internal/controller`, over the server, the named lock and the metrics that it changes. */
module Operator {
  import opened GoStrings
  import opened GoTime
  import opened IngressStore
  import opened Cluster
  import opened WatcherRuns
  import opened OperatorRuns
  import opened IngressWatcher
  import NamedMutex
  import LS = LockSolo

  class Operator {
    const iw: IngressWatcher
    const notAfter: Parser
    var metrics: Metrics

    constructor (iw: IngressWatcher, notAfter: Parser)
      ensures this.iw == iw && this.notAfter == notAfter && metrics == Metrics([], 0)
    {
      this.iw, this.notAfter, metrics := iw, notAfter, Metrics([], 0);
    }

    ghost predicate Valid()
      reads this, iw, iw.cluster, iw.auditMutex, iw.auditMutex.Repr
    {
      iw.Valid() && this !in iw.auditMutex.Repr
    }

    ghost function TheSetup(): Setup {
      Setup(iw.cluster.script, notAfter)
    }

    /** The settings of the namespace; they are created with a threshold of 30 days and a delay of 10 seconds if there
        are none. */
    method GetOrCreateNimbleOpti(namespace: string, ghost ing: Ingress) returns (r: Option<NimbleOpti>)
      requires Valid()
      modifies iw.cluster
      ensures Valid() && Had(iw.State(ing), r) == SettingsRun(iw.cluster.script, namespace, old(iw.State(ing)))
      ensures r.Some? ==> namespace in iw.cluster.nimbles && iw.cluster.nimbles[namespace] == r.value
      ensures r.Some? && namespace !in iw.cluster.script(old(iw.cluster.tick)).nimbles ==> r.value == NimbleOpti(30, 10)
    {
      hide ApplyEdits, NamedMutex.NamedMutex.Held, NamedMutex.NamedMutex.Valid;
      var got := iw.cluster.GetNimbleOpti(namespace);
      match got {
        case Got(spec) => r := Some(spec);
        case Failed => r := None;
        case NotFound =>
          var ok := iw.cluster.CreateNimbleOpti(namespace, DEFAULTS);
          r := if ok then Some(DEFAULTS) else None;
      }
    }

    method StartCertificateRenewal(ing: IngressBox, adapter: NimbleOpti) returns (isRenew: bool, err: Option<Error>)
      requires Valid() && ing !in iw.auditMutex.Repr
      modifies iw.cluster, iw.auditMutex.Repr, ing, this
      ensures Valid() && fresh(iw.auditMutex.Repr - old(iw.auditMutex.Repr))
      ensures Result(iw.State(ing.v), metrics, err)
           == MeasuredRun(iw.cluster.script, adapter, old(iw.State(ing.v)), old(metrics))
      ensures isRenew <==> Verdict(Timeout(adapter.delay), Since(old(iw.State(ing.v)), iw.State(ing.v)))
    {
      hide EditRun, WaitRun, Timeout, Sentinel, Saturate, Since;
      hide LS.After, LS.ResultOf, LS.TakenNames, NamedMutex.NamedMutex.Held, NamedMutex.NamedMutex.Valid;
      ghost var was := iw.State(ing.v);
      var timeout := Timeout(adapter.delay);
      isRenew := false;
      err := iw.RemoveHttpsAnnotation(ing);
      RunSteps(iw.cluster.script, LimitsOf(adapter), was);
      if err.Some? {
        return;
      }
      var successTime;
      successTime, err := iw.WaitForChallengeAbsence(Limits(None, timeout), ing.v);
      if err.Some? {
        return;
      }
      if successTime == Sentinel(timeout) {
        metrics := metrics.(durations := metrics.durations + [timeout]);
      } else {
        metrics := metrics.(durations := metrics.durations + [successTime]);
        isRenew := true;
      }
      err := iw.AddHttpsAnnotation(ing);
      if err.Some? {
        return;
      }
      if successTime <= timeout {
        metrics := metrics.(renewals := metrics.renewals + 1);
      }
    }

    /** A run if the ingress has a challenge path, and nothing otherwise. */
    method ProcessIngressForRenewal(ing: IngressBox) returns (makeRenewal: bool, err: Option<Error>)
      requires Valid() && ing !in iw.auditMutex.Repr
      modifies iw.cluster, iw.auditMutex.Repr, ing, this
      ensures Valid() && fresh(iw.auditMutex.Repr - old(iw.auditMutex.Repr))
      ensures Result(iw.State(ing.v), metrics, err)
           == ProcessRun(iw.cluster.script, old(iw.State(ing.v)), old(metrics))
      ensures makeRenewal <==> MakesRenewal(iw.cluster.script, old(iw.State(ing.v)))
    {
      hide RenewalRun, RunMetrics, Verdict, ScanRules, SettingsRun, Timeout, Since;
      hide NamedMutex.NamedMutex.Held, NamedMutex.NamedMutex.Valid;
      makeRenewal := false;
      var found := GetOrCreateNimbleOpti(NamespaceOf(ing.v.key), ing.v);
      if found.None? {
        return makeRenewal, Some(AdapterFailed);
      }
      var scan := ScanRules(ing.v.rules);
      if scan.NilHttp? {
        return makeRenewal, Some(Panic);
      }
      err := None;
      if scan.Found? {
        var isRenew;
        isRenew, err := StartCertificateRenewal(ing, found.value);
        if err.Some? {
          return false, err;
        }
        makeRenewal := isRenew;
      }
    }

    /** The loop over the events of a watch. `spent` is how long it takes, ten seconds at most. */
    static method FollowWatch(watch: Watch) returns (err: Option<Error>, spent: nat)
      ensures err == WatchVerdict(watch.events, PATIENCE) && spent == WatchSpent(watch.events, PATIENCE)
    {
      hide ScanRules;
      spent := 0;
      var i := 0;
      while i < |watch.events|
        invariant 0 <= i <= |watch.events| && spent <= PATIENCE
        invariant WatchVerdict(watch.events[i..], PATIENCE - spent) == WatchVerdict(watch.events, PATIENCE)
        invariant spent + WatchSpent(watch.events[i..], PATIENCE - spent) == WatchSpent(watch.events, PATIENCE)
      {
        var delivery := watch.events[i];
        assert watch.events[i..][0] == delivery && watch.events[i..][1..] == watch.events[i + 1..];
        if spent + delivery.gap > PATIENCE {
          return Some(WatchFailed), PATIENCE;
        }
        spent := spent + delivery.gap;
        match delivery.event {
          case Seen(ing) =>
            var scan := ScanRules(ing.rules);
            if scan.Found? {
              return None, spent;
            }
            if scan.NilHttp? {
              return Some(Panic), spent;
            }
          case Gone => return Some(WatchFailed), spent;
          case Broken => return Some(WatchFailed), spent;
          case Skipped =>
        }
        i := i + 1;
      }
      // The channel was closed.
      return Some(WatchFailed), spent;
    }

    /** Waits until a challenge appears; it fails if the watch breaks, the ingress is deleted or time runs out. */
    method WaitForAcmeChallenge(ghost ing: Ingress) returns (err: Option<Error>)
      requires Valid()
      modifies iw.cluster
      ensures Valid() && Outcome(iw.State(ing), err) == WatchRun(iw.cluster.script, old(iw.State(ing)))
    {
      hide ApplyEdits, WatchVerdict, WatchSpent, NamedMutex.NamedMutex.Held, NamedMutex.NamedMutex.Valid;
      var watch := iw.cluster.OpenWatch();
      if watch.None? {
        return Some(WatchFailed);
      }
      var spent;
      err, spent := FollowWatch(watch.value);
      iw.Sleep(spent, ing);
    }

    /** The secret is due: it is deleted, and once a challenge appears a run is started. */
    method ReplaceSecret(ing: IngressBox, secretName: string, adapter: NimbleOpti) returns (err: Option<Error>)
      requires Valid() && ing !in iw.auditMutex.Repr
      modifies iw.cluster, iw.auditMutex.Repr, ing, this
      ensures Valid() && fresh(iw.auditMutex.Repr - old(iw.auditMutex.Repr))
      ensures Result(iw.State(ing.v), metrics, err)
           == ReplaceRun(iw.cluster.script, secretName, adapter, old(iw.State(ing.v)), old(metrics))
    {
      hide ApplyEdits, MeasuredRun, WatchRun, NamedMutex.NamedMutex.Held, NamedMutex.NamedMutex.Valid;
      var id := SecretOf(ing.v.key, secretName);
      var ok := iw.cluster.DeleteSecret(id, adapter.threshold);
      if !ok {
        return Some(DeleteFailed);
      }
      err := WaitForAcmeChallenge(ing.v);
      if err.Some? {
        return;
      }
      var isRenew, failure;
      isRenew, failure := StartCertificateRenewal(ing, adapter);
      err := None;
    }

    /** The remaining time of the certificate in a secret, saturated. */
    method TimeRemaining(ing: Ingress, secretName: string) returns (r: Option<int>, ghost expiry: int)
      requires Valid()
      modifies iw.cluster
      ensures Valid()
      ensures var was, secret := old(iw.State(ing)), SecretOf(ing.key, secretName);
        var read := Passed(iw.cluster.script, was, 0);
        match ExpiryIn(notAfter, iw.cluster.script(was.tick), secret)
        case None => r == None && iw.State(ing) == read
        case Some(e) =>
          && r == Some(Saturate(e - read.clock)) && expiry == e
          && iw.State(ing) == Noted(read, ReadExpiry(secret, e, read.clock))
    {
      hide ApplyEdits, Saturate, NamedMutex.NamedMutex.Held, NamedMutex.NamedMutex.Valid;
      var id := SecretOf(ing.key, secretName);
      var secret := iw.cluster.GetSecret(id);
      expiry := 0;
      if secret.None? || secret.value.crt.None? {
        return None, expiry;
      }
      var parsed := notAfter(secret.value.crt.value);
      if parsed.None? {
        return None, expiry;
      }
      r, expiry := Some(Saturate(parsed.value - iw.cluster.now)), parsed.value;
      iw.cluster.Note(ReadExpiry(id, parsed.value, iw.cluster.now));
    }

    method GetNimbleOpti(ing: Ingress) returns (r: NimbleReply)
      requires Valid()
      modifies iw.cluster
      ensures Valid() && iw.State(ing) == Passed(iw.cluster.script, old(iw.State(ing)), 0)
      ensures SettingsIn(iw.cluster.script(old(iw.cluster.tick)), ing.key) == if r.Got? then Some(r.spec) else None
    {
      hide ApplyEdits, NamedMutex.NamedMutex.Held, NamedMutex.NamedMutex.Valid;
      r := iw.cluster.GetNimbleOpti(NamespaceOf(ing.key));
    }

    /** The body of the loop over the TLS entries. */
    method RenewTls(ing: IngressBox, secretName: string) returns (err: Option<Error>)
      requires Valid() && ing !in iw.auditMutex.Repr
      modifies iw.cluster, iw.auditMutex.Repr, ing, this
      ensures Valid() && fresh(iw.auditMutex.Repr - old(iw.auditMutex.Repr))
      ensures Result(iw.State(ing.v), metrics, err)
           == TlsRun(TheSetup(), secretName, old(iw.State(ing.v)), old(metrics))
    {
      hide Passed, ReplaceRun, Threshold, Saturate, ExpiryIn, SettingsIn;
      hide NamedMutex.NamedMutex.Held, NamedMutex.NamedMutex.Valid;
      var timeRemaining;
      ghost var expiry;
      timeRemaining, expiry := TimeRemaining(ing.v, secretName);
      if timeRemaining.None? {
        return Some(SecretUnreadable);
      }
      var adapter := GetNimbleOpti(ing.v);
      if !adapter.Got? {
        return Some(AdapterFailed);
      }
      err := None;
      if timeRemaining.value <= Threshold(adapter.spec.threshold) {
        err := ReplaceSecret(ing, secretName, adapter.spec);
      }
    }

    /** The TLS entries as they are when the loop starts, up to the first error. */
    method RenewValidCertificateIfNecessary(ing: IngressBox) returns (err: Option<Error>)
      requires Valid() && ing !in iw.auditMutex.Repr
      modifies iw.cluster, iw.auditMutex.Repr, ing, this
      ensures Valid() && fresh(iw.auditMutex.Repr - old(iw.auditMutex.Repr))
      ensures var tls := old(ing.v.tls);
        Result(iw.State(ing.v), metrics, err)
          == TlsUpTo(TheSetup(), tls, old(iw.State(ing.v)), old(metrics), |tls|)
    {
      hide TlsRun, NamedMutex.NamedMutex.Held, NamedMutex.NamedMutex.Valid;
      var tls := ing.v.tls;
      ghost var setup, was, m := TheSetup(), iw.State(ing.v), metrics;
      err := None;
      var i := 0;
      while i < |tls|
        invariant 0 <= i <= |tls| && err.None?
        invariant Valid() && fresh(iw.auditMutex.Repr - old(iw.auditMutex.Repr)) && ing !in iw.auditMutex.Repr
        invariant Result(iw.State(ing.v), metrics, err) == TlsUpTo(setup, tls, was, m, i)
      {
        err := RenewTls(ing, tls[i].secretName);
        i := i + 1;
        if err.Some? {
          StopsAt(setup, tls, was, m, i, |tls|);
          return;
        }
      }
    }

    /** The handler of the informer's add events. It leaves a locked or unguarded ingress alone; an error is only
        logged. */
    method HandleIngressAdd(ing: IngressBox)
      requires Valid() && ing !in iw.auditMutex.Repr
      modifies iw.cluster, iw.auditMutex.Repr, ing, this
      ensures Valid() && fresh(iw.auditMutex.Repr - old(iw.auditMutex.Repr))
      ensures old(ing.v.key) in old(iw.auditMutex.Held()) || !Guarded(old(ing.v)) ==>
        iw.State(ing.v) == old(iw.State(ing.v)) && metrics == old(metrics)
      ensures old(ing.v.key) !in old(iw.auditMutex.Held()) && Guarded(old(ing.v)) ==>
        var r := ProcessRun(iw.cluster.script, old(iw.State(ing.v)), old(metrics));
        iw.State(ing.v) == r.now && metrics == r.metrics
    {
      hide ProcessRun, LS.After, LS.ResultOf, LS.TakenNames, NamedMutex.NamedMutex.Held, NamedMutex.NamedMutex.Valid;
      var isLocked := iw.auditMutex.IsLocked(ing.v.key);
      if isLocked {
        return;
      }
      if IsAdapterEnabledLabel(ing.v) && IsBackendHttpsAnnotations(ing.v) {
        var _, err := ProcessIngressForRenewal(ing);
      }
    }

    /** The body of the audit's loop, on a copy of one listed ingress. */
    method VisitIngress(listed: Ingress) returns (err: Option<Error>)
      requires Valid()
      modifies iw.cluster, iw.auditMutex.Repr, this
      ensures Valid() && fresh(iw.auditMutex.Repr - old(iw.auditMutex.Repr))
      ensures Result(iw.State(NOBODY), metrics, err)
           == Blind(VisitRun(TheSetup(), old(iw.State(listed)), old(metrics)))
    {
      hide ProcessRun, TlsUpTo, MakesRenewal, NamedMutex.NamedMutex.Held, NamedMutex.NamedMutex.Valid;
      err := None;
      var ing := new IngressBox(listed);
      assert ing !in iw.auditMutex.Repr && iw.State(ing.v) == old(iw.State(listed));
      if IsAdapterEnabledLabel(ing.v) && IsBackendHttpsAnnotations(ing.v) {
        var isRenew;
        isRenew, err := ProcessIngressForRenewal(ing);
        if err.None? && !isRenew {
          err := RenewValidCertificateIfNecessary(ing);
        }
      }
      assert iw.State(NOBODY) == iw.State(ing.v).(ing := NOBODY);
    }

    /** A whole audit. It ends with the first error, and after that no ingress is touched. */
    method AuditIngressResources() returns (err: Option<Error>, items: seq<Ingress>, visited: nat)
      requires Valid()
      modifies iw.cluster, iw.auditMutex.Repr, this
      ensures Valid() && fresh(iw.auditMutex.Repr - old(iw.auditMutex.Repr))
      ensures IsAuditOf(TheSetup(), old(iw.State(NOBODY)), old(metrics), items, visited,
                        Result(iw.State(NOBODY), metrics, err))
    {
      items, visited := [], 0;
      ghost var setup, was, m := TheSetup(), iw.State(NOBODY), metrics;
      ghost var listed := Passed(iw.cluster.script, was, 0);
      hide VisitRun, Passed, IsStage, IsListing, ApplyEdits;
      hide LS.After, LS.ResultOf, LS.TakenNames, NamedMutex.NamedMutex.Held, NamedMutex.NamedMutex.Valid;
      var listing := iw.List();
      if listing.None? {
        return Some(ListFailed), items, visited;
      }
      items := listing.value;
      err := None;
      assert iw.State(NOBODY) == listed;
      Beginning(setup, items, listed, m);
      while visited < |items|
        invariant Valid() && fresh(iw.auditMutex.Repr - old(iw.auditMutex.Repr)) && err == None
        invariant visited <= |items|
        invariant IsStage(setup, items, listed, m, visited, Result(iw.State(NOBODY), metrics, err))
      {
        ghost var start, before := iw.State(items[visited]), metrics;
        assert start == iw.State(NOBODY).(ing := items[visited]);
        err := VisitIngress(items[visited]);
        ghost var r := Result(iw.State(NOBODY), metrics, err);
        assert r == Blind(VisitRun(setup, start, before));
        OneMore(setup, items, listed, m, visited, start, before, r);
        visited := visited + 1;
        assert IsStage(setup, items, listed, m, visited, r);
        if err.Some? {
          break;
        }
      }
    }
  }

  lemma {:induction false} StopsAt(setup: Setup, tls: seq<Tls>, was: Locked, m: Metrics, i: nat, n: nat)
    requires i <= n <= |tls| && TlsUpTo(setup, tls, was, m, i).err.Some?
    ensures TlsUpTo(setup, tls, was, m, n) == TlsUpTo(setup, tls, was, m, i)
    decreases n
  {
    hide TlsRun;
    if i < n {
      StopsAt(setup, tls, was, m, i, n - 1);
    }
  }
}
