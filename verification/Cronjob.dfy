/** The cronjob: `cronjob/internal/ingresswatcher`, over the server and the named lock that it changes. */
module Cronjob {
  import opened GoStrings
  import opened GoTime
  import opened IngressStore
  import opened Cluster
  import opened WatcherRuns
  import opened CronjobRuns
  import opened IngressWatcher
  import SecretName
  import NamedMutex
  import LS = LockSolo

  class Cronjob {
    const iw: IngressWatcher
    const config: Config
    /** The deadline of the context that the whole audit runs under. */
    const deadline: int
    const notAfter: Parser

    constructor (iw: IngressWatcher, config: Config, deadline: int, notAfter: Parser)
      requires PositiveInt(config.threshold) && PositiveInt(config.delay)
      ensures this.iw == iw && this.config == config && this.deadline == deadline && this.notAfter == notAfter
    {
      this.iw, this.config, this.deadline, this.notAfter := iw, config, deadline, notAfter;
    }

    ghost predicate Valid()
      reads this, iw, iw.cluster, iw.auditMutex, iw.auditMutex.Repr
    {
      iw.Valid() && PositiveInt(config.threshold) && PositiveInt(config.delay)
    }

    function Lim(): Limits {
      Limits(Some(deadline), Timeout(config.delay))
    }

    ghost function TheJob(): Job {
      Job(iw.cluster.script, Lim(), config, notAfter)
    }

    method StartCertificateRenewalAudit(ing: IngressBox) returns (isRenew: bool, err: Option<Error>)
      requires Valid() && ing !in iw.auditMutex.Repr
      modifies iw.cluster, iw.auditMutex.Repr, ing
      ensures Valid() && fresh(iw.auditMutex.Repr - old(iw.auditMutex.Repr))
      ensures Outcome(iw.State(ing.v), err) == RenewalRun(iw.cluster.script, Lim(), old(iw.State(ing.v)))
      ensures isRenew <==> Verdict(Timeout(config.delay), Since(old(iw.State(ing.v)), iw.State(ing.v)))
    {
      hide EditRun, WaitRun, Timeout, Sentinel, Saturate, NamedMutex.NamedMutex.Held, NamedMutex.NamedMutex.Valid;
      hide LS.After, LS.ResultOf, LS.TakenNames;
      ghost var was := iw.State(ing.v);
      isRenew := false;
      err := iw.RemoveHttpsAnnotation(ing);
      RunSteps(iw.cluster.script, Lim(), was);
      if err.Some? {
        return;
      }
      var timeout := Timeout(config.delay);
      var successTime;
      successTime, err := iw.WaitForChallengeAbsence(Limits(Some(deadline), timeout), ing.v);
      if err.Some? {
        return;
      }
      if successTime > timeout {
      } else {
        isRenew := true;
      }
      err := iw.AddHttpsAnnotation(ing);
    }

    /** The loop over `ing.Spec.TLS`: the first entry with that name is renamed in place, in the caller's copy. */
    method RenameInCopy(ing: IngressBox, secretName: string)
      modifies ing
      ensures ing.v == old(ing.v).(tls := RenameTls(old(ing.v.tls), secretName))
    {
      hide SecretName.Next;
      ghost var tls := ing.v.tls;
      var i := 0;
      while i < |ing.v.tls|
        invariant 0 <= i <= |tls| && ing.v == old(ing.v)
        invariant forall j | 0 <= j < i :: tls[j].secretName != secretName
      {
        if ing.v.tls[i].secretName == secretName {
          var renamed := SecretName.ChangeSecretName(secretName);
          ing.v := ing.v.(tls := ing.v.tls[i := ing.v.tls[i].(secretName := renamed.name)]);
          break;
        }
        i := i + 1;
      }
      FirstNamedIs(tls, secretName, i);
    }

    /** Renames the first TLS entry called `secretName`, in the caller's copy and then on the server. */
    method ChangeIngressSecretName(ing: IngressBox, secretName: string) returns (err: Option<Error>)
      requires Valid() && ing !in iw.auditMutex.Repr
      modifies iw.cluster, iw.auditMutex.Repr, ing
      ensures Valid() && fresh(iw.auditMutex.Repr - old(iw.auditMutex.Repr))
      ensures Outcome(iw.State(ing.v), err) == RenameRun(iw.cluster.script, secretName, old(iw.State(ing.v)))
    {
      hide LS.After, LS.ResultOf, LS.TakenNames, NamedMutex.NamedMutex.Held, NamedMutex.NamedMutex.Valid;
      hide ApplyEdits, RenameTls, CanUpdate;
      ghost var was := iw.State(ing.v);
      RenameInCopy(ing, secretName);
      var key := ing.v.key;
      var isLock := iw.auditMutex.TryLock(key);
      if isLock {
        var updated := iw.Put(ing.v);
        ghost var put := iw.State(ing.v);
        if updated.None? {
          err := Some(UpdateFailed);
        } else {
          ing.v := updated.value;
          err := None;
        }
        iw.auditMutex.Unlock(key);
        GivenBack(was.held, key);
        assert iw.State(ing.v) == put.(held := was.held, ing := ing.v);
      } else {
        return Some(KeyLocked);
      }
    }

    /** The remaining time of the first TLS secret's certificate, saturated; 0 when there is no TLS entry. */
    method TimeRemainingCertificateUpToRenewal(ing: IngressBox)
      returns (remaining: int, secretName: string, err: Option<Error>, ghost expiry: int)
      requires Valid()
      modifies iw.cluster
      ensures Valid()
      ensures ing.v.tls == [] ==>
        remaining == 0 && secretName == "" && err == None && iw.State(ing.v) == old(iw.State(ing.v))
      ensures ing.v.tls != [] ==>
        var was := old(iw.State(ing.v));
        var read := Passed(iw.cluster.script, was, 0);
        && secretName == ing.v.tls[0].secretName
        && (match ExpiryIn(notAfter, iw.cluster.script(was.tick), SecretOf(ing.v.key, secretName))
            case None => err == Some(SecretUnreadable) && iw.State(ing.v) == read
            case Some(e) =>
              && err == None && expiry == e && remaining == Saturate(e - read.clock)
              && iw.State(ing.v) == Noted(read, ReadExpiry(SecretOf(ing.v.key, secretName), e, read.clock)))
    {
      hide ApplyEdits, Saturate, NamedMutex.NamedMutex.Held, NamedMutex.NamedMutex.Valid;
      remaining, secretName, err, expiry := 0, "", None, 0;
      if |ing.v.tls| > 0 {
        secretName := ing.v.tls[0].secretName;
        var id := SecretOf(ing.v.key, secretName);
        var secret := iw.cluster.GetSecret(id);
        if secret.None? || secret.value.crt.None? {
          return 0, secretName, Some(SecretUnreadable), 0;
        }
        var parsed := notAfter(secret.value.crt.value);
        if parsed.None? {
          return 0, secretName, Some(SecretUnreadable), 0;
        }
        expiry := parsed.value;
        remaining := Saturate(parsed.value - iw.cluster.now);
        iw.cluster.Note(ReadExpiry(id, parsed.value, iw.cluster.now));
      }
    }

    method DeleteIngressSecret(secretName: string, secretNamespace: string, ghost ing: Ingress)
      returns (err: Option<Error>)
      requires Valid()
      modifies iw.cluster
      ensures Valid()
      ensures var was, id := old(iw.State(ing)), SecretId(secretNamespace, secretName);
        var deleted := Passed(iw.cluster.script, was, 0);
        if CanDelete(iw.cluster.script(was.tick), id) then
          err == None && iw.State(ing) == Noted(deleted, Deleted(id, config.threshold))
        else
          err == Some(DeleteFailed) && iw.State(ing) == deleted
    {
      hide ApplyEdits, NamedMutex.NamedMutex.Held, NamedMutex.NamedMutex.Valid;
      var ok := iw.cluster.DeleteSecret(SecretId(secretNamespace, secretName), config.threshold);
      return if ok then None else Some(DeleteFailed);
    }

    /** The audit of an ingress with a challenge. */
    method RenewChallenged(ing: IngressBox) returns (err: Option<Error>, renewed: bool)
      requires Valid() && ing !in iw.auditMutex.Repr
      modifies iw.cluster, iw.auditMutex.Repr, ing
      ensures Valid() && fresh(iw.auditMutex.Repr - old(iw.auditMutex.Repr))
      ensures Outcome(iw.State(ing.v), err) == ChallengeRun(iw.cluster.script, Lim(), old(iw.State(ing.v)))
      ensures renewed <==> err.None? && LastVerdict(iw.cluster.script, Lim(), old(iw.State(ing.v)))
    {
      hide RenewalRun, RenameRun, Verdict, NamedMutex.NamedMutex.Held, NamedMutex.NamedMutex.Valid;
      renewed := false;
      var isRenew;
      isRenew, err := StartCertificateRenewalAudit(ing);
      if err.Some? {
        return;
      }
      if !isRenew {
        if |ing.v.tls| == 0 {
          return Some(Panic), false;
        }
        var oldSecret := ing.v.tls[0].secretName;
        err := ChangeIngressSecretName(ing, oldSecret);
        if err.Some? {
          return;
        }
        isRenew, err := StartCertificateRenewalAudit(ing);
        if err.Some? {
          return;
        }
        renewed := isRenew;
      } else {
        renewed := true;
      }
    }

    /** The first secret is due: it is deleted, and five seconds later a run is started. */
    method ReplaceSecret(ing: IngressBox, secretName: string) returns (err: Option<Error>)
      requires Valid() && ing !in iw.auditMutex.Repr
      modifies iw.cluster, iw.auditMutex.Repr, ing
      ensures Valid() && fresh(iw.auditMutex.Repr - old(iw.auditMutex.Repr))
      ensures Outcome(iw.State(ing.v), err)
           == ReplaceRun(TheJob(), SecretOf(old(ing.v.key), secretName), old(iw.State(ing.v)))
    {
      hide RenewalRun, Passed, NamedMutex.NamedMutex.Held, NamedMutex.NamedMutex.Valid;
      err := DeleteIngressSecret(secretName, NamespaceOf(ing.v.key), ing.v);
      if err.Some? {
        return;
      }
      iw.Sleep(5 * SECOND, ing.v);
      var isRenew;
      isRenew, err := StartCertificateRenewalAudit(ing);
    }

    /** The audit of an ingress without a challenge, for an administrator. */
    method RenewExpiring(ing: IngressBox) returns (err: Option<Error>)
      requires Valid() && ing !in iw.auditMutex.Repr
      modifies iw.cluster, iw.auditMutex.Repr, ing
      ensures Valid() && fresh(iw.auditMutex.Repr - old(iw.auditMutex.Repr))
      ensures Outcome(iw.State(ing.v), err) == ExpiryRun(TheJob(), old(iw.State(ing.v)))
    {
      hide ReplaceRun, Threshold, Saturate, ExpiryIn, NamedMutex.NamedMutex.Held, NamedMutex.NamedMutex.Valid;
      var remaining, secretName;
      ghost var expiry;
      remaining, secretName, err, expiry := TimeRemainingCertificateUpToRenewal(ing);
      if err.Some? {
        return;
      }
      if remaining <= Threshold(config.threshold) {
        err := ReplaceSecret(ing, secretName);
      }
    }

    /** The body of the audit's loop, on a copy of one listed ingress. `needed` and `renewed` say which counters it
        moves. */
    method AuditIngress(listed: Ingress) returns (err: Option<Error>, needed: bool, renewed: bool)
      requires Valid()
      modifies iw.cluster, iw.auditMutex.Repr
      ensures Valid() && fresh(iw.auditMutex.Repr - old(iw.auditMutex.Repr))
      ensures Outcome(iw.State(NOBODY), err) == Blind(AuditRun(TheJob(), old(iw.State(listed))))
      ensures needed <==> HasChallenge(listed.rules)
      ensures renewed <==> IsRenewed(TheJob(), old(iw.State(listed)))
      ensures renewed ==> needed
    {
      hide ChallengeRun, ExpiryRun, LastVerdict, ScanRules, HasChallenge;
      hide NamedMutex.NamedMutex.Held, NamedMutex.NamedMutex.Valid;
      err, needed, renewed := None, false, false;
      ScanIsTruthful(listed.rules);
      var ing := new IngressBox(listed);
      assert ing !in iw.auditMutex.Repr && iw.State(ing.v) == old(iw.State(listed));
      var scan := ScanRules(listed.rules);
      if scan.NilHttp? {
        err := Some(Panic);
      } else if scan.Found? {
        needed := true;
        err, renewed := RenewChallenged(ing);
      } else if config.admin {
        err := RenewExpiring(ing);
      }
      assert iw.State(NOBODY) == iw.State(ing.v).(ing := NOBODY);
    }

    /**
     * A whole audit. It ends with the first error, and after that no ingress is touched. The counts are exact:
     * `forRenewal` is the number of visited ingresses with a challenge path, `renewed` that of those whose last run was
     * in time.
     */
    method AuditIngressResources()
      returns (err: Option<Error>, items: seq<Ingress>, visited: nat, forRenewal: nat, renewed: nat)
      requires Valid()
      modifies iw.cluster, iw.auditMutex.Repr
      ensures Valid() && fresh(iw.auditMutex.Repr - old(iw.auditMutex.Repr))
      ensures renewed <= forRenewal <= visited <= |items|
      ensures IsAuditOf(TheJob(), old(iw.State(NOBODY)), iw.State(NOBODY), items, visited, err)
      ensures forRenewal == CountFound(items[..visited])
      ensures var listed := Passed(iw.cluster.script, old(iw.State(NOBODY)), 0);
        renewed == CountRenewed(TheJob(), items, listed, visited)
    {
      items, visited, forRenewal, renewed := [], 0, 0, 0;
      ghost var was, job := iw.State(NOBODY), TheJob();
      ghost var listed := Passed(iw.cluster.script, was, 0);
      Beginning(job, items, listed);
      hide AuditRun, IsRenewed, HasChallenge, Passed, CountFound, CountRenewed, StartOf, IsStage, IsListing, ApplyEdits;
      hide LS.After, LS.ResultOf, LS.TakenNames, NamedMutex.NamedMutex.Held, NamedMutex.NamedMutex.Valid;
      var listing := iw.List();
      if listing.None? {
        return Some(ListFailed), items, visited, forRenewal, renewed;
      }
      items := listing.value;
      err := None;
      Beginning(job, items, listed);
      while visited < |items|
        invariant Valid() && fresh(iw.auditMutex.Repr - old(iw.auditMutex.Repr)) && err == None
        invariant visited <= |items| && renewed <= forRenewal <= visited
        invariant IsStage(job, items, listed, visited, iw.State(NOBODY), err)
        invariant forRenewal == CountFound(items[..visited])
        invariant renewed == CountRenewed(job, items, listed, visited)
      {
        ghost var start := iw.State(items[visited]);
        var needed, isRenewed;
        err, needed, isRenewed := AuditIngress(items[visited]);
        OneMore(job, items, listed, visited, start, iw.State(NOBODY), err);
        visited := visited + 1;
        if needed {
          forRenewal := forRenewal + 1;
        }
        if isRenewed {
          renewed := renewed + 1;
        }
        if err.Some? {
          break;
        }
      }
    }
  }

  // ---- The state without a copy in hand.

  ghost function Blind(out: Outcome): Outcome {
    out.(now := out.now.(ing := NOBODY))
  }

  /** An audit of the listing `items`, that ended with the ingress before `visited` or because the listing failed. */
  ghost predicate IsAuditOf(job: Job, was: Locked, now: Locked, items: seq<Ingress>, visited: nat, err: Option<Error>) {
    var listed := Passed(job.script, was, 0);
    if job.script(was.tick).fault then
      err == Some(ListFailed) && now == listed && items == [] && visited == 0
    else
      && IsListing(items, listed.store) && IsStage(job, items, listed, visited, now, err)
      && (err.None? ==> visited == |items|)
  }

  /** After `n` ingresses of a listing, all but the last without an error. */
  ghost predicate IsStage(job: Job, items: seq<Ingress>, listed: Locked, n: nat, now: Locked, err: Option<Error>) {
    Reached(job, items, listed, n) && Outcome(now, err) == Blind(AuditUpTo(job, items, listed, n))
  }

  lemma {:induction false} Beginning(job: Job, items: seq<Ingress>, listed: Locked)
    requires listed.ing == NOBODY
    ensures IsStage(job, items, listed, 0, listed, None)
    ensures CountFound(items[..0]) == 0 && CountRenewed(job, items, listed, 0) == 0
  {}

  lemma {:induction false} OneMore(job: Job, items: seq<Ingress>, listed: Locked, n: nat, start: Locked, now: Locked,
                                   err: Option<Error>)
    requires n < |items| && IsStage(job, items, listed, n, start.(ing := NOBODY), None) && start.ing == items[n]
    requires Outcome(now, err) == Blind(AuditRun(job, start))
    ensures IsStage(job, items, listed, n + 1, now, err)
    ensures CountFound(items[..n + 1]) == CountFound(items[..n]) + if HasChallenge(items[n].rules) then 1 else 0
    ensures CountRenewed(job, items, listed, n + 1)
         == CountRenewed(job, items, listed, n) + if IsRenewed(job, start) then 1 else 0
  {
    hide AuditRun, IsRenewed, HasChallenge;
    ScanIsTruthful(items[n].rules);
    assert items[..n + 1][..n] == items[..n];
    assert start == StartOf(job, items, listed, n);
  }
}
