/** The two annotation edits and the wait as methods, over the server and the named lock that they change. */
module IngressWatcher {
  import opened GoStrings
  import opened GoTime
  import opened IngressStore
  import opened Cluster
  import opened NamedMutex
  import opened WatcherRuns
  import LS = LockSolo

  /** An `*Ingress`: its target is overwritten by Get and by an accepted Update. */
  class IngressBox {
    var v: Ingress

    constructor (v: Ingress)
      ensures this.v == v
    {
      this.v := v;
    }
  }

  class IngressWatcher {
    const cluster: Cluster
    const auditMutex: NamedMutex

    constructor (cluster: Cluster, auditMutex: NamedMutex)
      ensures this.cluster == cluster && this.auditMutex == auditMutex
    {
      this.cluster, this.auditMutex := cluster, auditMutex;
    }

    ghost predicate Valid()
      reads this, cluster, auditMutex, auditMutex.Repr
    {
      cluster.Valid() && auditMutex.Valid() && cluster !in auditMutex.Repr
    }

    ghost function State(ing: Ingress): Locked
      requires Valid()
      reads this, cluster, auditMutex, auditMutex.Repr
    {
      Locked(auditMutex.Held(), cluster.store, cluster.tick, cluster.now, ing, cluster.log)
    }

    method List() returns (items: Option<seq<Ingress>>)
      requires Valid()
      modifies cluster
      ensures Valid() && forall ing :: State(ing) == Passed(cluster.script, old(State(ing)), 0)
      ensures items.None? <==> cluster.script(old(cluster.tick)).fault
      ensures items.Some? ==> IsListing(items.value, cluster.store)
    {
      items := cluster.List();
    }

    /** The Get of a locked edit. */
    method Fetch(ing: Ingress) returns (got: Option<Ingress>)
      requires Valid()
      modifies cluster
      ensures Valid() && State(ing) == Passed(cluster.script, old(State(ing)), 0)
      ensures got == if cluster.script(old(cluster.tick)).fault || ing.key !in cluster.store.objs then None
                     else Some(cluster.store.objs[ing.key])
    {
      got := cluster.Get(ing.key);
    }

    /** Its Update. */
    method Put(copy: Ingress) returns (stored: Option<Ingress>)
      requires Valid()
      modifies cluster
      ensures Valid() && IsPut(cluster.script, old(State(copy)), State(copy), stored)
    {
      stored := cluster.Update(copy);
    }

    method RemoveHttpsAnnotation(ing: IngressBox) returns (err: Option<Error>)
      requires Valid() && ing !in auditMutex.Repr
      modifies cluster, auditMutex.Repr, ing
      ensures Valid() && fresh(auditMutex.Repr - old(auditMutex.Repr))
      ensures Outcome(State(ing.v), err) == EditRun(cluster.script, WithoutBackend, old(State(ing.v)))
    {
      hide LS.After, LS.ResultOf, LS.TakenNames, NamedMutex.Valid, NamedMutex.View, NamedMutex.Held;
      hide ApplyEdits, CanUpdate, Stamp, IngressStore.Update;
      ghost var was := State(ing.v);
      var key := ing.v.key;
      var isLock := auditMutex.TryLock(key);
      if isLock {
        assert State(ing.v) == was.(held := was.held + {key});
        var got := Fetch(ing.v);
        if got.None? {
          return Some(GetFailed);
        }
        hide EditRun, IsPut;
        ing.v := got.value;
        ing.v := WithoutBackend(ing.v);
        var updated := Put(ing.v);
        ghost var put := State(ing.v);
        EditPut(cluster.script, WithoutBackend, was, put, updated);
        if updated.None? {
          err := Some(UpdateFailed);
        } else {
          ing.v := updated.value;
          err := None;
        }
        auditMutex.Unlock(key);
        GivenBack(was.held, key);
        assert State(ing.v) == put.(held := was.held, ing := ing.v);
      } else {
        return Some(KeyLocked);
      }
    }

    method AddHttpsAnnotation(ing: IngressBox) returns (err: Option<Error>)
      requires Valid() && ing !in auditMutex.Repr
      modifies cluster, auditMutex.Repr, ing
      ensures Valid() && fresh(auditMutex.Repr - old(auditMutex.Repr))
      ensures Outcome(State(ing.v), err) == EditRun(cluster.script, WithHttps, old(State(ing.v)))
    {
      hide LS.After, LS.ResultOf, LS.TakenNames, NamedMutex.Valid, NamedMutex.View, NamedMutex.Held;
      hide ApplyEdits, CanUpdate, Stamp, IngressStore.Update;
      ghost var was := State(ing.v);
      var key := ing.v.key;
      var isLock := auditMutex.TryLock(key);
      if isLock {
        assert State(ing.v) == was.(held := was.held + {key});
        var got := Fetch(ing.v);
        if got.None? {
          return Some(GetFailed);
        }
        hide EditRun, IsPut;
        ing.v := got.value;
        ing.v := WithHttps(ing.v);
        var updated := Put(ing.v);
        ghost var put := State(ing.v);
        EditPut(cluster.script, WithHttps, was, put, updated);
        if updated.None? {
          err := Some(UpdateFailed);
        } else {
          ing.v := updated.value;
          err := None;
        }
        auditMutex.Unlock(key);
        GivenBack(was.held, key);
        assert State(ing.v) == put.(held := was.held, ing := ing.v);
      } else {
        return Some(KeyLocked);
      }
    }

    /** The nested loops over rules and paths; `panicked` when a rule without HTTP paths is reached. */
    static method FindChallenge(rules: seq<Rule>) returns (pathFound: bool, panicked: bool)
      ensures pathFound <==> ScanRules(rules).Found?
      ensures pathFound <==> HasChallenge(rules)
      ensures panicked <==> ScanRules(rules).NilHttp?
    {
      pathFound, panicked := false, false;
      ScanIsTruthful(rules);
      hide HasChallenge;
      var i := 0;
      while i < |rules|
        invariant 0 <= i <= |rules| && !pathFound && !panicked
        invariant ScanRules(rules[i..]) == ScanRules(rules)
      {
        if rules[i].paths.None? {
          return false, true;
        }
        var paths := rules[i].paths.value;
        var j := 0;
        while j < |paths|
          invariant 0 <= j <= |paths| && !pathFound
          invariant forall m | 0 <= m < j :: !IsAcmeChallengePath(paths[m])
        {
          if IsAcmeChallengePath(paths[j]) {
            pathFound := true;
            break;
          }
          j := j + 1;
        }
        if pathFound {
          break;
        }
        i := i + 1;
      }
    }

    /** Others act, for at least `time`. */
    method Sleep(time: nat, ghost ing: Ingress)
      requires Valid()
      modifies cluster
      ensures Valid() && State(ing) == Passed(cluster.script, old(State(ing)), time)
    {
      var _ := cluster.Pass(time);
    }

    /** One poll: the Get, which fails if its reply comes too late, and the scan of the answer. */
    method Poll(lim: Limits, startTime: int, ing: Ingress) returns (scan: Option<Scan>)
      requires Valid()
      modifies cluster
      ensures Valid() && State(ing) == Passed(cluster.script, old(State(ing)), 0)
      ensures scan.None? <==>
        || cluster.script(old(cluster.tick)).fault || ing.key !in cluster.store.objs
        || Expired(lim, startTime, cluster.now)
      ensures scan.Some? ==> scan.value == ScanRules(cluster.store.objs[ing.key].rules)
    {
      hide ApplyEdits, ScanRules, NamedMutex.Held;
      var ingress := cluster.Get(ing.key);
      if ingress.None? || Expired(lim, startTime, cluster.now) {
        return None;
      }
      var pathFound, panicked := FindChallenge(ingress.value.rules);
      return Some(if panicked then NilHttp else if pathFound then Found else Absent);
    }

    /** Polls until the challenge is gone or the deadline has passed. */
    method WaitForChallengeAbsence(lim: Limits, ing: Ingress) returns (successTime: int, err: Option<Error>)
      requires Valid()
      modifies cluster
      ensures Valid() && Outcome(State(ing), err) == WaitRun(cluster.script, lim, old(cluster.now), old(State(ing)), [])
      ensures err.None? ==> cluster.log != [] && cluster.log[|cluster.log| - 1].Waited?
      ensures err.None? ==> successTime == cluster.log[|cluster.log| - 1].took
    {
      hide ApplyEdits, ScanRules, Sentinel, NamedMutex.Held, NamedMutex.Valid;
      var startTime := cluster.now;
      ghost var script, was, seen := cluster.script, State(ing), [];
      while true
        invariant Valid()
        invariant WaitRun(script, lim, startTime, State(ing), seen) == WaitRun(script, lim, startTime, was, [])
        decreases startTime + lim.timeout - cluster.now
      {
        ghost var before := State(ing);
        if Expired(lim, startTime, cluster.now) {
          successTime, err := Sentinel(lim.timeout), None;
          cluster.Note(Waited(ing.key, lim.timeout, successTime, true, seen));
          return;
        }
        NotYetExpired(lim, startTime, cluster.now);
        var scan := Poll(lim, startTime, ing);
        if scan.None? {
          return Saturate(cluster.now - startTime), Some(PollFailed);
        }
        OnePoll(script, lim, startTime, before, seen, scan.value);
        hide WaitRun, Expired, Saturate;
        seen := seen + [scan.value];
        match scan.value {
          case NilHttp => return 0, Some(Panic);
          case Absent =>
            Sleep(0, ing);
            successTime, err := Saturate(cluster.now - startTime), None;
            cluster.Note(Waited(ing.key, lim.timeout, successTime, false, seen));
            return;
          case Found => Sleep(SECOND, ing);
        }
      }
    }
  }

  lemma {:induction false} GivenBack(held: set<Key>, k: Key)
    requires k !in held
    ensures held + {k} - {k} == held
  {}
}
