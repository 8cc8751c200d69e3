/** A renewal run seen from the other writers: it loses nothing that they did, and a completed run leaves no trace. */
module Transparency {
  import opened GoStrings
  import opened IngressStore
  import opened Cluster
  import opened WatcherRuns

  /** An ingress up to its version, and up to its backend-protocol annotation if `blind`. */
  function Erase(ing: Ingress, blind: bool): Ingress {
    ing.(version := 0, annotations := if blind then ing.annotations - {BACKEND_PROTOCOL} else ing.annotations)
  }

  /** The same objects with the same contents, up to versions and to the backend-protocol annotation of `k`. */
  ghost predicate SameBut(k: Key, a: Store, b: Store) {
    && a.objs.Keys == b.objs.Keys
    && forall j | j in a.objs :: Erase(a.objs[j], j == k) == Erase(b.objs[j], j == k)
  }

  /** The same objects with the same contents, up to versions. */
  ghost predicate SameContent(a: Store, b: Store) {
    && a.objs.Keys == b.objs.Keys
    && forall j | j in a.objs :: Erase(a.objs[j], false) == Erase(b.objs[j], false)
  }

  lemma {:induction false} EditSame(k: Key, a: Store, b: Store, e: Edit)
    requires SameBut(k, a, b)
    ensures SameBut(k, ApplyEdit(a, e), ApplyEdit(b, e))
  {
    if Takes(a, e) && e.Change? {
      var x, y := a.objs[e.k], b.objs[e.k];
      assert Erase(x, e.k == k) == Erase(y, e.k == k);
      KeepSame(x.annotations, y.annotations, e.annotations);
    }
  }

  lemma {:induction false} KeepSame(x: map<string, string>, y: map<string, string>, now: map<string, string>)
    ensures KeepBackend(x, now) - {BACKEND_PROTOCOL} == KeepBackend(y, now) - {BACKEND_PROTOCOL}
    ensures x == y ==> KeepBackend(x, now) == KeepBackend(y, now)
  {}

  lemma {:induction false} EditsSame(k: Key, a: Store, b: Store, edits: seq<Edit>)
    requires SameBut(k, a, b)
    ensures SameBut(k, ApplyEdits(a, edits), ApplyEdits(b, edits))
    decreases |edits|
  {
    if edits != [] {
      EditSame(k, a, b, edits[0]);
      EditsSame(k, ApplyEdit(a, edits[0]), ApplyEdit(b, edits[0]), edits[1..]);
    }
  }

  lemma {:induction false} OthersSame(script: Script, k: Key, a: Store, b: Store, start: nat, until: nat)
    requires SameBut(k, a, b)
    ensures SameBut(k, OthersOnly(script, a, start, until), OthersOnly(script, b, start, until))
    decreases until
  {
    if until > start {
      OthersSame(script, k, a, b, start, until - 1);
      EditsSame(k, OthersOnly(script, a, start, until - 1), OthersOnly(script, b, start, until - 1),
                script(until - 1).edits);
    }
  }

  lemma {:induction false} PutSame(k: Key, a: Store, b: Store, ing: Ingress, rev: nat)
    requires SameBut(k, a, b) && k in a.objs && Erase(ing, true) == Erase(a.objs[k], true)
    ensures SameBut(k, Store(rev, a.objs[k := ing]), b)
  {}

  /** One locked edit, whatever its outcome, beside the same events without it. */
  lemma {:induction false} EditRunSame(script: Script, f: Ingress -> Ingress, was: Locked, b: Store)
    requires SameBut(was.ing.key, was.store, b)
    requires forall ing :: Erase(f(ing), true) == Erase(ing, true)
    ensures var now := EditRun(script, f, was).now;
      && was.tick <= now.tick <= was.tick + 2
      && SameBut(was.ing.key, now.store, OthersOnly(script, b, was.tick, now.tick))
  {
    hide ApplyEdits, SameBut;
    var k, t, out := was.ing.key, was.tick, EditRun(script, f, was);
    assert OthersOnly(script, b, t, t) == b;
    if k !in was.held {
      var s1, b1 := ApplyEdits(was.store, script(t).edits), ApplyEdits(b, script(t).edits);
      EditsSame(k, was.store, b, script(t).edits);
      assert OthersOnly(script, b, t, t + 1) == b1;
      if !(script(t).fault || k !in s1.objs) {
        var s2, b2 := ApplyEdits(s1, script(t + 1).edits), ApplyEdits(b1, script(t + 1).edits);
        EditsSame(k, s1, b1, script(t + 1).edits);
        assert OthersOnly(script, b, t, t + 2) == b2;
        if out.err.None? {
          assert Erase(out.now.ing, true) == Erase(f(s2.objs[k]), true) == Erase(s2.objs[k], true);
          PutSame(k, s2, b2, out.now.ing, out.now.store.rev);
        }
      }
    }
  }

  /**
   * However a renewal run ends, the server holds what the other writers alone would have made of it, but for the
   * backend-protocol annotation of the run's own ingress. After a completed run that annotation is HTTPS, so the run
   * leaves no trace at all exactly if the ingress would carry HTTPS without it.
   */
  lemma {:induction false} RunIsTransparent(script: Script, lim: Limits, was: Locked)
    requires StoreOk(was.store)
    ensures var now, err := RenewalRun(script, lim, was).now, RenewalRun(script, lim, was).err;
      && was.tick <= now.tick
      && SameBut(was.ing.key, now.store, OthersOnly(script, was.store, was.tick, now.tick))
      && (err.None? ==>
            (SameContent(now.store, OthersOnly(script, was.store, was.tick, now.tick))
             <==> HasHttps(OthersOnly(script, was.store, was.tick, now.tick), was.ing.key)))
  {
    hide EditRun, WaitRun, OthersOnly, IsWait, Shifted;
    var k, removed := was.ing.key, EditRun(script, WithoutBackend, was);
    EditRunFacts(script, WithoutBackend, was);
    EditRunSame(script, WithoutBackend, was, was.store);
    if removed.err.None? {
      var waited := WaitRun(script, lim, removed.now.clock, removed.now, []);
      WaitSame(script, lim, was, removed.now);
      if waited.err.None? {
        var now := EditRun(script, WithHttps, waited.now).now;
        EditRunFacts(script, WithHttps, waited.now);
        EditRunSame(script, WithHttps, waited.now, OthersOnly(script, was.store, was.tick, waited.now.tick));
        OthersCompose(script, was.store, was.tick, waited.now.tick, now.tick);
        if EditRun(script, WithHttps, waited.now).err.None? {
          Restored(k, now.store, OthersOnly(script, was.store, was.tick, now.tick));
        }
      }
    }
  }

  lemma {:induction false} WaitSame(script: Script, lim: Limits, was: Locked, stripped: Locked)
    requires was.tick <= stripped.tick && stripped.ing.key == was.ing.key && StoreOk(stripped.store)
    requires SameBut(was.ing.key, stripped.store, OthersOnly(script, was.store, was.tick, stripped.tick))
    ensures var now := WaitRun(script, lim, stripped.clock, stripped, []).now;
      && stripped.tick <= now.tick && now.ing == stripped.ing && StoreOk(now.store)
      && SameBut(was.ing.key, now.store, OthersOnly(script, was.store, was.tick, now.tick))
  {
    hide OthersOnly, SameBut, WaitRun, IsWait;
    var now := WaitRun(script, lim, stripped.clock, stripped, []).now;
    WaitRunFacts(script, lim, stripped.clock, stripped, []);
    OthersSame(script, was.ing.key, stripped.store, OthersOnly(script, was.store, was.tick, stripped.tick),
               stripped.tick, now.tick);
    OthersCompose(script, was.store, was.tick, stripped.tick, now.tick);
  }

  lemma {:induction false} Restored(k: Key, a: Store, b: Store)
    requires SameBut(k, a, b) && HasHttps(a, k)
    ensures SameContent(a, b) <==> HasHttps(b, k)
  {
    var x, y := a.objs[k], b.objs[k];
    assert Erase(x, true) == Erase(y, true);
    assert SameContent(a, b) ==> Erase(x, false) == Erase(y, false);
    if HasHttps(b, k) {
      assert x.annotations == (x.annotations - {BACKEND_PROTOCOL})[BACKEND_PROTOCOL := "HTTPS"];
      assert y.annotations == (y.annotations - {BACKEND_PROTOCOL})[BACKEND_PROTOCOL := "HTTPS"];
      forall j | j in a.objs ensures Erase(a.objs[j], false) == Erase(b.objs[j], false) {
        assert Erase(a.objs[j], j == k) == Erase(b.objs[j], j == k);
      }
    }
  }

  /** A completed run on an ingress that nobody deletes leaves the server exactly as the other writers alone would have
      left it, if and only if the ingress carried HTTPS when the run began. The operator checks that, the cronjob does
      not. */
  lemma {:induction false} NoTraceExactlyIfGuarded(script: Script, lim: Limits, was: Locked)
    requires StoreOk(was.store) && RenewalRun(script, lim, was).err.None?
    requires was.ing.key in was.store.objs && Undeleted(script, was.ing.key)
    ensures var now := RenewalRun(script, lim, was).now;
      SameContent(now.store, OthersOnly(script, was.store, was.tick, now.tick)) <==> HasHttps(was.store, was.ing.key)
  {
    hide RenewalRun, SameContent, SameBut, Undeleted, OthersOnly;
    RunIsTransparent(script, lim, was);
    OthersKeepBackend(script, was.store, was.tick, RenewalRun(script, lim, was).now.tick, was.ing.key);
  }

  /** A run on an ingress that carries HTTPS, and that nobody deletes, leaves the annotation in place exactly if it was
      completed or failed before its removal took effect. Every other failure leaves the ingress without it. */
  lemma {:induction false} RestoredExactly(script: Script, lim: Limits, was: Locked)
    requires StoreOk(was.store) && HasHttps(was.store, was.ing.key) && Undeleted(script, was.ing.key)
    ensures var now, err := RenewalRun(script, lim, was).now, RenewalRun(script, lim, was).err;
      && (HasHttps(now.store, was.ing.key) <==> err.None? || EditRun(script, WithoutBackend, was).err.Some?)
      && (!HasHttps(now.store, was.ing.key) ==> IsStripped(now.store, was.ing.key))
  {
    hide EditRun, WaitRun, Undeleted, IsStrip, IsWait, IsRestore, Shifted;
    var removed := EditRun(script, WithoutBackend, was);
    if removed.err.Some? {
      NotStripped(script, lim.timeout, was);
    } else if WaitRun(script, lim, removed.now.clock, removed.now, []).err.Some? {
      var seg := NotWaited(script, lim, was);
    } else {
      Completed(script, lim, was);
    }
  }

  // ---- A whole run, from the script.

  /**
   * A run is completed, with its last poll seeing no challenge, exactly if: the removal lands; some poll sees no
   * challenge in time, after polls that all saw one in time; and the reinstatement lands. `n` is that poll.
   */
  lemma {:induction false} RunSucceedsExactly(script: Script, lim: Limits, was: Locked, n: nat)
    requires StoreOk(was.store)
    ensures var out, stripped := RenewalRun(script, lim, was), EditRun(script, WithoutBackend, was).now;
      var waited := WaitRun(script, lim, stripped.clock, stripped, []).now;
      (out.err.None? && var seg := Since(was, out.now);
         |seg| == 3 && seg[1].Waited? && !seg[1].timedOut && |seg[1].seen| == n + 1)
      <==>
        && EditRun(script, WithoutBackend, was).err.None?
        && SucceedsAt(script, lim, stripped, n)
        && EditRun(script, WithHttps, waited).err.None?
  {
    hide EditRun, WaitRun, IsRun, SucceedsAt, TimesOutAt;
    var removed := EditRun(script, WithoutBackend, was);
    if removed.err.None? {
      var waited := WaitRun(script, lim, removed.now.clock, removed.now, []);
      WaitEndsExactly(script, lim, removed.now, n);
      if waited.err.None? {
        Completed(script, lim, was);
        SegmentOf(script, lim.timeout, was, EditRun(script, WithHttps, waited.now));
      } else {
        assert !Succeeds(waited, n);
      }
    }
  }
}
