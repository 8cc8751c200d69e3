/**
 * The operator's entry guard over the interleaved runs: a goroutine starts runs only on ingresses that it saw with the
 * HTTPS annotation, in an add event or in a listing, however long ago that was.
 */
module GuardedRuns {
  import opened GoStrings
  import opened IngressStore
  import RP = RenewalProtocol
  import RQ = RenewalProperties
  import RT = RenewalTheorems

  type Gid = RP.Gid

  /** `seen`: who is past the guard on what. */
  datatype State = State(run: RP.State, seen: set<(Gid, Key)>)

  datatype Label =
    | Observe(g: Gid, k: Key)   // the guard passes; a listing is an observation of each of its ingresses
    | Forget(g: Gid, k: Key)    // the handler or the audit is done with the ingress
    | Step(l: RP.Label)

  function Apply(s: State, l: Label): Option<State> {
    match l
    case Observe(g, k) =>
      if s.run.At(g).Off? && HasHttps(s.run.store, k) then Some(s.(seen := s.seen + {(g, k)})) else None
    case Forget(g, k) =>
      if s.run.At(g).Off? then Some(s.(seen := s.seen - {(g, k)})) else None
    case Step(rl) =>
      if rl.Start? && (rl.g, rl.r.key) !in s.seen then None
      else
        match RP.Apply(s.run, rl)
        case None => None
        case Some(run) => Some(s.(run := run))
  }

  ghost predicate IsRun(states: seq<State>, labels: seq<Label>) {
    && |states| == |labels| + 1
    && forall i | 0 <= i < |labels| :: Apply(states[i], labels[i]) == Some(states[i + 1])
  }

  predicate Initial(s: State) {
    RP.Initial(s.run) && s.seen == {}
  }

  /** Whoever is inside a run is past the guard on its ingress. */
  predicate GuardOk(g: Gid, p: RP.Phase, seen: set<(Gid, Key)>) {
    !p.Off? && !p.Gate? ==> (g, p.r.key) in seen
  }

  ghost predicate Inv(s: State) {
    RP.Inv(s.run) && forall g: Gid :: GuardOk(g, s.run.At(g), s.seen)
  }

  lemma {:induction false} InitialInv(s: State)
    requires Initial(s)
    ensures Inv(s)
  {
    RQ.InitialInv(s.run);
  }

  /** A run stays on its ingress. */
  lemma {:induction false} SameKey(s: RP.State, l: RP.Label, g: Gid)
    requires RP.Apply(s, l).Some? && !RP.Apply(s, l).value.At(g).Off? && !RP.Apply(s, l).value.At(g).Gate?
    ensures !s.At(g).Off? && !s.At(g).Gate? ==> RP.Apply(s, l).value.At(g).r.key == s.At(g).r.key
    ensures s.At(g).Off? || s.At(g).Gate? ==> l.Start? && l.g == g && RP.Apply(s, l).value.At(g).r == l.r
  {
    RT.MoverPhases(s, l);
  }

  lemma {:induction false} ApplyInv(s: State, l: Label)
    requires Inv(s) && Apply(s, l).Some?
    ensures Inv(Apply(s, l).value)
  {
    var s' := Apply(s, l).value;
    if l.Step? {
      RQ.ApplyInv(s.run, l.l);
      forall g: Gid ensures GuardOk(g, s'.run.At(g), s'.seen) {
        assert GuardOk(g, s.run.At(g), s.seen);
        hide RP.Inv, RP.Apply;
        if !s'.run.At(g).Off? && !s'.run.At(g).Gate? {
          SameKey(s.run, l.l, g);
        }
      }
    } else {
      hide RP.Inv;
      forall g: Gid ensures GuardOk(g, s'.run.At(g), s'.seen) {
        assert GuardOk(g, s.run.At(g), s.seen);
      }
    }
  }

  lemma {:induction false} AlwaysInv(states: seq<State>, labels: seq<Label>, i: nat)
    requires IsRun(states, labels) && Inv(states[0]) && i < |states|
    ensures Inv(states[i])
  {
    hide Inv, Apply;
    if i > 0 {
      AlwaysInv(states, labels, i - 1);
      assert Apply(states[i - 1], labels[i - 1]) == Some(states[i]);
      ApplyInv(states[i - 1], labels[i - 1]);
    }
  }

  // ---- A stripped ingress that nobody is working on.

  /** The ingress is there without its HTTPS annotation, and nobody is past the guard on it. */
  ghost predicate Abandoned(s: State, k: Key) {
    k in s.run.store.objs && !HasHttps(s.run.store, k) && forall g: Gid :: (g, k) !in s.seen
  }

  predicate Deletes(l: Label, k: Key) {
    l.Step? && l.l.Outside? && l.l.e == Drop(k)
  }

  lemma {:induction false} StaysAbandoned(s: State, l: Label, k: Key)
    requires Inv(s) && Abandoned(s, k) && Apply(s, l).Some? && !Deletes(l, k)
    ensures Abandoned(Apply(s, l).value, k)
  {
    if l.Step? {
      match l.l
      case Outside(e) =>
        OutsideKeepsBare(s.run, e, k);
      case Push(g, fault) =>
        assert GuardOk(g, s.run.At(g), s.seen) && RP.CopyOk(s.run.At(g), s.run.store, s.run.outside);
        hide RP.Inv;
        PushElsewhere(s.run, g, fault, k);
      case _ =>
        hide RP.Inv;
        OnlyWritesMatter(s.run, l.l);
    }
  }

  lemma {:induction false} OnlyWritesMatter(s: RP.State, l: RP.Label)
    requires RP.Apply(s, l).Some? && !l.Outside? && !l.Push?
    ensures RP.Apply(s, l).value.store == s.store
  {}

  lemma {:induction false} OutsideKeepsBare(s: RP.State, e: Edit, k: Key)
    requires k in s.store.objs && !HasHttps(s.store, k) && e != Drop(k)
    ensures var st := RP.OutsideStep(s, e).store; k in st.objs && !HasHttps(st, k)
  {
    EditsKeepBackend(s.store, [e], k);
    OneEdit(s.store, e);
  }

  lemma {:induction false} OneEdit(st: Store, e: Edit)
    ensures ApplyEdits(st, [e]) == ApplyEdit(st, e)
  {
    assert [e][1..] == [];
  }

  lemma {:induction false} PushElsewhere(s: RP.State, g: Gid, fault: bool, k: Key)
    requires RP.PushStep(s, g, fault).Some? && k in s.store.objs
    requires s.At(g).RemPut? || s.At(g).AddPut? ==> s.At(g).base.key == s.At(g).r.key != k
    ensures var st := RP.PushStep(s, g, fault).value.store; k in st.objs && st.objs[k] == s.store.objs[k]
  {}

  /** In the operator the annotation of such an ingress never comes back, in no later state and whatever else happens,
      until somebody else deletes the ingress. */
  lemma {:induction false} AbandonedForever(states: seq<State>, labels: seq<Label>, k: Key, i: nat)
    requires IsRun(states, labels) && Inv(states[0]) && Abandoned(states[0], k) && i < |states|
    requires forall j | 0 <= j < |labels| :: !Deletes(labels[j], k)
    ensures Abandoned(states[i], k)
  {
    hide Inv, Apply, Abandoned, Deletes;
    if i > 0 {
      AbandonedForever(states, labels, k, i - 1);
      AlwaysInv(states, labels, i - 1);
      assert Apply(states[i - 1], labels[i - 1]) == Some(states[i]);
      StaysAbandoned(states[i - 1], labels[i - 1], k);
    }
  }

  // ---- How a failed wait leaves one behind.

  ghost predicate Reaches(s: State, s': State) {
    exists states, labels :: IsRun(states, labels) && states[0] == s && states[|labels|] == s'
  }

  lemma {:induction false} ReachesMore(s: State, s': State, l: Label)
    requires Reaches(s, s') && Apply(s', l).Some?
    ensures Reaches(s, Apply(s', l).value)
  {
    var states, labels :| IsRun(states, labels) && states[0] == s && states[|labels|] == s';
    var states', labels' := states + [Apply(s', l).value], labels + [l];
    hide Apply;
    assert IsRun(states', labels') && states'[0] == s && states'[|labels'|] == Apply(s', l).value;
  }

  /** Runs of goroutine 0 on `k` are allowed once it has seen `k` with the annotation. */
  lemma {:induction false} Lift(r: State, s: RP.State, s': RP.State, k: Key)
    requires Reaches(r, State(s, {(0, k)})) && RT.Reaches(s, s', k)
    ensures Reaches(r, State(s', {(0, k)}))
  {
    var states, labels :| RT.LeadsTo(states, labels, s, s', k);
    LiftUpTo(r, states, labels, k, |labels|);
  }

  lemma {:induction false} LiftUpTo(r: State, states: seq<RP.State>, labels: seq<RP.Label>, k: Key, n: nat)
    requires RP.IsExecution(states, labels) && n <= |labels|
    requires forall i | 0 <= i < |labels| :: RT.StartsOn(labels[i], k)
    requires Reaches(r, State(states[0], {(0, k)}))
    ensures Reaches(r, State(states[n], {(0, k)}))
  {
    hide RP.Apply, Reaches;
    if n > 0 {
      LiftUpTo(r, states, labels, k, n - 1);
      var l := labels[n - 1];
      assert RP.Apply(states[n - 1], l) == Some(states[n]) && RT.StartsOn(l, k);
      assert Apply(State(states[n - 1], {(0, k)}), Step(l)) == Some(State(states[n], {(0, k)}));
      ReachesMore(r, State(states[n - 1], {(0, k)}), Step(l));
    }
  }

  /** Every guarded ingress can be left for good by one failed wait: a state is reachable in which all goroutines are
      idle and nothing is leaked, and in which the ingress is abandoned, so that by `AbandonedForever` the operator
      never puts its annotation back. */
  lemma {:induction false} FailedWaitStrandsForever(r: State, run: RP.Run) returns (s: State)
    requires Initial(r) && HasHttps(r.run.store, run.key)
    ensures Reaches(r, s) && Inv(s) && Abandoned(s, run.key)
    ensures (forall g: Gid :: s.run.At(g).Off?) && s.run.leaked == {}
  {
    var k := run.key;
    PastGuard(r, k);
    var left := RT.FailedWaitStrands(r.run, run);
    hide Reaches, RT.Reaches, Inv, Apply, Initial;
    Lift(r, r.run, left, k);
    s := State(left, {});
    GiveUp(r, left, k);
    ReachesInv(r, s);
  }

  lemma {:induction false} PastGuard(r: State, k: Key)
    requires Initial(r) && HasHttps(r.run.store, k)
    ensures Reaches(r, State(r.run, {(0, k)}))
  {
    assert r.run.At(0).Off? && r.seen + {(0, k)} == {(0, k)};
    hide Reaches, RP.Apply, RP.Initial;
    ReachesSelf(r);
    ReachesMore(r, r, Observe(0, k));
    assert Apply(r, Observe(0, k)) == Some(State(r.run, {(0, k)}));
  }

  lemma {:induction false} ReachesSelf(s: State)
    ensures Reaches(s, s)
  {
    hide Apply;
    var none: seq<Label> := [];
    assert IsRun([s], none) && [s][|none|] == s;
  }

  lemma {:induction false} GiveUp(r: State, left: RP.State, k: Key)
    requires Reaches(r, State(left, {(0, k)})) && left.At(0).Off?
    ensures Reaches(r, State(left, {}))
  {
    hide Reaches, RP.Apply;
    var nobody: set<(Gid, Key)> := {};
    assert {(0, k)} - {(0, k)} == nobody;
    assert Apply(State(left, {(0, k)}), Forget(0, k)) == Some(State(left, nobody));
    ReachesMore(r, State(left, {(0, k)}), Forget(0, k));
  }

  lemma {:induction false} ReachesInv(s: State, s': State)
    requires Initial(s) && Reaches(s, s')
    ensures Inv(s')
  {
    var states, labels :| IsRun(states, labels) && states[0] == s && states[|labels|] == s';
    InitialInv(s);
    AlwaysInv(states, labels, |labels|);
  }
}
