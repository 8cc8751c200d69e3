/**
 * Ingresses and the versioned API server that holds them: what the watchers read, what they change, and what
 * everybody else may change in between.
 */
module IngressStore {
  import opened GoStrings

  const BACKEND_PROTOCOL := "nginx.ingress.kubernetes.io/backend-protocol"
  const ENABLED_LABEL := "nimble.opti.adapter/enabled"
  const ACME_CHALLENGE := ".well-known/acme-challenge"

  /** Objects are addressed by namespace and name; `IngressKey` names them and their lock. */
  type Key = string

  function IngressKey(namespace: string, name: string): Key {
    namespace + "/" + name
  }

  /** Distinct objects have distinct keys: a namespace never contains a slash. */
  lemma {:induction false} IngressKeyInjective(ns1: string, n1: string, ns2: string, n2: string)
    requires '/' !in ns1 && '/' !in ns2
    ensures IngressKey(ns1, n1) == IngressKey(ns2, n2) <==> ns1 == ns2 && n1 == n2
  {
    var k1, k2 := IngressKey(ns1, n1), IngressKey(ns2, n2);
    assert k1[|ns1|] == '/' && k2[|ns2|] == '/';
    assert forall i | 0 <= i < |ns1| :: k1[i] == ns1[i];
    assert forall i | 0 <= i < |ns2| :: k2[i] == ns2[i];
    if k1 == k2 {
      assert |ns1| == |ns2|;
      assert ns1 == k1[..|ns1|] && ns2 == k2[..|ns2|];
      assert n1 == k1[|ns1| + 1..] && n2 == k2[|ns2| + 1..];
    }
  }

  function NamespaceOf(k: Key): string {
    Split(k, '/')[0]
  }

  lemma {:induction false} NamespaceOfKey(namespace: string, name: string)
    requires '/' !in namespace
    ensures NamespaceOf(IngressKey(namespace, name)) == namespace
  {
    assert IngressKey(namespace, name) == namespace + ['/'] + name;
    SplitPrepend(namespace, name, '/');
  }

  /** A rule's paths; `None` when `rule.HTTP` is nil. */
  datatype Rule = Rule(paths: Option<seq<string>>)

  datatype Tls = Tls(hosts: seq<string>, secretName: string)

  datatype Ingress = Ingress(
    key: Key, version: nat, labels: map<string, string>, annotations: map<string, string>,
    rules: seq<Rule>, tls: seq<Tls>)

  predicate IsAdapterEnabledLabel(ing: Ingress) {
    ENABLED_LABEL in ing.labels && ing.labels[ENABLED_LABEL] == "true"
  }

  predicate IsBackendHttpsAnnotations(ing: Ingress) {
    BACKEND_PROTOCOL in ing.annotations && ing.annotations[BACKEND_PROTOCOL] == "HTTPS"
  }

  predicate IsAcmeChallengePath(path: string) {
    Contains(path, ACME_CHALLENGE)
  }

  /** A scan of the rules stops at the first challenge path, or panics at a rule without HTTP paths. */
  datatype Scan = Found | Absent | NilHttp

  function ScanRules(rules: seq<Rule>): Scan {
    if rules == [] then Absent
    else if rules[0].paths.None? then NilHttp
    else if exists p | p in rules[0].paths.value :: IsAcmeChallengePath(p) then Found
    else ScanRules(rules[1..])
  }

  /** The path of an HTTP-01 challenge, with any text before and after it. */
  ghost predicate IsChallenge(path: string) {
    exists front, rest :: path == front + ".well-known/acme-challenge" + rest
  }

  ghost predicate ChallengeIn(rule: Rule) {
    rule.paths.Some? && exists p | p in rule.paths.value :: IsChallenge(p)
  }

  /** Some rule has a challenge path, and all rules before it have HTTP paths. */
  ghost predicate HasChallenge(rules: seq<Rule>) {
    exists i :: 0 <= i < |rules| && ChallengeIn(rules[i]) && forall j | 0 <= j < i :: rules[j].paths.Some?
  }

  lemma {:induction false} ChallengePath(path: string)
    ensures IsAcmeChallengePath(path) <==> IsChallenge(path)
  {
    ContainsExactly(path, ACME_CHALLENGE);
  }

  lemma {:induction false} ChallengePaths(rule: Rule)
    requires rule.paths.Some?
    ensures (exists p | p in rule.paths.value :: IsAcmeChallengePath(p)) <==> ChallengeIn(rule)
  {
    hide IsAcmeChallengePath, IsChallenge;
    forall p ensures IsAcmeChallengePath(p) <==> IsChallenge(p) {
      ChallengePath(p);
    }
  }

  /** The scan is truthful: found means some rule has a challenge path, absent means none has, and a panic means
      that a rule without HTTP paths comes before any challenge. */
  lemma {:induction false} ScanIsTruthful(rules: seq<Rule>)
    ensures ScanRules(rules).Found? <==> HasChallenge(rules)
    ensures ScanRules(rules).Absent? <==> forall i | 0 <= i < |rules| :: rules[i].paths.Some? && !ChallengeIn(rules[i])
  {
    hide ChallengeIn;
    if rules != [] {
      var rest := rules[1..];
      ScanIsTruthful(rest);
      assert forall i | 1 <= i < |rules| :: rules[i] == rest[i - 1];
      if rules[0].paths.Some? {
        ChallengePaths(rules[0]);
      } else {
        NoPathsNoChallenge(rules[0]);
      }
      if ScanRules(rest).Found? && rules[0].paths.Some? && !ChallengeIn(rules[0]) {
        var i :| 0 <= i < |rest| && ChallengeIn(rest[i]) && forall j | 0 <= j < i :: rest[j].paths.Some?;
        assert ChallengeIn(rules[i + 1]);
      }
      if i :| 0 <= i < |rules| && ChallengeIn(rules[i]) && forall j | 0 <= j < i :: rules[j].paths.Some? {
        if i > 0 { assert ChallengeIn(rest[i - 1]); }
      }
    }
  }

  lemma {:induction false} NoPathsNoChallenge(rule: Rule)
    requires rule.paths.None?
    ensures !ChallengeIn(rule)
  {}

  // ---- The two edits of the renewal.

  function WithoutBackend(ing: Ingress): Ingress {
    ing.(annotations := ing.annotations - {BACKEND_PROTOCOL})
  }

  function WithHttps(ing: Ingress): Ingress {
    ing.(annotations := ing.annotations[BACKEND_PROTOCOL := "HTTPS"])
  }

  /** Stripping and putting back restores an ingress exactly when it carried the HTTPS annotation to begin with:
      the operator checks that before a run, the cronjob does not. */
  lemma {:induction false} RestoresExactlyGuarded(ing: Ingress)
    ensures WithHttps(WithoutBackend(ing)) == ing <==> IsBackendHttpsAnnotations(ing)
  {}

  // ---- The server.

  /** `rev` counts writes; an object's version is the count at its last write. */
  datatype Store = Store(rev: nat, objs: map<Key, Ingress>)

  predicate StoreOk(st: Store) {
    forall k | k in st.objs :: st.objs[k].version <= st.rev && st.objs[k].key == k
  }

  predicate CanUpdate(st: Store, ing: Ingress) {
    ing.key in st.objs && st.objs[ing.key].version == ing.version
  }

  /** What an accepted `Update` stores and writes back into the caller's copy. */
  function Stamp(st: Store, ing: Ingress): Ingress {
    ing.(version := st.rev + 1)
  }

  function Update(st: Store, ing: Ingress): Store {
    Store(st.rev + 1, st.objs[ing.key := Stamp(st, ing)])
  }

  /** One write by anybody else: any change but to the backend-protocol annotation, a deletion, a creation. A change
      may leave the TLS entries as they are. */
  datatype Edit =
    | Change(k: Key, labels: map<string, string>, annotations: map<string, string>, rules: seq<Rule>,
             tls: Option<seq<Tls>>)
    | Drop(k: Key)
    | Create(k: Key, ing: Ingress)

  function KeepBackend(was: map<string, string>, now: map<string, string>): map<string, string> {
    if BACKEND_PROTOCOL in was then now[BACKEND_PROTOCOL := was[BACKEND_PROTOCOL]] else now - {BACKEND_PROTOCOL}
  }

  predicate Takes(st: Store, e: Edit) {
    if e.Create? then e.k !in st.objs else e.k in st.objs
  }

  function ApplyEdit(st: Store, e: Edit): Store {
    if !Takes(st, e) then st
    else
      var rev := st.rev + 1;
      match e
      case Drop(k) => Store(rev, st.objs - {k})
      case Create(k, ing) => Store(rev, st.objs[k := ing.(key := k, version := rev)])
      case Change(k, labels, annotations, rules, tls) =>
        var was := st.objs[k];
        Store(rev, st.objs[k := Ingress(k, rev, labels, KeepBackend(was.annotations, annotations), rules,
                                        if tls.Some? then tls.value else was.tls)])
  }

  function ApplyEdits(st: Store, edits: seq<Edit>): Store
    decreases |edits|
  {
    if edits == [] then st else ApplyEdits(ApplyEdit(st, edits[0]), edits[1..])
  }

  /** A copy taken from the server: as long as the versions agree the server still holds the very same object. */
  predicate Snapshot(st: Store, ing: Ingress) {
    ing.version <= st.rev && (CanUpdate(st, ing) ==> st.objs[ing.key] == ing)
  }

  lemma {:induction false} EditsKeep(st: Store, edits: seq<Edit>, ing: Ingress)
    requires StoreOk(st) && Snapshot(st, ing)
    ensures StoreOk(ApplyEdits(st, edits)) && Snapshot(ApplyEdits(st, edits), ing)
    ensures st.rev <= ApplyEdits(st, edits).rev
    decreases |edits|
  {
    if edits != [] {
      EditsKeep(ApplyEdit(st, edits[0]), edits[1..], ing);
    }
  }

  lemma {:induction false} EditsKeepStore(st: Store, edits: seq<Edit>)
    requires StoreOk(st)
    ensures StoreOk(ApplyEdits(st, edits))
    decreases |edits|
  {
    if edits != [] {
      EditsKeepStore(ApplyEdit(st, edits[0]), edits[1..]);
    }
  }

  /** Somebody changes or deletes `k`. (An existing object cannot be created.) */
  ghost predicate WritesTo(edits: seq<Edit>, k: Key) {
    exists e | e in edits :: e.k == k && !e.Create?
  }

  /** An object is still the very same exactly if nobody wrote to it: a write cannot be undone by another. */
  lemma {:induction false} UntouchedExactly(st: Store, edits: seq<Edit>, k: Key)
    requires StoreOk(st) && k in st.objs
    ensures var st' := ApplyEdits(st, edits);
      k in st'.objs && st'.objs[k] == st.objs[k] <==> !WritesTo(edits, k)
    decreases |edits|
  {
    if edits != [] {
      var e, next := edits[0], ApplyEdit(st, edits[0]);
      assert forall x | x in edits :: x == e || x in edits[1..];
      assert forall x | x in edits[1..] :: x in edits;
      if e.k == k && !e.Create? {
        assert e in edits;
        EditsStayLater(next, edits[1..], k, st.rev);
      } else {
        UntouchedExactly(next, edits[1..], k);
      }
    }
  }

  lemma {:induction false} EditsStayLater(st: Store, edits: seq<Edit>, k: Key, rev: nat)
    requires st.rev >= rev && (k in st.objs ==> st.objs[k].version > rev)
    ensures var st' := ApplyEdits(st, edits);
      st'.rev >= rev && (k in st'.objs ==> st'.objs[k].version > rev)
    decreases |edits|
  {
    if edits != [] {
      EditsStayLater(ApplyEdit(st, edits[0]), edits[1..], k, rev);
    }
  }

  /** A write that leaves the TLS entries of `k` alone, and does not delete it. */
  predicate KeepsTls(e: Edit, k: Key) {
    e.k == k ==> match e
                 case Change(_, _, _, _, tls) => tls.None?
                 case Drop(_) => false
                 case Create(_, _) => true
  }

  ghost predicate TlsSame(st: Store, st': Store, k: Key) {
    k in st.objs ==> k in st'.objs && st'.objs[k].tls == st.objs[k].tls
  }

  lemma {:induction false} EditsKeepTls(st: Store, edits: seq<Edit>, k: Key)
    requires forall e | e in edits :: KeepsTls(e, k)
    ensures TlsSame(st, ApplyEdits(st, edits), k)
    decreases |edits|
  {
    if edits != [] {
      assert KeepsTls(edits[0], k);
      EditsKeepTls(ApplyEdit(st, edits[0]), edits[1..], k);
    }
  }

  predicate HasHttps(st: Store, k: Key) {
    k in st.objs && IsBackendHttpsAnnotations(st.objs[k])
  }

  /** The backend-protocol annotation of `k` in a store that has the ingress. */
  function BackendOf(st: Store, k: Key): Option<string>
    requires k in st.objs
  {
    if BACKEND_PROTOCOL in st.objs[k].annotations then Some(st.objs[k].annotations[BACKEND_PROTOCOL]) else None
  }

  predicate SameBackend(st: Store, st': Store, k: Key) {
    k in st.objs ==> k in st'.objs && BackendOf(st', k) == BackendOf(st, k)
  }

  /** Others leave the backend-protocol annotation of an ingress alone as long as they do not delete it. */
  lemma {:induction false} EditsKeepBackend(st: Store, edits: seq<Edit>, k: Key)
    requires forall e | e in edits :: e.Drop? ==> e.k != k
    ensures SameBackend(st, ApplyEdits(st, edits), k)
    decreases |edits|
  {
    if edits != [] {
      assert edits[0] in edits;
      EditsKeepBackend(ApplyEdit(st, edits[0]), edits[1..], k);
    }
  }
}
