/** One audit after another, each in a fresh process, and what becomes of the first TLS secret names. */
module CronjobDaily {
  import opened GoStrings
  import opened Decimal
  import opened GoTime
  import opened IngressStore
  import opened Cluster
  import opened WatcherRuns
  import opened CronjobRuns
  import opened CronjobTheorems
  import opened IngressWatcher
  import opened Cronjob
  import SecretName
  import NamedMutex

  const MINUTE := 60 * SECOND

  /** One process: its state when it starts and when it ends, the listing that it audited, and how far it came. */
  datatype Day = Day(before: Locked, after: Locked, items: seq<Ingress>, visited: nat, err: Option<Error>)

  /** What every process is given: others' acts, the configuration, and how certificates are read. */
  datatype Setup = Setup(script: Script, config: Config, parse: Parser)

  /** The audit runs under a deadline of 600 seconds. */
  ghost function JobOf(setup: Setup, start: int): Job {
    var lim := Limits(Some(start + 600_000_000_000), Timeout(setup.config.delay));
    Job(setup.script, lim, setup.config, setup.parse)
  }

  /** A fresh watcher, with a fresh lock, audits all ingresses. */
  ghost predicate IsDay(setup: Setup, day: Day) {
    && day.before.held == {} && day.before.ing == NOBODY && StoreOk(day.before.store)
    && IsAuditOf(JobOf(setup, day.before.clock), day.before, day.after, day.items, day.visited, day.err)
  }

  /** The days follow one another, with one event of others' acts in between. A process takes its lock with it. */
  ghost predicate IsDaily(setup: Setup, days: seq<Day>) {
    && (forall i | 0 <= i < |days| :: IsDay(setup, days[i]))
    && (forall i | 0 < i < |days| :: Follows(setup, days[i - 1], days[i]))
  }

  ghost predicate Follows(setup: Setup, yesterday: Day, today: Day) {
    today.before == Passed(setup.script, Ended(yesterday.after), 0)
  }

  ghost function Ended(s: Locked): Locked {
    s.(held := {})
  }

  /** The server as a new process finds it. */
  ghost function AsFound(cluster: Cluster): Locked
    reads cluster
  {
    Locked({}, cluster.store, cluster.tick, cluster.now, NOBODY, cluster.log)
  }

  method RunIngressWatcher(cluster: Cluster, config: Config, notAfter: Parser)
    returns (err: Option<Error>, ghost day: Day)
    requires cluster.Valid() && PositiveInt(config.threshold) && PositiveInt(config.delay)
    modifies cluster
    ensures cluster.Valid() && IsDay(Setup(cluster.script, config, notAfter), day) && day.err == err
    ensures day.before == old(AsFound(cluster)) && Ended(day.after) == AsFound(cluster)
  {
    hide IsAuditOf, CountFound, CountRenewed, NamedMutex.NamedMutex.Held;
    var auditMutex := new NamedMutex.NamedMutex();
    var iw := new IngressWatcher(cluster, auditMutex);
    var job := new Cronjob(iw, config, cluster.now + 10 * MINUTE, notAfter);
    ghost var before := iw.State(NOBODY);
    assert before == old(AsFound(cluster));
    var items, visited, forRenewal, renewed;
    err, items, visited, forRenewal, renewed := job.AuditIngressResources();
    day := Day(before, iw.State(NOBODY), items, visited, err);
  }

  /** Any number of audits in a row; nothing depends on how the earlier ones ended. */
  method RunDaily(cluster: Cluster, config: Config, notAfter: Parser, n: nat) returns (ghost days: seq<Day>)
    requires cluster.Valid() && PositiveInt(config.threshold) && PositiveInt(config.delay)
    modifies cluster
    ensures cluster.Valid() && |days| == n && IsDaily(Setup(cluster.script, config, notAfter), days)
    ensures n > 0 ==> days[0].before == old(AsFound(cluster)) && Ended(days[n - 1].after) == AsFound(cluster)
  {
    hide IsDay, ApplyEdits;
    ghost var setup := Setup(cluster.script, config, notAfter);
    days := [];
    var i := 0;
    while i < n
      invariant 0 <= i <= n && |days| == i && cluster.Valid()
      invariant IsDaily(setup, days)
      invariant i > 0 ==> Ended(days[i - 1].after) == AsFound(cluster)
      invariant if i == 0 then AsFound(cluster) == old(AsFound(cluster)) else days[0].before == old(AsFound(cluster))
    {
      if i > 0 {
        var _ := cluster.Pass(0);
      }
      var err;
      ghost var day := Day(AsFound(cluster), AsFound(cluster), [], 0, None);
      err, day := RunIngressWatcher(cluster, config, notAfter);
      days := days + [day];
      i := i + 1;
    }
  }

  // ---- What a day amounts to.

  ghost function Listed(setup: Setup, day: Day): Locked {
    Passed(setup.script, day.before, 0)
  }

  /** The audit of that day came to a rename of the first secret of `k`: its first attempt on `k` was completed too late
      and left TLS entries, and nobody was in the way of the rename. */
  ghost predicate Renaming(setup: Setup, day: Day, k: Key) {
    exists i :: 0 <= i < day.visited <= |day.items| && day.items[i].key == k
                && RenamesAt(setup, day, i)
  }

  ghost predicate RenamesAt(setup: Setup, day: Day, i: nat)
    requires i < |day.items|
  {
    var job := JobOf(setup, day.before.clock);
    ComesToRename(setup.script, job.lim, StartOf(job, day.items, Listed(setup, day), i))
  }

  lemma {:induction false} ListingIsAudit(setup: Setup, day: Day)
    requires IsDay(setup, day)
    ensures IsAudit(day.items, Listed(setup, day))
    ensures var job := JobOf(setup, day.before.clock);
      && Reached(job, day.items, Listed(setup, day), day.visited)
      && day.after == AuditUpTo(job, day.items, Listed(setup, day), day.visited).now.(ing := NOBODY)
      && (day.visited > 0 ==> day.err == AuditUpTo(job, day.items, Listed(setup, day), day.visited).err)
  {
    EditsKeepStore(day.before.store, setup.script(day.before.tick).edits);
  }

  /** From the start of a day to its end each first secret name that only the cronjob may change has moved on by one
      version exactly if the audit came to its rename, and has not moved otherwise. */
  lemma {:induction false} DayMoves(setup: Setup, day: Day, k: Key)
    requires IsDay(setup, day) && QuietTls(setup.script, k)
    ensures Moved(day.before.store, day.after.store, k, Renaming(setup, day, k))
  {
    var job, listed := JobOf(setup, day.before.clock), Listed(setup, day);
    ListingIsAudit(setup, day);
    hide AuditUpTo, Reached, QuietTls, HeadRenamed, IsAuditOf, Renaming;
    AuditFacts(job, day.items, listed, day.visited);
    RenamingIs(setup, day, k);
    EditsShift(setup.script, day.before.store, day.before.tick);
    assert Moved(day.before.store, listed.store, k, false);
    assert Moved(listed.store, day.after.store, k, Renaming(setup, day, k));
  }

  lemma {:induction false} RenamingIs(setup: Setup, day: Day, k: Key)
    requires IsDay(setup, day)
    ensures day.visited <= |day.items|
    ensures var job := JobOf(setup, day.before.clock);
      Renaming(setup, day, k) <==> k in RenamedKeys(job, day.items, Listed(setup, day), day.visited)
  {
    ListingIsAudit(setup, day);
    RenamedKeysExactly(JobOf(setup, day.before.clock), day.items, Listed(setup, day), day.visited, k);
    hide AuditUpTo, ComesToRename, StartOf, IsAuditOf, RenamedKeys;
  }

  /**
   * What a late first attempt on an ingress leads to that day, at every delay up to 4611686018 seconds. If it left no
   * TLS entry the audit panics there; if the rename was refused the audit fails there; otherwise, and only then, the
   * first secret is renamed.
   */
  lemma {:induction false} LateInDay(setup: Setup, day: Day, i: nat)
    requires IsDay(setup, day) && i < day.visited <= |day.items| && HasChallenge(day.items[i].rules)
    requires 1 <= setup.config.delay <= 4_611_686_018
    requires var job := JobOf(setup, day.before.clock);
      var start := StartOf(job, day.items, Listed(setup, day), i);
      var first := RenewalRun(setup.script, job.lim, start);
      Late(setup.config.delay, Since(start, first.now))
    ensures var job, k := JobOf(setup, day.before.clock), day.items[i].key;
      var first := RenewalRun(setup.script, job.lim, StartOf(job, day.items, Listed(setup, day), i)).now;
      var e := setup.script(first.tick);
      && (first.ing.tls == [] ==> i == day.visited - 1 && day.err == Some(Panic))
      && (first.ing.tls != [] && (e.fault || WritesTo(e.edits, k)) ==>
            i == day.visited - 1 && day.err == Some(UpdateFailed))
      && (first.ing.tls != [] && !e.fault && !WritesTo(e.edits, k) <==> Renaming(setup, day, k))
  {
    var job, listed := JobOf(setup, day.before.clock), Listed(setup, day);
    var start := StartOf(job, day.items, listed, i);
    ListingIsAudit(setup, day);
    TakenUp(job, day.items, listed, day.visited, i);
    LateIsNoVerdict(setup.script, job.lim, start, setup.config.delay);
    RenamingIs(setup, day, day.items[i].key);
    hide AuditUpTo, IsDay, AuditRun, RenewalRun, WritesTo, HasChallenge, Late, Renaming, RenamedKeys;
    LateInAudit(job, day.items, listed, day.visited, i);
  }

  /** However a day ends, what it wrote and deleted is accounted for in the log. */
  lemma {:induction false} DayIsLogged(setup: Setup, day: Day)
    requires IsDay(setup, day)
    ensures day.visited <= |day.items|
    ensures Logged(day.before.log, day.after.log, KeysOf(day.items[..day.visited]), Some(setup.config.threshold))
  {
    ListingIsAudit(setup, day);
    AuditIsLogged(JobOf(setup, day.before.clock), day.items, Listed(setup, day), day.visited);
    hide Logged, AuditUpTo, IsListing, Reached, KeysOf;
  }

  // ---- The first TLS secret name.

  ghost predicate HasHead(st: Store, k: Key) {
    k in st.objs && st.objs[k].tls != []
  }

  function Head(st: Store, k: Key): string
    requires HasHead(st, k)
  {
    st.objs[k].tls[0].secretName
  }

  /** The server before the first day, or at the end of day `i`. */
  ghost function StoreAfter(days: seq<Day>, i: nat): Store
    requires 0 < |days| && i <= |days|
  {
    if i == 0 then days[0].before.store else days[i - 1].after.store
  }

  /** On how many of the first `i` days the audit renamed the first secret of `k`. */
  ghost function RenamingDays(setup: Setup, days: seq<Day>, k: Key, i: nat): nat
    requires i <= |days|
  {
    if i == 0 then 0
    else RenamingDays(setup, days, k, i - 1) + if Renaming(setup, days[i - 1], k) then 1 else 0
  }

  /** A day moves the name on by one version if its audit came to the rename, and leaves it alone otherwise. */
  lemma {:induction false} DayMovesHead(setup: Setup, days: seq<Day>, k: Key, i: nat)
    requires IsDaily(setup, days) && QuietTls(setup.script, k) && 0 < i <= |days|
    requires HasHead(StoreAfter(days, i - 1), k)
    ensures HasHead(StoreAfter(days, i), k)
    ensures Head(StoreAfter(days, i), k) == if Renaming(setup, days[i - 1], k)
                                            then SecretName.Next(Head(StoreAfter(days, i - 1), k))
                                            else Head(StoreAfter(days, i - 1), k)
  {
    hide IsDay, Renaming, SecretName.Next, QuietTls, ApplyEdits;
    var day := days[i - 1];
    assert IsDay(setup, day);
    DayMoves(setup, day, k);
    if i > 1 {
      assert Follows(setup, days[i - 2], day);
      EditsShift(setup.script, days[i - 2].after.store, days[i - 2].after.tick);
      assert Moved(days[i - 2].after.store, day.before.store, k, false);
    }
  }

  /** After any number of days the name is the first one, renamed once for each day whose audit renamed it. */
  lemma {:induction false} HeadIsRenamed(setup: Setup, days: seq<Day>, k: Key, i: nat)
    requires IsDaily(setup, days) && QuietTls(setup.script, k) && 0 < |days| && i <= |days|
    requires HasHead(days[0].before.store, k)
    ensures HasHead(StoreAfter(days, i), k)
    ensures Head(StoreAfter(days, i), k)
         == SecretName.Renamed(Head(days[0].before.store, k), RenamingDays(setup, days, k, i))
  {
    hide IsDaily, QuietTls, Renaming, SecretName.Next, SecretName.Renamed, HasHead, Head;
    var name := Head(days[0].before.store, k);
    if i == 0 {
      RenamedUnfolds(name, 0);
    } else {
      HeadIsRenamed(setup, days, k, i - 1);
      DayMovesHead(setup, days, k, i);
      RenamedUnfolds(name, RenamingDays(setup, days, k, i - 1));
    }
  }

  lemma {:induction false} RenamedUnfolds(name: string, n: nat)
    ensures SecretName.Renamed(name, 0) == name
    ensures SecretName.Renamed(name, n + 1) == SecretName.Next(SecretName.Renamed(name, n))
  {
    hide SecretName.Next;
  }

  lemma {:induction false} RenamingDaysGrow(setup: Setup, days: seq<Day>, k: Key, i: nat, j: nat)
    requires i <= j <= |days|
    ensures RenamingDays(setup, days, k, i) <= RenamingDays(setup, days, k, j)
         <= RenamingDays(setup, days, k, i) + (j - i)
    decreases j
  {
    hide Renaming;
    if i < j {
      RenamingDaysGrow(setup, days, k, i, j - 1);
    }
  }

  /** The name is the same on two days if and only if no audit in between renamed it: a name that was given up never
      comes back, however many days pass. This holds past the int64 limit as well. */
  lemma {:induction false} NameNeverReturns(setup: Setup, days: seq<Day>, k: Key, i: nat, j: nat)
    requires IsDaily(setup, days) && QuietTls(setup.script, k) && 0 < |days| && i <= j <= |days|
    requires HasHead(days[0].before.store, k)
    ensures HasHead(StoreAfter(days, i), k) && HasHead(StoreAfter(days, j), k)
    ensures Head(StoreAfter(days, i), k) == Head(StoreAfter(days, j), k)
       <==> forall m | i <= m < j :: !Renaming(setup, days[m], k)
  {
    hide SecretName.Renamed, IsDaily, Renaming;
    HeadIsRenamed(setup, days, k, i);
    HeadIsRenamed(setup, days, k, j);
    SecretName.RenamesNeverRepeat(Head(days[0].before.store, k), RenamingDays(setup, days, k, i),
                                  RenamingDays(setup, days, k, j));
    SameCountExactly(setup, days, k, i, j);
  }

  lemma {:induction false} SameCountExactly(setup: Setup, days: seq<Day>, k: Key, i: nat, j: nat)
    requires i <= j <= |days|
    ensures RenamingDays(setup, days, k, i) == RenamingDays(setup, days, k, j)
       <==> forall m | i <= m < j :: !Renaming(setup, days[m], k)
    decreases j
  {
    hide Renaming;
    if i < j {
      SameCountExactly(setup, days, k, i, j - 1);
      RenamingDaysGrow(setup, days, k, i, j - 1);
    }
  }

  /** The version counts the days that renamed, at most one each: an unversioned name becomes `<name>-v<count>`. */
  lemma {:induction false} VersionCountsRenames(setup: Setup, days: seq<Day>, k: Key, i: nat)
    requires IsDaily(setup, days) && QuietTls(setup.script, k) && 0 < |days| && i <= |days|
    requires HasHead(days[0].before.store, k)
    ensures HasHead(StoreAfter(days, i), k)
    ensures var name, n := Head(days[0].before.store, k), RenamingDays(setup, days, k, i);
      && n <= i
      && (n >= 1 && SecretName.ViewOf(name).version + n <= MAX_INT64 ==>
            && Head(StoreAfter(days, i), k)
                 == SecretName.Render(SecretName.ViewOf(name).stem, SecretName.ViewOf(name).version + n)
            && (!SecretName.IsStrHasVxSuffix(name) ==> Head(StoreAfter(days, i), k) == name + "-v" + Itoa(n)))
  {
    hide SecretName.Renamed, SecretName.ViewOf, SecretName.Render, SecretName.IsStrHasVxSuffix, IsDaily, Renaming;
    HeadIsRenamed(setup, days, k, i);
    RenamingDaysGrow(setup, days, k, 0, i);
    var name, n := Head(days[0].before.store, k), RenamingDays(setup, days, k, i);
    if n >= 1 && SecretName.ViewOf(name).version + n <= MAX_INT64 {
      SecretName.ClosedForm(name, n);
    }
  }
}
