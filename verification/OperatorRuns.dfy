/** The operator's processing and audits as functions of the server's script. */
module OperatorRuns {
  import opened GoStrings
  import opened GoTime
  import opened IngressStore
  import opened Cluster
  import opened WatcherRuns

  const DEFAULTS := NimbleOpti(30, 10)

  /** How long the operator waits for a challenge to appear. */
  const PATIENCE: nat := 10 * SECOND

  /** The observed annotation update durations, in nanoseconds, and the renewals counter. */
  datatype Metrics = Metrics(durations: seq<int>, renewals: nat)

  datatype Result = Result(now: Locked, metrics: Metrics, err: Option<Error>)

  /** What everything depends on besides the state: others' acts, and how certificates are read. */
  datatype Setup = Setup(script: Script, parse: Parser)

  predicate Guarded(ing: Ingress) {
    IsAdapterEnabledLabel(ing) && IsBackendHttpsAnnotations(ing)
  }

  // ---- Settings.

  datatype Had = Had(now: Locked, settings: Option<NimbleOpti>)

  /** The settings of a namespace; if there are none they are created with the defaults. */
  ghost function SettingsRun(script: Script, namespace: string, was: Locked): Had {
    var got := Passed(script, was, 0);
    var first, second := script(was.tick), script(got.tick);
    if first.fault then Had(got, None)
    else if namespace in first.nimbles then Had(got, Some(first.nimbles[namespace]))
    else if second.fault || namespace in second.nimbles then Had(Passed(script, got, 0), None)
    else Had(Passed(script, got, 0), Some(DEFAULTS))
  }

  // ---- A run and its metrics.

  /** The operator's verdict: the wait is over and did not return the doubled timeout. */
  ghost predicate Verdict(timeout: int, run: seq<Entry>) {
    |run| >= 2 && run[1].Waited? && OperatorRenewed(timeout, run[1].took)
  }

  /** A finished wait is observed, a missed deadline as the timeout itself; a completed run in time is counted. */
  ghost function RunMetrics(m: Metrics, timeout: int, run: seq<Entry>): Metrics {
    if |run| < 2 || !run[1].Waited? then m
    else
      var took := run[1].took;
      Metrics(m.durations + [if took == Sentinel(timeout) then timeout else took],
              m.renewals + if |run| == 3 && OperatorCounted(timeout, took) then 1 else 0)
  }

  function LimitsOf(adapter: NimbleOpti): Limits {
    Limits(None, Timeout(adapter.delay))
  }

  ghost function MeasuredRun(script: Script, adapter: NimbleOpti, was: Locked, m: Metrics): Result {
    var out := RenewalRun(script, LimitsOf(adapter), was);
    Result(out.now, RunMetrics(m, Timeout(adapter.delay), Since(was, out.now)), out.err)
  }

  // ---- The challenge of an ingress.

  /** The settings are had or created; then a run if the ingress has a challenge path, and nothing otherwise. */
  ghost function ProcessRun(script: Script, was: Locked, m: Metrics): Result {
    var had := SettingsRun(script, NamespaceOf(was.ing.key), was);
    if had.settings.None? then Result(had.now, m, Some(AdapterFailed))
    else
      match ScanRules(was.ing.rules)
      case NilHttp => Result(had.now, m, Some(Panic))
      case Absent => Result(had.now, m, None)
      case Found => MeasuredRun(script, had.settings.value, had.now, m)
  }

  /** The processing renewed the certificate. */
  ghost predicate MakesRenewal(script: Script, was: Locked) {
    var had := SettingsRun(script, NamespaceOf(was.ing.key), was);
    && had.settings.Some? && ScanRules(was.ing.rules).Found?
    && var out := RenewalRun(script, LimitsOf(had.settings.value), had.now);
       out.err.None? && Verdict(Timeout(had.settings.value.delay), Since(had.now, out.now))
  }

  // ---- The TLS entries of an ingress.

  /** The first event that settles the matter does, unless `left` has passed before it. */
  function WatchVerdict(events: seq<Delivery>, left: nat): Option<Error>
    decreases |events|
  {
    if events == [] || events[0].gap > left then Some(WatchFailed)
    else
      match events[0].event
      case Gone => Some(WatchFailed)
      case Broken => Some(WatchFailed)
      case Skipped => WatchVerdict(events[1..], left - events[0].gap)
      case Seen(ing) =>
        match ScanRules(ing.rules)
        case Found => None
        case NilHttp => Some(Panic)
        case Absent => WatchVerdict(events[1..], left - events[0].gap)
  }

  /** How long that takes. A closed channel is noticed at once. */
  function WatchSpent(events: seq<Delivery>, left: nat): (spent: nat)
    ensures spent <= left
    decreases |events|
  {
    if events == [] then 0
    else if events[0].gap > left then left
    else
      var goesOn := match events[0].event
                    case Gone => false
                    case Broken => false
                    case Skipped => true
                    case Seen(ing) => ScanRules(ing.rules).Absent?;
      events[0].gap + if goesOn then WatchSpent(events[1..], left - events[0].gap) else 0
  }

  ghost function WatchRun(script: Script, was: Locked): Outcome {
    var opening, e := Passed(script, was, 0), script(was.tick);
    if e.fault then Outcome(opening, Some(WatchFailed))
    else Outcome(Passed(script, opening, WatchSpent(e.watch.events, PATIENCE)), WatchVerdict(e.watch.events, PATIENCE))
  }

  /** A secret that is due: it is deleted, and once a challenge appears a run is started. A run that fails is only
      logged. */
  ghost function ReplaceRun(script: Script, secretName: string, adapter: NimbleOpti, was: Locked, m: Metrics): Result {
    var secret, deleted := SecretOf(was.ing.key, secretName), Passed(script, was, 0);
    if !CanDelete(script(was.tick), secret) then Result(deleted, m, Some(DeleteFailed))
    else
      var watched := WatchRun(script, Noted(deleted, Deleted(secret, adapter.threshold)));
      if watched.err.Some? then Result(watched.now, m, watched.err)
      else MeasuredRun(script, adapter, watched.now, m).(err := None)
  }

  /** One TLS entry: its certificate is read, then the settings, and its secret is replaced if it is due. */
  ghost function TlsRun(setup: Setup, secretName: string, was: Locked, m: Metrics): Result {
    var secret, read := SecretOf(was.ing.key, secretName), Passed(setup.script, was, 0);
    match ExpiryIn(setup.parse, setup.script(was.tick), secret)
    case None => Result(read, m, Some(SecretUnreadable))
    case Some(notAfter) =>
      var got := Passed(setup.script, Noted(read, ReadExpiry(secret, notAfter, read.clock)), 0);
      match SettingsIn(setup.script(read.tick), was.ing.key)
      case None => Result(got, m, Some(AdapterFailed))
      case Some(adapter) =>
        if DueForRenewal(notAfter - read.clock, adapter.threshold)
        then ReplaceRun(setup.script, secretName, adapter, got, m)
        else Result(got, m, None)
  }

  /** The first `n` entries, up to the first error. */
  ghost function TlsUpTo(setup: Setup, tls: seq<Tls>, was: Locked, m: Metrics, n: nat): Result
    requires n <= |tls|
  {
    if n == 0 then Result(was, m, None)
    else
      var before := TlsUpTo(setup, tls, was, m, n - 1);
      if before.err.Some? then before else TlsRun(setup, tls[n - 1].secretName, before.now, before.metrics)
  }

  // ---- Whole ingresses and whole audits.

  /** An unguarded ingress is left alone. A guarded one is processed, and unless that renewed its certificate or failed,
      the TLS entries of the copy that it left are gone through. */
  ghost function VisitRun(setup: Setup, was: Locked, m: Metrics): Result {
    if !Guarded(was.ing) then Result(was, m, None)
    else
      var r := ProcessRun(setup.script, was, m);
      if r.err.Some? || MakesRenewal(setup.script, was) then r
      else TlsUpTo(setup, r.now.ing.tls, r.now, r.metrics, |r.now.ing.tls|)
  }

  /** The first `n` listed ingresses one after the other, up to the first error. */
  ghost function AuditUpTo(setup: Setup, items: seq<Ingress>, listed: Locked, m: Metrics, n: nat): Result
    requires n <= |items|
  {
    if n == 0 then Result(listed, m, None)
    else
      var before := AuditUpTo(setup, items, listed, m, n - 1);
      if before.err.Some? then before else VisitRun(setup, before.now.(ing := items[n - 1]), before.metrics)
  }

  /** Everything before `n` went without an error. */
  ghost predicate Reached(setup: Setup, items: seq<Ingress>, listed: Locked, m: Metrics, n: nat) {
    n <= |items| && (n > 0 ==> AuditUpTo(setup, items, listed, m, n - 1).err.None?)
  }

  ghost function Blind(r: Result): Result {
    r.(now := r.now.(ing := NOBODY))
  }

  ghost predicate IsStage(setup: Setup, items: seq<Ingress>, listed: Locked, m: Metrics, n: nat, r: Result) {
    Reached(setup, items, listed, m, n) && r == Blind(AuditUpTo(setup, items, listed, m, n))
  }

  /** An audit of the listing `items`, that ended with the ingress before `visited` or because the listing failed. */
  ghost predicate IsAuditOf(setup: Setup, was: Locked, m: Metrics, items: seq<Ingress>, visited: nat, r: Result) {
    var listed := Passed(setup.script, was, 0);
    if setup.script(was.tick).fault then
      r == Result(listed, m, Some(ListFailed)) && items == [] && visited == 0
    else
      && IsListing(items, listed.store) && IsStage(setup, items, listed, m, visited, r)
      && (r.err.None? ==> visited == |items|)
  }

  lemma {:induction false} Beginning(setup: Setup, items: seq<Ingress>, listed: Locked, m: Metrics)
    requires listed.ing == NOBODY
    ensures IsStage(setup, items, listed, m, 0, Result(listed, m, None))
  {}

  lemma {:induction false} OneMore(setup: Setup, items: seq<Ingress>, listed: Locked, m: Metrics, n: nat, start: Locked,
                                   before: Metrics, r: Result)
    requires n < |items| && start.ing == items[n]
    requires IsStage(setup, items, listed, m, n, Result(start.(ing := NOBODY), before, None))
    requires r == Blind(VisitRun(setup, start, before))
    ensures IsStage(setup, items, listed, m, n + 1, r)
  {
    hide VisitRun;
    assert start == AuditUpTo(setup, items, listed, m, n).now.(ing := items[n]);
  }
}
