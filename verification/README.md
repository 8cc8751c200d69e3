# Verified model of nimble-opti-adapter

nimble-opti-adapter keeps ACME certificates renewable for ingresses that talk HTTPS to their backends. While an HTTP-01
challenge (RFC 8555, section 8.3) is pending, an *operator* and a daily *cronjob* strip the annotation
`nginx.ingress.kubernetes.io/backend-protocol: HTTPS` from the ingress, wait until the challenge path is gone or a
deadline passes, and put the annotation back. Each program guards the two edits with a lock per ingress and with the
optimistic versions of the API server, while cert-manager, users and other goroutines write to the same objects.

`dafny verify dfyconfig.toml` checks everything here.

## What is modelled

| module | part of the program |
|---|---|
| `LockProtocol`, `LockProperties`, `LockTheorems` | `NamedMutex` under any interleaving of any number of goroutines and names: every map access, channel operation and flag access is one transition |
| `LockSolo`, `NamedMutex` | a goroutine that runs alone, the sequential lock which that amounts to, and the class with its map of locks |
| `IngressStore` | ingresses, the versioned server, what other writers may do, the two annotation edits |
| `RenewalProtocol`, `RenewalProperties`, `RenewalTheorems` | any number of interleaved renewal runs of one process over that server and over the interleaved lock |
| `GuardedRuns` | the same with the operator's entry guard: runs start only on ingresses that were seen with the HTTPS annotation |
| `Cluster` | the server as one watcher sees it: a script says, request by request, what others write, how much time passes and what fails; every theorem is about every script |
| `WatcherRuns`, `IngressWatcher`, `Transparency` | the code that operator and cronjob both carry: removal, wait and reinstatement, as functions of the script and as methods on that server; a run beside the other writers |
| `OperatorRuns`, `Operator`, `OperatorTheorems` | add handler, processing of one ingress, TLS loop, watch, audit, metrics |
| `CronjobRuns`, `Cronjob`, `CronjobTheorems` | audit with its counters, rename of the first secret, deletion of due secrets |
| `CronjobDaily` | any number of audits in a row, each in a fresh process, and the secret names over all of them |
| `GoTime`, `Decimal`, `GoStrings`, `SecretName` | int64 durations, `Atoi`/`Itoa`, `Split`/`Join`, the `-v<n>` names |

The lock, the copy `*Ingress` that Get and Update overwrite, the server and the metrics are objects that the methods
change in place. Each method is proved to leave exactly the state that a function of the script says, such as `EditRun`,
`WaitRun`, `RenewalRun` or `AuditRun`: the held keys, the server, the clock, the caller's copy, and the log of the
writes, waits and deletions that the watcher made. The theorems are then about these functions: when they succeed, in
terms of the script alone, what they leave alone, and what their log must look like.

## What the proofs found

- A failed Get inside either edit returns before the deferred Unlock is registered. The key then stays held for the
  life of the process (`LeakedForever`), and if that happens in the reinstatement the ingress stays without its
  annotation (`FailedGetStrandsForever`). Such failures are the only way for a key to stay held
  (`HeldExactlyWhenLeaked`).
- A failed wait returns without putting the annotation back. The program's README describes the reinstatement as
  unconditional. A run on an ingress with HTTPS that nobody deletes leaves the annotation in place if and only if it was
  completed or failed before its removal took effect (`RestoredExactly`). In the operator the loss is permanent: no
  entry point ever runs again on an ingress without the annotation, so it stays away until somebody else deletes the
  ingress (`FailedWaitStrandsForever`, `AbandonedForever`).
- Contention alone does no harm: without a failed Get, Update or wait on the key, the annotation comes back
  (`NeverStrandedByContention`, `AnnotatedWhenQuiet`).
- The cronjob writes HTTPS back without having checked that it was there. A completed run on an ingress that nobody
  deletes leaves no trace if and only if the ingress carried HTTPS when the run began (`NoTraceExactlyIfGuarded`); the
  operator's guard checks that.
- Unlock by a goroutine that is not the holder, in a quiet system, breaks mutual exclusion if and only if the name is
  held (`StrangersUnlockBreaksExactly`), against the comment at the top of namedmutex.go. No caller does that
  (`RunsAreDisciplined`).
- The program's README says that the renewals counter is incremented when the challenge is gone. A success whose time
  is read after the timeout is reported as renewed but not counted, and the cronjob does not take it for a renewal at
  all (`VerdictsDiffer`). Such a success is rare: the poll's reply must come before the deadline, since its request
  carries the context with the timeout, so only the gap between the reply and the reading of the clock can exceed it.
- The cronjob takes a missed deadline for a renewal if the delay is so long that twice the timeout does not fit into an
  int64 (`CronjobTimeoutVerdict`), and for more than 106751 days the threshold comparison disagrees with the exact one on
  some remaining times (`ThresholdExactness`).
- The rename merges names that differ only in how their version is written, such as `a-v1`, `a-v01` and `a-v+1`, and the
  unversioned `a` with `a-v0` (`NextMergesNonCanonical`, `NextCollidesExactly`); past the largest int64 it continues
  with a longer name and still never repeats one (`RenamesNeverRepeat`).
- With admin rights, an ingress without a challenge and without TLS entries makes the cronjob delete a secret with an
  empty name. That fails and ends the audit, so that no later ingress is visited (`NoTlsFailsExactly`,
  `NoTlsEndsAudit`).
- The program's README says that the operator reacts to creation and modification and checks only the label; the code
  reacts to creation only and requires the HTTPS annotation as well. A comment gives ten minutes to the wait for a
  challenge to appear; the code gives it ten seconds. The model follows the code.

## Model

| member | source | states |
|---|---|---|
| SecretName.ChangeSecretName | utils/strings.go:20-35 | never fails: whatever the suffix test accepts, the increment parses; the result is the specified next name |
| SecretName.IncVxSuffixToStr | utils/strings.go:64-85 | fails exactly when the last part is no number after the prefix is trimmed; otherwise the same leading parts with the wrapped successor |
| SecretName.VersionNotNegative | utils/strings.go:38-54 | the parsed version is never negative, since the last part holds no dash |
| SecretName.SuffixExactly | utils/strings.go:38-54 | a name counts as versioned if and only if a number follows its last dash and a `v`, or a `v` alone |
| SecretName.ViewRender | utils/strings.go:38-85 | reading back a written versioned name gives the same leading parts and version |
| SecretName.NextView | utils/strings.go:20-85 | a rename keeps the leading parts and adds exactly one to the version |
| SecretName.OverflowView | utils/strings.go:81-84 | renaming the largest version wraps around and yields a name that reads back as unversioned, with two more leading parts |
| SecretName.NextCollidesExactly | utils/strings.go:20-85 | two names have the same next name if and only if they have the same leading parts and the same version |
| SecretName.NextInjectiveOnCanonical | utils/strings.go:20-85 | distinct canonical names never collide after a rename |
| SecretName.NextMergesNonCanonical | utils/strings.go:38-85 | concrete non-canonical names that do collide |
| SecretName.ClosedForm | utils/strings.go:20-85 | k renames give `<name>-v<k>`, or advance the version by k, as long as that fits into an int64 |
| SecretName.RenamesGoForward | utils/strings.go:20-85 | each further rename moves strictly ahead in a fixed order of names |
| SecretName.RenamesNeverRepeat | utils/strings.go:20-85 | iterates are equal if and only if they were renamed equally often, without any bound |
| GoStrings.SplitJoin | utils/strings.go:42-42 | splitting the joined parts gives them back if and only if no part contains the separator |
| GoStrings.JoinSplit | utils/strings.go:68-84 | joining the split parts gives the string back |
| GoStrings.ContainsExactly | internal/controller/ingress_watcher.go:250-250 | a string contains another if and only if it is that with some text before and after it |
| Decimal.AtoiItoa | utils/strings.go:49-81 | parsing the printed form of an int64 gives it back, negative numbers and the smallest one included |
| Decimal.AtoiExactly | utils/strings.go:49-78 | a string parses if and only if it is an optional sign, any number of zeros and the digits of a number that fits into an int64, and it parses as that number |
| Decimal.DigitsValue | utils/strings.go:74-81 | a positive number written without sign or leading zeros prints as it was read |
| IngressStore.IngressKeyInjective | utils/strings.go:13-17 | two keys are equal if and only if namespace and name are, for namespaces without a slash |
| IngressStore.NamespaceOfKey | internal/controller/ingress_watcher.go:271-274 | the namespace that settings and secrets are looked up in is the one the key was made of |
| IngressStore.ChallengePath | internal/controller/ingress_watcher.go:244-251 | a path is a challenge if and only if it holds `.well-known/acme-challenge`, whatever comes before and after it |
| IngressStore.ScanIsTruthful | internal/controller/ingress_watcher.go:254-267 | the scan finds a challenge if and only if some rule has such a path and no rule before it lacks HTTP paths, and reports none if and only if no rule has one |
| IngressStore.RestoresExactlyGuarded | internal/controller/annotations.go:28-62 | stripping and restoring is the identity if and only if the annotation was HTTPS |
| IngressStore.EditsKeep | cronjob/internal/ingresswatcher/ingresswatcher.go:229-234 | as long as the versions agree, the server holds the very object that was fetched, whatever others write |
| IngressStore.UntouchedExactly | internal/controller/annotations.go:22-36 | an object is still the very same if and only if nobody changed or deleted it in between: no write can be undone |
| GoTime.SentinelExactness | internal/controller/ingress_watcher.go:341-392 | the doubled timeout is exact if and only if the delay is at most 4611686018 seconds |
| GoTime.CronjobTimeoutVerdict | cronjob/internal/ingresswatcher/ingresswatcher.go:180-190 | for every int64 timeout, wrapped ones included: the cronjob takes a missed deadline for a renewal if and only if the doubled timeout overflows upwards, or the timeout is not positive and its double fits |
| GoTime.OperatorTimeoutVerdict | internal/controller/ingress_watcher.go:352-359 | the operator's "not renewed" means a value congruent to the doubled timeout |
| GoTime.VerdictsDiffer | internal/controller/ingress_watcher.go:347-370 | the cronjob's "renewed" implies the operator's on every value if and only if it does not take a missed deadline for a renewal; then they differ exactly on a late success other than the sentinel, otherwise exactly on everything late and on the sentinel |
| GoTime.ThresholdExactness | internal/controller/ingress_watcher.go:534-548 | the int64 comparison agrees with the exact one on all remaining times if and only if the threshold is at most 106751 days |
| LockProperties.ApplyInv | utils/namedmutex.go:30-115 | each transition, with only holders unlocking, keeps the invariant: map mutex, entries, tokens, flag, holders, calls in progress |
| LockTheorems.AlwaysInv | utils/namedmutex.go:30-115 | the invariant holds in every state of every disciplined interleaving |
| LockTheorems.TokenConservation | utils/namedmutex.go:34-46 | per name, tokens, holders and a pending creation add up to one; the flag is up exactly while a holder is past its mark and before its clear |
| LockTheorems.HolderAlwaysReleases | utils/namedmutex.go:59-62 | a holder's Unlock never skips, and its send never blocks |
| LockTheorems.BlockedExactly | utils/namedmutex.go:31-62 | a goroutine is blocked if and only if it waits for the map mutex, or in Lock for a held name; never on a channel with the map mutex held |
| LockTheorems.NeverStuck | utils/namedmutex.go:30-110 | a goroutine that does not wait for a held name is itself able to move, or the owner of the map mutex is |
| LockTheorems.StepRefines | utils/namedmutex.go:45-95 | each transition is a step of an atomic map from names to holders: acquire at the receive, release at the send, otherwise nothing |
| LockTheorems.ExecutionRefines | utils/namedmutex.go:30-115 | every disciplined execution is a run of that atomic map |
| LockTheorems.ReturnMeansHeld | utils/namedmutex.go:45-95 | after Lock or a true TryLock the caller holds the name, after Unlock it does not |
| LockTheorems.RefusalHasWitness | utils/namedmutex.go:68-96 | a false TryLock has an instant inside the call at which somebody held the name |
| LockTheorems.IsLockedMeansHeld | utils/namedmutex.go:101-115 | a true IsLocked means that the name was held when the flag was read |
| LockTheorems.OtherNamesUntouched | utils/namedmutex.go:31-45 | entries are created once and never replaced; a transition on one name leaves all others alone |
| LockSolo.SoloIsSequential | utils/namedmutex.go:30-115 | a call by a goroutine that runs alone amounts to the sequential lock and returns what that returns, the Unlock of a free name included |
| LockSolo.StrangersUnlockBreaksExactly | utils/namedmutex.go:51-63 | in every quiet state: after an Unlock by a non-holder, callers that keep the discipline can come to share the name if and only if it was held |
| LockSolo.StrangersUnlockBreaksExclusion | utils/namedmutex.go:51-63 | a concrete instance with three goroutines |
| NamedMutex.NamedMutex.Lock | utils/namedmutex.go:30-47 | returns if and only if the name was free, and then exactly that name is added to the held ones; otherwise it blocks with nothing changed |
| NamedMutex.NamedMutex.Unlock | utils/namedmutex.go:51-63 | exactly that name is removed from the held ones; nothing happens if it was not held |
| NamedMutex.NamedMutex.TryLock | utils/namedmutex.go:68-96 | succeeds if and only if the name was free; held afterwards either way |
| NamedMutex.NamedMutex.IsLocked | utils/namedmutex.go:101-115 | true if and only if the name is held |
| RenewalProperties.ApplyInv | internal/controller/ingress_watcher.go:328-373 | each step of any run, of the lock or of an outside writer keeps the composed invariant |
| RenewalProperties.AlwaysInv | internal/controller/ingress_watcher.go:113-186 | the composed invariant holds in every reachable state of any number of runs |
| RenewalTheorems.NeverStrandedByContention | internal/controller/ingress_watcher.go:328-373 | a missing annotation has a run between its removal and its reinstatement, an in-flight run holding the key, or an earlier failed Get, Update or wait; never only a refused lock |
| RenewalTheorems.AnnotatedWhenQuiet | internal/controller/ingress_watcher.go:328-373 | when all runs have returned and none failed on the key, the annotation is back |
| RenewalTheorems.FailedOnlyByFailure | internal/controller/annotations.go:20-41 | a key counts as failed only through a faulty or missing Get, a refused Update or a failed wait on that key |
| RenewalTheorems.UpdateChangesOneAnnotation | internal/controller/annotations.go:28-69 | an accepted Update changes one annotation of the server's object as it was just before, and no other object |
| RenewalTheorems.ConflictExactlyFromOutside | internal/controller/annotations.go:20-69 | inside the critical section the version is stale if and only if a writer outside the process came in between |
| RenewalTheorems.OutsideMeansOutside | internal/controller/annotations.go:33-36 | what counts as the last outside write moves only on a write by somebody else |
| RenewalTheorems.ReinstatedUntilReleased | internal/controller/annotations.go:60-69 | from its reinstatement until it gives the key back, a run sees the annotation in place |
| RenewalTheorems.RunsAreDisciplined | internal/controller/annotations.go:20-72 | every step is a lock transition in which only the holder unlocks |
| RenewalTheorems.HeldExactlyWhenLeaked | internal/controller/annotations.go:22-30 | with nobody in a critical section, a key is held if and only if a Get under it failed |
| RenewalTheorems.LeakedForever | internal/controller/annotations.go:22-26 | after such a failure the key stays held for good and no run gets past its TryLock again |
| RenewalTheorems.MetricsConserved | internal/controller/ingress_watcher.go:334-370 | in every reachable state: renewals <= durations <= removals, with the exact differences |
| RenewalTheorems.CountedAfterReinstating | internal/controller/ingress_watcher.go:361-370 | of all steps exactly one kind is counted: a run that returns after its own reinstatement, with a wait no longer than the timeout; it is then also reported as renewed |
| RenewalTheorems.UndisturbedRunCompletes | internal/controller/ingress_watcher.go:328-373 | from every server and for everything its wait may return, a run on a guarded ingress can be completed, leaves the ingress as it was, and is counted if and only if the wait took no longer than the timeout |
| RenewalTheorems.FailedWaitStrands | internal/controller/ingress_watcher.go:343-346 | every ingress with HTTPS can be left stripped, with all goroutines idle and no key held, by a failed wait |
| GuardedRuns.ApplyInv | internal/controller/ingress_watcher.go:156-157 | with the entry guard, whoever is inside a run saw its ingress with the annotation; kept by every step |
| GuardedRuns.AbandonedForever | internal/controller/ingress_watcher.go:156-456 | once an ingress is stripped and nobody is past the guard on it, the annotation stays away in every later state, until somebody else deletes the ingress |
| GuardedRuns.FailedWaitStrandsForever | internal/controller/ingress_watcher.go:343-346 | one failed wait can leave every guarded ingress in such a state, with all goroutines idle and nothing held |
| RenewalTheorems.FailedGetStrandsForever | internal/controller/annotations.go:54-63 | every guarded ingress can be left stripped, with its key held, by a failed Get |
| Cluster.Cluster.Update | internal/controller/annotations.go:33-36 | accepted only on a matching version; then the one object is stored under a new version and logged with what it replaced; otherwise nothing of its own happens |
| Cluster.SecretOfKey | internal/controller/ingress_watcher.go:485-489 | certificates are looked up, and deleted, in the namespace of the ingress |
| WatcherRuns.EditLandsExactly | internal/controller/annotations.go:15-79 | a locked edit lands if and only if its key is free, its Get and its Update do not fail, and nobody writes to the ingress between the two |
| WatcherRuns.VersionsAgree | internal/controller/annotations.go:22-36 | at the Update the versions agree if and only if the server still holds the fetched object |
| IngressWatcher.IngressWatcher.RemoveHttpsAnnotation | internal/controller/annotations.go:15-44 | refines `EditRun` for the removal: lock, server, copy, clock and log after each of the four outcomes, a failed Get leaving the key held |
| IngressWatcher.IngressWatcher.AddHttpsAnnotation | internal/controller/annotations.go:47-79 | the same for the reinstatement |
| IngressWatcher.IngressWatcher.FindChallenge | internal/controller/ingress_watcher.go:404-418 | the nested loops find a challenge if and only if a rule has a path around `.well-known/acme-challenge` before any rule without HTTP paths, which they panic at |
| IngressWatcher.IngressWatcher.WaitForChallengeAbsence | internal/controller/ingress_watcher.go:377-435 | refines `WaitRun`, clock included: the polls one second apart, what each saw, and how it ended; a reply at or after the deadline is a failed poll |
| WatcherRuns.SucceedsThen | internal/controller/ingress_watcher.go:377-435 | if the polls before the n-th see a challenge, the n-th sees none, and all are answered in time, the wait ends with that poll, and reports n seconds and what the requests took |
| WatcherRuns.WaitEndsExactly | internal/controller/ingress_watcher.go:389-433 | the wait succeeds at the n-th poll if and only if that is what the polls see in time, and times out if and only if the deadline is there after polls that all saw a challenge; otherwise it fails |
| WatcherRuns.PollsAtMost | internal/controller/ingress_watcher.go:389-433 | a timeout of d seconds sends at most d Gets |
| WatcherRuns.Completed | internal/controller/ingress_watcher.go:328-373 | a run that finished its wait: no error if and only if removal, wait and reinstatement are all in the log, and then the server holds the annotated object |
| WatcherRuns.NotWaited | internal/controller/ingress_watcher.go:343-346 | a run whose wait failed leaves the removal as its only write, and the server's object without the annotation unless somebody deletes it |
| Transparency.RunIsTransparent | internal/controller/annotations.go:15-79 | however a run ends, the server holds what the other writers alone would have made of it, but for that one annotation; a completed run leaves no trace if and only if the ingress would carry HTTPS without it |
| Transparency.NoTraceExactlyIfGuarded | internal/controller/ingress_watcher.go:156-157 | on an ingress that nobody deletes, a completed run leaves exactly what the others made if and only if the ingress carried HTTPS when the run began |
| Transparency.RestoredExactly | internal/controller/ingress_watcher.go:328-373 | on an ingress with HTTPS that nobody deletes, the annotation is in place after a run if and only if the run was completed or failed before its removal took effect; otherwise it is gone |
| Transparency.RunSucceedsExactly | internal/controller/ingress_watcher.go:328-373 | a run is completed at its n-th poll if and only if the removal lands, the n-th poll is the first to see no challenge and all are in time, and the reinstatement lands |
| Operator.Operator.GetOrCreateNimbleOpti | internal/controller/ingress_watcher.go:270-311 | refines `SettingsRun`; what it returns is what the server then holds, and 30 and 10 where there was nothing |
| Operator.Operator.StartCertificateRenewal | internal/controller/ingress_watcher.go:328-373 | refines `MeasuredRun`: server, lock, copy, log and metrics after a run, its error and its verdict |
| Operator.Operator.ProcessIngressForRenewal | internal/controller/ingress_watcher.go:212-241 | refines `ProcessRun` and `MakesRenewal`: the settings, and a run if and only if a challenge is found |
| OperatorTheorems.AdapterFailsExactly | internal/controller/ingress_watcher.go:219-223 | processing fails for want of settings if and only if they can be neither had nor created; otherwise it goes by the namespace's own, or by 30 days and 10 seconds |
| OperatorTheorems.VisitStartsExactly | internal/controller/ingress_watcher.go:454-457 | an audited ingress is stripped if and only if label, annotation and challenge are there, the settings can be had, its key is free, Get and Update do not fail and nobody writes between them |
| OperatorTheorems.RenewalIsMade | internal/controller/ingress_watcher.go:226-238 | processing reports a renewal if and only if its run was completed and the wait saw the challenge go, except at exactly twice the delay |
| Operator.Operator.HandleIngressAdd | internal/controller/ingress_watcher.go:113-162 | a locked or unguarded ingress changes nothing at all; otherwise it is processed |
| Operator.Operator.FollowWatch | internal/controller/ingress_watcher.go:611-643 | the first event that settles the matter within ten seconds decides, and the time until then is what it takes |
| Operator.Operator.WaitForAcmeChallenge | internal/controller/ingress_watcher.go:596-644 | refines `WatchRun`: the verdict of the opened watch after the time that it took, or a failure to open it |
| Operator.Operator.ReplaceSecret | internal/controller/ingress_watcher.go:552-578 | refines `ReplaceRun`: deletion, then the watch, then a run whose failure is no error |
| OperatorTheorems.ReplacesExactly | internal/controller/ingress_watcher.go:552-578 | a refused deletion is the error if and only if the secret is missing, unnamed or the request fails; after a deletion a run starts if and only if a challenge appears within ten seconds, at that very moment |
| Operator.Operator.RenewTls | internal/controller/ingress_watcher.go:484-579 | refines `TlsRun`: one TLS entry, with the settings of that moment |
| OperatorTheorems.TlsDueIsReplaced | internal/controller/ingress_watcher.go:484-563 | an entry fails if and only if its certificate cannot be read or the settings cannot be had; its secret is replaced if and only if at most the threshold remains when the certificate is read, up to 106751 days |
| Operator.Operator.RenewValidCertificateIfNecessary | internal/controller/ingress_watcher.go:479-582 | refines `TlsUpTo`: the entries in order, as they were at the start, up to the first error |
| Operator.Operator.VisitIngress | internal/controller/ingress_watcher.go:454-473 | refines `VisitRun`: unguarded ingresses are left alone; the TLS loop runs on the copy that the challenge step left, unless that renewed or failed |
| OperatorTheorems.VisitReads | internal/controller/ingress_watcher.go:463-493 | a visit that comes to the TLS loop and returns no error has read the certificate of every TLS entry |
| Operator.Operator.AuditIngressResources | internal/controller/ingress_watcher.go:438-476 | a failed List, with nothing done, if and only if that request fails; otherwise refines `AuditUpTo`: the listed ingresses in order up to the first error, all of them without one |
| OperatorTheorems.EachIsVisited | internal/controller/ingress_watcher.go:454-474 | each visited ingress is visited once, in the order of the listing and as it was listed; what it logged is still there at the end; only the last visit can have failed |
| OperatorTheorems.VerdictIsTruthful | internal/controller/ingress_watcher.go:352-359 | renewed if and only if a poll saw no challenge, except for a success at exactly twice the timeout |
| OperatorTheorems.WatchSucceedsExactly | internal/controller/ingress_watcher.go:611-635 | the watch succeeds if and only if a challenge appears in time and before anything else ends it, and it is over at that event |
| OperatorTheorems.RunMetricsExactly | internal/controller/ingress_watcher.go:347-370 | for delays up to 4611686018 seconds: one renewal is counted if and only if the run was completed and the challenge went within the delay; one duration is observed for each finished wait, the delay if it timed out and the time it took otherwise |
| OperatorTheorems.AuditIsAccounted | internal/controller/ingress_watcher.go:334-370 | after a whole audit, however it ended, durations and renewals are exactly those that its log calls for, and renewals <= durations <= removals |
| OperatorTheorems.CountedIsRenewed | internal/controller/ingress_watcher.go:361-372 | a counted run was completed and is reported as renewed |
| OperatorTheorems.AuditIsLogged | internal/controller/ingress_watcher.go:454-579 | an audit writes only to guarded ingresses of its listing; each write changes one annotation; each deleted secret was due by the settings in force |
| OperatorTheorems.DeletedOnlyWhenDue | internal/controller/ingress_watcher.go:534-563 | a deleted secret's certificate had been read just before and had at most the threshold left, exactly, up to 106751 days |
| Cronjob.Cronjob.StartCertificateRenewalAudit | cronjob/internal/ingresswatcher/ingresswatcher.go:168-199 | refines `RenewalRun` under the deadline of the audit, with the cronjob's verdict |
| Cronjob.Cronjob.RenameInCopy | cronjob/internal/ingresswatcher/ingresswatcher.go:206-221 | exactly the first TLS entry with the given name is renamed in the caller's copy |
| Cronjob.Cronjob.ChangeIngressSecretName | cronjob/internal/ingresswatcher/ingresswatcher.go:202-245 | refines `RenameRun`: copy, server, lock and log in all cases |
| Cronjob.Cronjob.TimeRemainingCertificateUpToRenewal | cronjob/internal/ingresswatcher/challenge.go:99-154 | the saturated remaining time of the certificate in the first TLS secret only, or an error exactly if that cannot be read; zero and an empty name without TLS entries |
| Cronjob.Cronjob.DeleteIngressSecret | cronjob/internal/ingresswatcher/ingresswatcher.go:248-267 | one request; refused if and only if it fails, the name is empty or there is no such secret; otherwise exactly that secret is deleted |
| Cronjob.Cronjob.RenewChallenged | cronjob/internal/ingresswatcher/ingresswatcher.go:96-123 | refines `ChallengeRun`; the counter follows the verdict of the last run |
| CronjobTheorems.LateAttemptExactly | cronjob/internal/ingresswatcher/ingresswatcher.go:103-117 | after a late first attempt: a panic if and only if the ingress, as put back, has no TLS entry; a rename of the first secret of that very object, and a second attempt, if and only if the request does not fail and nobody wrote to it; a failed Update if and only if one of the two happened |
| CronjobTheorems.RenewedExactly | cronjob/internal/ingresswatcher/ingresswatcher.go:95-123 | an ingress is counted as renewed if and only if it had a challenge, its audit ended without an error and its last wait saw the challenge go within the delay |
| Cronjob.Cronjob.ReplaceSecret | cronjob/internal/ingresswatcher/ingresswatcher.go:132-148 | refines `ReplaceRun`: deletion, pause and run, in this order |
| Cronjob.Cronjob.RenewExpiring | cronjob/internal/ingresswatcher/ingresswatcher.go:124-154 | refines `ExpiryRun`: the first certificate is read and its secret is replaced if it is due |
| Cronjob.Cronjob.AuditIngress | cronjob/internal/ingresswatcher/ingresswatcher.go:92-158 | refines `AuditRun`; the first counter moves if and only if there is a challenge, the second as `RenewedExactly` says |
| Cronjob.Cronjob.AuditIngressResources | cronjob/internal/ingresswatcher/ingresswatcher.go:72-165 | a failed List, with nothing done, if and only if that request fails; otherwise refines `AuditUpTo`: in order up to the first error, all of them without one; both counters are exact |
| CronjobRuns.ChainRename | cronjob/internal/ingresswatcher/ingresswatcher.go:103-111 | the rename always finds the first entry; it is accepted if and only if its request does not fail and nobody wrote to the ingress, and moves the server's first secret name on by one version; if refused nothing moves |
| CronjobTheorems.VerdictIsTruthful | cronjob/internal/ingresswatcher/ingresswatcher.go:180-190 | renewed if and only if a poll saw no challenge and came back within the delay, for delays up to 4611686018 seconds |
| CronjobTheorems.AuditIsLogged | cronjob/internal/ingresswatcher/ingresswatcher.go:92-158 | an audit writes only to visited ingresses, one annotation or the first secret name at a time, and deletes only due secrets |
| CronjobTheorems.DeletedOnlyWhenDue | cronjob/internal/ingresswatcher/ingresswatcher.go:130-138 | a deleted secret's certificate had been read just before and had at most the threshold left, exactly, up to 106751 days |
| CronjobTheorems.DueIsDeleted | cronjob/internal/ingresswatcher/ingresswatcher.go:124-148 | without a challenge and with admin rights: an error if and only if the certificate cannot be read or its deletion is refused; the secret is deleted if and only if at most the threshold remains at that moment, and a run starts five seconds later; up to 106751 days |
| CronjobTheorems.NoTlsFailsExactly | cronjob/internal/ingresswatcher/ingresswatcher.go:124-135 | without a challenge and without TLS entries the deletion fails if and only if there are admin rights and the threshold does not wrap below zero, which it never does up to 106751 days |
| CronjobTheorems.NoTlsEndsAudit | cronjob/internal/ingresswatcher/ingresswatcher.go:124-138 | with admin rights the whole audit ends at the first such ingress; without them it passes by |
| CronjobTheorems.RenamesExactly | cronjob/internal/ingresswatcher/ingresswatcher.go:96-117 | the log of an audited ingress holds a rename if and only if it has a challenge, the first attempt was completed too late and left TLS entries, and the rename met no failure and no other writer |
| CronjobTheorems.LateInAudit | cronjob/internal/ingresswatcher/ingresswatcher.go:96-117 | in a whole audit a late first attempt without TLS entries ends it in a panic, a refused rename ends it in a failed Update, and otherwise, and only then, the secret is renamed |
| CronjobDaily.RunIngressWatcher | cronjob/cmd/ingress-annotation-modifier/main.go:70-89 | one process: a fresh watcher and lock, one audit whose waits end 600 seconds after its start at the latest |
| CronjobDaily.RunDaily | cronjob/cmd/ingress-annotation-modifier/main.go:70-89 | any number of processes in a row, with others acting in between, however the earlier ones ended |
| CronjobDaily.LateInDay | cronjob/internal/ingresswatcher/ingresswatcher.go:96-117 | for delays up to 4611686018 seconds, what a late first attempt leads to that day: a panic without TLS entries, a failed Update after a refused rename, and otherwise, and only then, the rename |
| CronjobDaily.DayIsLogged | cronjob/internal/ingresswatcher/ingresswatcher.go:92-158 | however a day ends, its writes and deletions are those of visited ingresses and in order |
| CronjobDaily.DayMovesHead | cronjob/internal/ingresswatcher/ingresswatcher.go:103-109 | a day moves the first secret name of an ingress on by exactly one version if its audit came to the rename, and leaves it alone otherwise, as long as nobody else edits the TLS entries of that ingress |
| CronjobDaily.HeadIsRenamed | cronjob/internal/ingresswatcher/ingresswatcher.go:103-109 | after any number of days the name is the original one renamed once for each day whose audit came to the rename |
| CronjobDaily.NameNeverReturns | cronjob/internal/ingresswatcher/ingresswatcher.go:103-123 | the name is the same on two days if and only if no audit in between renamed it, so a name that was given up never comes back |
| CronjobDaily.VersionCountsRenames | cronjob/internal/ingresswatcher/ingresswatcher.go:103-123 | the version counts the days that renamed, at most one per day |

## Left out

- Memory model: accesses to the lock's flag outside the map mutex are taken to be sequentially consistent; the data race is not modelled.
- Fairness and the order in which blocked Lock callers wake up are not decided by this code.
- NamedMutex.NamedMutex.Lock: the class is used by one goroutine at a time, where waiting for a held name never ends, so blocking is an explicit outcome; waiting until another goroutine unlocks is in the interleaved lock.
- Server assumptions: an accepted Update bumps the version, a refused one changes nothing, others never change the backend-protocol annotation of an existing ingress, and List returns each object once, in any order.
- Get and an accepted Update overwrite the whole local copy, and a loop over TLS entries keeps the entries it started with: reuse of memory by the decoder is not modelled, nor is the difference between a nil and an empty annotation map.
- A nil `rule.HTTP` and an index into an empty TLS list are the explicit outcome Panic, after which a deferred Unlock plays no role since neither happens inside a critical section.
- The interleaved runs take the whole wait as one step which ends with a poll that sees no challenge, with the doubled timeout or with a failure; the single polls are in WaitForChallengeAbsence.
- The interleaved runs are the operator's; the cronjob is a single goroutine with a fresh lock, and its rename is modelled only there. The guard's label test is left open in `GuardedRuns`: any ingress with HTTPS may be seen.
- Operator.Operator.HandleIngressAdd: in the class no other goroutine moves between its IsLocked test and its run, nor during the run; these races are separate steps in the interleaved model.
- Operator.Operator.AuditIngressResources: the class takes the audit loop and the add handler one after the other, never at the same time; this holds for all methods of the class, whose statements about held keys and about what others write would have to allow for the second goroutine. What holds when both are at work is in the interleaved model.
- The ten minutes of a cronjob audit end its waits; any other request sent after them is, in the model, a request that the script may let fail.
- Deadlines fire on time. A poll's reply at the very deadline counts as late, and a watch event at the very end of the ten seconds as in time; the code leaves both to chance.
- Decoding and parsing of certificates is an arbitrary function from the bytes of `tls.crt` to an expiry time.
- waitForChallengeAbsenceNew and hasIngressChanged, which nothing in the program calls.
- Client set-up, schemes, informers, leader election, configuration loading, logging, the Prometheus registry, Reconcile, the webhooks and the deployment files: library code or no logic.
- Durations are observed in nanoseconds; their conversion to floating-point seconds is not modelled.
- Success of the ACME exchange itself: cert-manager and the certificate authority are among the other writers.
