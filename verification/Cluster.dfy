/**
 * The API server as one watcher sees it. Between and during its requests other writers act, time passes and requests
 * fail; `script` says how, request by request, and every theorem holds for every script.
 */
module Cluster {
  import opened GoStrings
  import opened IngressStore

  /** What happens up to the moment a request takes effect: writes by others, time, and whether it fails; and what a
      watch opened by it delivers. */
  datatype Event = Event(edits: seq<Edit>, elapsed: nat, fault: bool, secrets: map<SecretId, Secret>,
                         nimbles: map<string, NimbleOpti>, watch: Watch)

  datatype SecretId = SecretId(namespace: string, name: string)

  /** The secret called `name` beside the ingress `k`. */
  function SecretOf(k: Key, name: string): SecretId {
    SecretId(NamespaceOf(k), name)
  }

  /** The secret is looked up in the ingress' own namespace. */
  lemma {:induction false} SecretOfKey(namespace: string, ingress: string, name: string)
    requires '/' !in namespace
    ensures SecretOf(IngressKey(namespace, ingress), name) == SecretId(namespace, name)
  {
    NamespaceOfKey(namespace, ingress);
  }

  /** A secret's `tls.crt` entry, if it has one. */
  datatype Secret = Secret(crt: Option<seq<bv8>>)

  /** The operator's settings for a namespace: a threshold in days and a delay in seconds. */
  datatype NimbleOpti = NimbleOpti(threshold: int, delay: int)

  datatype NimbleReply = Got(spec: NimbleOpti) | NotFound | Failed

  /** The events of a watch on one ingress until its channel is closed, each with the time since the one before. */
  datatype Watch = Watch(events: seq<Delivery>)

  datatype Delivery = Delivery(gap: nat, event: WatchEvent)

  /** `Seen` stands for Added and Modified; any other kind of event is `Skipped`. */
  datatype WatchEvent = Seen(ing: Ingress) | Gone | Broken | Skipped

  type Script = nat -> Event

  /** A deletion fails on a missing secret and on an empty name. */
  predicate CanDelete(e: Event, s: SecretId) {
    !e.fault && s in e.secrets && s.name != ""
  }

  /** What the watcher itself did: the writes that the server accepted, the waits that it finished with their timeout
      and what their polls saw, the certificates it read and the secrets it deleted. */
  datatype Entry =
    | Wrote(before: Ingress, after: Ingress)
    | Waited(key: Key, timeout: int, took: int, timedOut: bool, seen: seq<Scan>)
    | ReadExpiry(secret: SecretId, notAfter: int, at: int)
    | Deleted(secret: SecretId, days: int)

  class Cluster {
    const script: Script
    var store: Store
    var secrets: map<SecretId, Secret>
    var nimbles: map<string, NimbleOpti>
    var now: int
    var tick: nat
    ghost var log: seq<Entry>

    ghost predicate Valid()
      reads this
    {
      StoreOk(store)
    }

    constructor (script: Script, store: Store, secrets: map<SecretId, Secret>, now: int)
      requires StoreOk(store)
      ensures Valid() && this.script == script && this.store == store && this.secrets == secrets && this.now == now
      ensures tick == 0 && log == []
    {
      this.script, this.store, this.secrets, this.now := script, store, secrets, now;
      nimbles, tick, log := map[], 0, [];
    }

    /** Others act; nothing of the watcher's own happens. */
    method Pass(atLeast: nat) returns (fault: bool)
      requires Valid()
      modifies this
      ensures Valid() && log == old(log) && tick == old(tick) + 1
      ensures store == ApplyEdits(old(store), script(old(tick)).edits)
      ensures secrets == script(old(tick)).secrets && nimbles == script(old(tick)).nimbles
      ensures now == old(now) + atLeast + script(old(tick)).elapsed && fault == script(old(tick)).fault
    {
      var e := script(tick);
      EditsKeepStore(store, e.edits);
      store, secrets, nimbles := ApplyEdits(store, e.edits), e.secrets, e.nimbles;
      now, tick := now + atLeast + e.elapsed, tick + 1;
      return e.fault;
    }

    method Get(key: Key) returns (r: Option<Ingress>)
      requires Valid()
      modifies this
      ensures Valid() && log == old(log) && tick == old(tick) + 1 && now == old(now) + script(old(tick)).elapsed
      ensures store == ApplyEdits(old(store), script(old(tick)).edits)
      ensures r == if script(old(tick)).fault || key !in store.objs then None else Some(store.objs[key])
    {
      var fault := Pass(0);
      r := if fault || key !in store.objs then None else Some(store.objs[key]);
    }

    /** Optimistic: refused unless the copy carries the server's version. A refused Update changes nothing. */
    method Update(ing: Ingress) returns (r: Option<Ingress>)
      requires Valid()
      modifies this
      ensures Valid() && tick == old(tick) + 1 && now == old(now) + script(old(tick)).elapsed
      ensures var st := ApplyEdits(old(store), script(old(tick)).edits);
        if script(old(tick)).fault || !CanUpdate(st, ing)
        then r == None && store == st && log == old(log)
        else r == Some(Stamp(st, ing)) && store == IngressStore.Update(st, ing)
             && log == old(log) + [Wrote(st.objs[ing.key], Stamp(st, ing))]
    {
      var fault := Pass(0);
      if fault || !CanUpdate(store, ing) {
        return None;
      }
      var stored := Stamp(store, ing);
      log := log + [Wrote(store.objs[ing.key], stored)];
      store := IngressStore.Update(store, ing);
      return Some(stored);
    }

    /** Every object once, in any order. */
    method List() returns (r: Option<seq<Ingress>>)
      requires Valid()
      modifies this
      ensures Valid() && log == old(log) && tick == old(tick) + 1 && now == old(now) + script(old(tick)).elapsed
      ensures store == ApplyEdits(old(store), script(old(tick)).edits)
      ensures r.None? <==> script(old(tick)).fault
      ensures r.Some? ==> IsListing(r.value, store)
    {
      var fault := Pass(0);
      if fault {
        return None;
      }
      var items: seq<Ingress> := [];
      var rest := store.objs.Keys;
      while rest != {}
        invariant rest <= store.objs.Keys
        invariant forall i | 0 <= i < |items| ::
            items[i].key in store.objs && items[i].key !in rest && store.objs[items[i].key] == items[i]
        invariant forall i, j | 0 <= i < j < |items| :: items[i].key != items[j].key
        invariant forall k | k in store.objs && k !in rest :: store.objs[k] in items
        decreases |rest|
      {
        var k :| k in rest;
        items, rest := items + [store.objs[k]], rest - {k};
      }
      return Some(items);
    }

    method GetSecret(s: SecretId) returns (r: Option<Secret>)
      requires Valid()
      modifies this
      ensures Valid() && log == old(log) && tick == old(tick) + 1 && now == old(now) + script(old(tick)).elapsed
      ensures store == ApplyEdits(old(store), script(old(tick)).edits)
      ensures secrets == script(old(tick)).secrets
      ensures r == if script(old(tick)).fault || s !in secrets then None else Some(secrets[s])
    {
      var fault := Pass(0);
      r := if fault || s !in secrets then None else Some(secrets[s]);
    }

    /** `days` is the threshold that the caller decided by. */
    method DeleteSecret(s: SecretId, ghost days: int) returns (ok: bool)
      requires Valid()
      modifies this
      ensures Valid() && tick == old(tick) + 1 && now == old(now) + script(old(tick)).elapsed
      ensures store == ApplyEdits(old(store), script(old(tick)).edits)
      ensures ok <==> CanDelete(script(old(tick)), s)
      ensures secrets == if ok then script(old(tick)).secrets - {s} else script(old(tick)).secrets
      ensures log == if ok then old(log) + [Deleted(s, days)] else old(log)
    {
      var fault := Pass(0);
      if fault || s !in secrets || s.name == "" {
        return false;
      }
      secrets := secrets - {s};
      log := log + [Deleted(s, days)];
      return true;
    }

    method GetNimbleOpti(namespace: string) returns (r: NimbleReply)
      requires Valid()
      modifies this
      ensures Valid() && log == old(log) && tick == old(tick) + 1 && now == old(now) + script(old(tick)).elapsed
      ensures store == ApplyEdits(old(store), script(old(tick)).edits)
      ensures nimbles == script(old(tick)).nimbles
      ensures r == if script(old(tick)).fault then Failed
                   else if namespace in nimbles then Got(nimbles[namespace]) else NotFound
    {
      var fault := Pass(0);
      r := if fault then Failed else if namespace in nimbles then Got(nimbles[namespace]) else NotFound;
    }

    method CreateNimbleOpti(namespace: string, spec: NimbleOpti) returns (ok: bool)
      requires Valid()
      modifies this
      ensures Valid() && log == old(log) && tick == old(tick) + 1 && now == old(now) + script(old(tick)).elapsed
      ensures store == ApplyEdits(old(store), script(old(tick)).edits)
      ensures ok <==> !script(old(tick)).fault && namespace !in script(old(tick)).nimbles
      ensures nimbles == if ok then script(old(tick)).nimbles[namespace := spec] else script(old(tick)).nimbles
    {
      var fault := Pass(0);
      ok := !fault && namespace !in nimbles;
      if ok {
        nimbles := nimbles[namespace := spec];
      }
    }

    method OpenWatch() returns (r: Option<Watch>)
      requires Valid()
      modifies this
      ensures Valid() && log == old(log) && tick == old(tick) + 1 && now == old(now) + script(old(tick)).elapsed
      ensures store == ApplyEdits(old(store), script(old(tick)).edits)
      ensures r == if script(old(tick)).fault then None else Some(script(old(tick)).watch)
    {
      var watch := script(tick).watch;
      var fault := Pass(0);
      r := if fault then None else Some(watch);
    }

    ghost method Note(e: Entry)
      requires Valid()
      modifies this`log
      ensures log == old(log) + [e]
    {
      log := log + [e];
    }
  }

  ghost predicate IsListing(items: seq<Ingress>, st: Store) {
    && (forall i | 0 <= i < |items| :: items[i].key in st.objs && st.objs[items[i].key] == items[i])
    && (forall i, j | 0 <= i < j < |items| :: items[i].key != items[j].key)
    && (forall k | k in st.objs :: st.objs[k] in items)
  }
}
