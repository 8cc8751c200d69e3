/** `utils/namedmutex.go` as an object used by one goroutine at a time. */
module NamedMutex {
  import LP = LockProtocol
  import opened LockSolo

  /** One named lock: the tokens in its one-slot channel and its flag. */
  class LockRecord {
    var tokens: nat
    var locked: bool

    constructor ()
      ensures tokens == 0 && !locked
    {
      tokens, locked := 0, false;
    }
  }

  class NamedMutex {
    var locks: map<string, LockRecord>
    ghost var Repr: set<object>

    ghost predicate Valid()
      reads this, Repr
      ensures Valid() ==> this in Repr
    {
      && this in Repr
      && (forall n | n in locks :: locks[n] in Repr)
      && (forall m, n | m in locks && n in locks && m != n :: locks[m] != locks[n])
      && (forall n | n in locks :: locks[n].tokens == if locks[n].locked then 0 else 1)
    }

    /** The abstract value: what the interleaved model shows a goroutine that runs alone. */
    ghost function View(): View
      requires Valid()
      reads this, Repr
    {
      map n | n in locks :: LP.Cell(locks[n].tokens, locks[n].locked)
    }

    ghost function Held(): set<string>
      requires Valid()
      reads this, Repr
    {
      TakenNames(View())
    }

    constructor ()
      ensures Valid() && View() == map[] && Held() == {} && fresh(Repr)
    {
      locks := map[];
      Repr := {this};
    }

    /** A new entry, with its first token in the channel. */
    method Create(name: string)
      requires Valid() && name !in locks
      modifies this
      ensures Valid() && fresh(Repr - old(Repr))
      ensures name in locks && !locks[name].locked
      ensures View() == old(View())[name := FREE]
    {
      var created := new LockRecord();
      created.tokens := created.tokens + 1;
      locks := locks[name := created];
      Repr := Repr + {created};
    }

    /** The receive and the mark. */
    method Take(name: string)
      requires Valid() && name in locks && !locks[name].locked
      modifies locks[name]
      ensures Valid() && Repr == old(Repr) && View() == old(View())[name := TAKEN]
    {
      var lk := locks[name];
      lk.tokens := lk.tokens - 1;
      lk.locked := true;
    }

    /** `returned` is false when the name is held: the receive then blocks for ever, and nothing has changed. */
    method Lock(name: string) returns (returned: bool)
      requires Valid()
      modifies Repr
      ensures Valid() && fresh(Repr - old(Repr))
      ensures returned <==> name !in old(Held())
      ensures View() == if returned then After(old(View()), LP.Lock, name) else old(View())
      ensures Held() == old(Held()) + {name}
    {
      hide TakenNames;
      TakenAfter(View(), name);
      if name !in locks {
        Create(name);
      }
      if locks[name].tokens == 0 {
        return false;
      }
      Take(name);
      return true;
    }

    method Unlock(name: string)
      requires Valid()
      modifies Repr
      ensures Valid() && Repr == old(Repr)
      ensures View() == After(old(View()), LP.Unlock, name)
      ensures Held() == old(Held()) - {name}
    {
      hide TakenNames;
      TakenAfter(View(), name);
      if name in locks && locks[name].locked {
        var lk := locks[name];
        lk.locked := false;
        lk.tokens := lk.tokens + 1;
      }
    }

    method TryLock(name: string) returns (ok: bool)
      requires Valid()
      modifies Repr
      ensures Valid() && fresh(Repr - old(Repr))
      ensures View() == After(old(View()), LP.TryLock, name) && ok == ResultOf(old(View()), LP.TryLock, name)
      ensures ok <==> name !in old(Held())
      ensures Held() == old(Held()) + {name}
    {
      hide TakenNames;
      TakenAfter(View(), name);
      if name !in locks {
        Create(name);
      } else if locks[name].locked {
        return false;
      }
      if locks[name].tokens > 0 {
        Take(name);
        return true;
      }
      assert false;
      return false;
    }

    method IsLocked(name: string) returns (r: bool)
      requires Valid()
      ensures r == ResultOf(View(), LP.IsLocked, name)
      ensures r <==> name in Held()
    {
      hide TakenNames;
      TakenAfter(View(), name);
      if name in locks {
        return locks[name].locked;
      }
      return false;
    }
  }
}
