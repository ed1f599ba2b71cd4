/**
  The lock regions as code over the watcher's maps.  Entries are named by the number
  the machine gives them; the ghost fields are the machine's goroutines and counters.
  Each method takes exactly one step, so Watcher.NextKeeps carries the protocol across it.
*/
module WatcherCode {
  import opened Text
  import opened Queue
  import opened Watcher

  datatype Outcome = Accepted | LimitReached

  class PendingFiles {
    const cfg: Config
    var pending: map<Key, nat>
    var versions: map<nat, nat>
    var delivered: map<Key, string>
    var nextEntry: nat
    ghost var live: map<nat, Settler>
    ghost var calls: map<Key, nat>
    ghost var tables: Tables

    ghost function Now(): State
      reads this
    {
      State(pending, versions, live, delivered, tables, nextEntry, calls)
    }

    constructor (cfg: Config)
      ensures Now() == START && this.cfg == cfg
    {
      this.cfg := cfg;
      pending, versions, delivered, nextEntry := map[], map[], map[], 0;
      live, calls, tables := map[], map[], EMPTY;
    }

    /** schedule: bump the pending version, or start a goroutine, or refuse at the limit. */
    method ScheduleFile(key: Key) returns (r: Outcome)
      requires key.watch < |cfg.watches|
      modifies this
      ensures Now() == ScheduleStep(old(Now()), key)
      ensures r == LimitReached <==> key !in old(pending) && |old(pending)| >= MAX_PENDING
      ensures r == Accepted ==> key in pending
    {
      if key in pending {
        var t := pending[key];
        versions := versions[t := 1 + if t in versions then versions[t] else 0];
        calls := calls[key := 1 + if key in calls then calls[key] else 0];
        r := Accepted;
      } else if |pending| >= MAX_PENDING {
        r := LimitReached;
      } else {
        Spawn(key);
        r := Accepted;
      }
    }

    method Spawn(key: Key)
      requires key !in pending && |pending| < MAX_PENDING
      modifies this
      ensures Now() == ScheduleStep(old(Now()), key) && key in pending
    {
      var t := nextEntry;
      pending, versions, nextEntry := pending[key := t], versions[t := 1], t + 1;
      live := live[t := Settler(key, Top)];
      calls := calls[key := 1 + if key in calls then calls[key] else 0];
    }

    /** The top of the loop: the version this round of settling will compare against. */
    method BeginRound(t: nat, key: Key) returns (version: nat)
      requires t in live && live[t] == Settler(key, Top) && SettlerOk(cfg, Now(), t, live[t])
      modifies this`live
      ensures Now() == Next(cfg, old(Now()), Begin(t))
      ensures t in live && live[t].phase == Waiting(version, Calls(Now(), key))
    {
      version := versions[t];
      live := live[t := Settler(key, Waiting(version, Calls(Now(), key)))];
    }

    /** recordDeliveredLocked; the evicted entry is whichever the map yields first. */
    method Remember(key: Key, fingerprint: string) returns (victim: Key)
      modifies this`delivered
      ensures key !in old(delivered) && |old(delivered)| >= MAX_DELIVERED ==> victim in old(delivered)
      ensures delivered == RecordDelivered(old(delivered), key, fingerprint, victim)
    {
      victim := key;
      if key !in delivered && |delivered| >= MAX_DELIVERED {
        SomeKey(delivered);
        victim :| victim in delivered;
        delivered := delivered - {victim};
      }
      delivered := delivered[key := fingerprint];
    }

    /** The end of the loop: remember the delivery and stop if nothing was scheduled meanwhile. */
    method RecordAndFinish(t: nat, key: Key, version: nat, ghost seen: nat, fingerprint: string) returns (done: bool, victim: Key)
      requires cfg.cache && t in live && live[t] == Settler(key, Handled(version, seen, fingerprint)) && SettlerOk(cfg, Now(), t, live[t])
      modifies this
      ensures Now() == Next(cfg, old(Now()), Record(t, victim))
      ensures done <==> key !in pending
      ensures done ==> seen == Calls(Now(), key)
    {
      victim := Remember(key, fingerprint);
      done := versions[t] == version;
      if done {
        pending, live := pending - {key}, live - {t};
      } else {
        live := live[t := Settler(key, Top)];
      }
    }

    /** finishPendingIfCurrent. */
    method FinishIfCurrent(t: nat, key: Key, version: nat, ghost seen: nat, ghost fingerprint: string) returns (done: bool)
      requires t in live && live[t] == Settler(key, Skipping(version, seen, fingerprint)) && SettlerOk(cfg, Now(), t, live[t])
      modifies this
      ensures Now() == Next(cfg, old(Now()), FinishSkip(t))
      ensures done <==> key !in pending
      ensures done ==> seen == Calls(Now(), key)
    {
      done := key in pending && pending[key] == t && versions[t] == version;
      if done {
        pending, live := pending - {key}, live - {t};
      } else {
        live := live[t := Settler(key, Top)];
      }
    }

    /** removePending: the version is not looked at. */
    method RemovePending(t: nat, key: Key, ghost version: nat, ghost seen: nat)
      requires t in live && live[t] == Settler(key, Aborting(version, seen)) && SettlerOk(cfg, Now(), t, live[t])
      modifies this
      ensures Now() == Next(cfg, old(Now()), Remove(t)) && key !in pending
    {
      if key in pending && pending[key] == t {
        pending := pending - {key};
      }
      live := live - {t};
    }
  }

  lemma SomeKey<K, V>(m: map<K, V>)
    requires |m| > 0
    ensures exists k :: k in m
  {
    assert m.Keys != {};
    var k :| k in m.Keys;
  }
}
