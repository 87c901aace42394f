/** The cache under any number of goroutines: all interleavings of the accesses to the shared map. */
module CacheInterleavings {
  import opened Basics
  import opened Cache

  /** The steps that are atomic: one access to the shared map each. A reader or the cleanup loop that
      loads an expired entry deletes its key in a later step, whatever is stored there by then. */
  datatype Step<V> =
    | Store(key: string, value: V, expiresAt: int)
    | Del(key: string)
    | Load(key: string, now: int)
    | DropExpired(key: string)

  datatype Write<V> = Wrote(key: string, value: V, expiresAt: int) | Deleted(key: string)

  /** The map, the keys that some goroutine is about to drop (with how many), and all that the
      callers did. */
  datatype Shared<V> = Shared(data: map<string, Entry<V>>, dropping: multiset<string>, log: seq<Write<V>>)

  predicate CanDo<V>(s: Shared<V>, e: Step<V>) {
    e.DropExpired? ==> e.key in s.dropping
  }

  function Do<V>(s: Shared<V>, e: Step<V>): Shared<V> {
    match e
    case Store(k, v, t) => s.(data := s.data[k := Entry(v, t)], log := s.log + [Wrote(k, v, t)])
    case Del(k) => s.(data := s.data - {k}, log := s.log + [Deleted(k)])
    case Load(k, now) =>
      if k in s.data && s.data[k].Expired(now) then s.(dropping := s.dropping + multiset{k}) else s
    case DropExpired(k) => s.(data := s.data - {k}, dropping := s.dropping - multiset{k})
  }

  /** What a load answers. */
  function Answer<V>(s: Shared<V>, key: string, now: int): Option<V> {
    if key in s.data && !s.data[key].Expired(now) then Some(s.data[key].value) else None
  }

  function RunSteps<V>(s: Shared<V>, steps: seq<Step<V>>): Option<Shared<V>>
    decreases |steps|
  {
    if steps == [] then Some(s)
    else if CanDo(s, steps[0]) then RunSteps(Do(s, steps[0]), steps[1..])
    else None
  }

  /** The entry of the latest store to a key, unless it was deleted since. */
  function Latest<V>(log: seq<Write<V>>, key: string): Option<Entry<V>> {
    if log == [] then None
    else
      match log[|log| - 1]
      case Wrote(k, v, t) => if k == key then Some(Entry(v, t)) else Latest(log[..|log| - 1], key)
      case Deleted(k) => if k == key then None else Latest(log[..|log| - 1], key)
  }

  /** Every entry is the latest stored one; some may have vanished early. */
  ghost predicate Faithful<V>(s: Shared<V>) {
    forall key :: key in s.data ==> Latest(s.log, key) == Some(s.data[key])
  }

  lemma StepKeepsFaithful<V>(s: Shared<V>, e: Step<V>)
    requires Faithful(s) && CanDo(s, e)
    ensures Faithful(Do(s, e))
  {
    var s' := Do(s, e);
    if s'.log != s.log { assert s'.log[..|s'.log| - 1] == s.log; }
  }

  lemma {:induction false} RunKeepsFaithful<V>(s: Shared<V>, steps: seq<Step<V>>, s': Shared<V>)
    requires Faithful(s) && RunSteps(s, steps) == Some(s')
    ensures Faithful(s')
    decreases |steps|
  {
    if steps != [] {
      StepKeepsFaithful(s, steps[0]);
      RunKeepsFaithful(Do(s, steps[0]), steps[1..], s');
    }
  }

  /** After any interleaving from the empty cache, a hit is the value of the latest store to the key,
      with no deletion since, and it has not expired. */
  lemma HitIsLatest<V>(steps: seq<Step<V>>, s: Shared<V>, key: string, now: int)
    requires RunSteps(Shared(map[], multiset{}, []), steps) == Some(s)
    requires Answer(s, key, now).Some?
    ensures Latest(s.log, key).Some? && Latest(s.log, key).value.value == Answer(s, key, now).value
    ensures !Latest(s.log, key).value.Expired(now)
  {
    RunKeepsFaithful(Shared(map[], multiset{}, []), steps, s);
  }

  /** A key that is gone stays gone until it is stored again. */
  lemma {:induction false} NothingReappears<V>(s: Shared<V>, steps: seq<Step<V>>, s': Shared<V>, key: string)
    requires key !in s.data && RunSteps(s, steps) == Some(s')
    requires forall k :: 0 <= k < |steps| ==> !(steps[k].Store? && steps[k].key == key)
    ensures key !in s'.data
    decreases |steps|
  {
    if steps != [] {
      var rest := steps[1..];
      assert forall k :: 0 <= k < |rest| ==> rest[k] == steps[k + 1];
      NothingReappears(Do(s, steps[0]), rest, s', key);
    }
  }

  // ---------- losing an entry early ----------

  /** Steps none of which stores or deletes the key or finds its entry expired. */
  predicate LeavesAlone<V>(steps: seq<Step<V>>, key: string, entry: Entry<V>) {
    forall k :: 0 <= k < |steps| ==> Harmless(steps[k], key, entry)
  }

  predicate Harmless<V>(e: Step<V>, key: string, entry: Entry<V>) {
    match e
    case Store(k, _, _) => k != key
    case Del(k) => k != key
    case Load(k, now) => k != key || !entry.Expired(now)
    case DropExpired(_) => true
  }

  /** A run that leaves the entry of a key alone, and yet the key is gone in the end. */
  ghost predicate Loses<V>(s: Shared<V>, key: string, steps: seq<Step<V>>)
    requires key in s.data
  {
    LeavesAlone(steps, key, s.data[key]) && RunSteps(s, steps).Some? && key !in RunSteps(s, steps).value.data
  }

  /** Without a drop of the key under way such a run keeps the entry as it is. */
  lemma {:induction false} KeepsEntry<V>(s: Shared<V>, key: string, steps: seq<Step<V>>)
    requires key in s.data && key !in s.dropping && LeavesAlone(steps, key, s.data[key]) && RunSteps(s, steps).Some?
    ensures key in RunSteps(s, steps).value.data
    ensures RunSteps(s, steps).value.data[key] == s.data[key]
    decreases |steps|
  {
    if steps != [] {
      var rest := steps[1..];
      assert Harmless(steps[0], key, s.data[key]);
      assert forall k :: 0 <= k < |rest| ==> rest[k] == steps[k + 1];
      KeepsEntry(Do(s, steps[0]), key, rest);
    }
  }

  /** What is stored is what every load answers from then on, until it expires, is stored over or deleted, or
      goes in a drop that was under way. */
  lemma StoredIsSeen<V>(s: Shared<V>, key: string, value: V, expiresAt: int, steps: seq<Step<V>>, s': Shared<V>,
                        now: int)
    requires key !in s.dropping && LeavesAlone(steps, key, Entry(value, expiresAt))
    requires RunSteps(s, [Store(key, value, expiresAt)] + steps) == Some(s')
    ensures Answer(s', key, now) == if now <= expiresAt then Some(value) else None
  {
    var stored := Do(s, Store(key, value, expiresAt));
    RunCons(s, Store(key, value, expiresAt), steps);
    KeepsEntry(stored, key, steps);
  }

  /** An entry that nobody stores over, deletes or finds expired can be lost exactly when some goroutine
      is still about to drop the key, having seen an expired entry there before. */
  lemma LosesEntryIff<V>(s: Shared<V>, key: string)
    requires key in s.data
    ensures (exists steps :: Loses(s, key, steps)) <==> key in s.dropping
  {
    if key in s.dropping {
      var drop: seq<Step<V>> := [DropExpired(key)];
      assert drop[1..] == [];
      assert Loses(s, key, drop);
    } else {
      forall steps ensures !Loses(s, key, steps) {
        if LeavesAlone(steps, key, s.data[key]) && RunSteps(s, steps).Some? { KeepsEntry(s, key, steps); }
      }
    }
  }

  /** Such states are reached from the empty cache: a reader that saw an expired entry drops the key
      after a new value was stored, and the fresh entry vanishes. */
  lemma FreshEntryMayVanish<V>(key: string, first: V, second: V, t: int) returns (steps: seq<Step<V>>, s: Shared<V>)
    ensures RunSteps(Shared(map[], multiset{}, []), steps) == Some(s)
    ensures Latest(s.log, key) == Some(Entry(second, t + 100)) && Answer(s, key, t) == None
  {
    var s0: Shared<V> := Shared(map[], multiset{}, []);
    var s1 := Do(s0, Store(key, first, t - 1));
    var s2 := Do(s1, Load(key, t));
    var s3 := Do(s2, Store(key, second, t + 100));
    s := Do(s3, DropExpired(key));
    RunCons(s3, DropExpired(key), []);
    RunCons(s2, Store(key, second, t + 100), [DropExpired(key)]);
    RunCons(s1, Load(key, t), [Store(key, second, t + 100), DropExpired(key)]);
    steps := [Store(key, first, t - 1)] + ([Load(key, t)] + ([Store(key, second, t + 100)] + [DropExpired(key)]));
    RunCons(s0, Store(key, first, t - 1), steps[1..]);
  }

  lemma RunCons<V>(s: Shared<V>, e: Step<V>, rest: seq<Step<V>>)
    requires CanDo(s, e)
    ensures RunSteps(s, [e] + rest) == RunSteps(Do(s, e), rest)
  {
    assert ([e] + rest)[1..] == rest;
  }
}
