/** The lock manager that keeps one reader-writer lock per path while it is in use. */
module LockManagement {
  // Clients get a handle, lock it, unlock it, and release it; unlocking and releasing are separate steps,
  // so other clients may act between them.
  import opened OrderedKeys

  datatype Option<T> = None | Some(value: T)

  // A reader-writer lock and the number of handles that were given out for it.
  datatype Mutex = Mutex(count: int, writer: Option<int>, readers: set<int>)

  datatype Manager = Manager(limit: nat, lockMap: map<string, int>, mutexes: map<int, Mutex>, nextId: int)

  function Got(m: Manager, key: string): (Manager, int)
    requires key in m.lockMap ==> m.lockMap[key] in m.mutexes
  {
    if key in m.lockMap then
      var id := m.lockMap[key];
      (m.(mutexes := m.mutexes[id := m.mutexes[id].(count := m.mutexes[id].count + 1)]), id)
    else
      (m.(lockMap := m.lockMap[key := m.nextId], mutexes := m.mutexes[m.nextId := Mutex(1, None, {})], nextId := m.nextId + 1),
       m.nextId)
  }

  function Released(m: Manager, key: string): Manager
    requires key in m.lockMap ==> m.lockMap[key] in m.mutexes
  {
    if key !in m.lockMap then m else
      var id := m.lockMap[key];
      var count := m.mutexes[id].count - 1;
      var mutexes := m.mutexes[id := m.mutexes[id].(count := count)];
      m.(mutexes := mutexes, lockMap := if count == 0 then m.lockMap - {key} else m.lockMap)
  }

  class LockManager {
    const lockLimit: nat
    var lockMap: map<string, int>
    var mutexes: map<int, Mutex>
    var nextId: int

    function Model(): Manager
      reads this
    {
      Manager(lockLimit, lockMap, mutexes, nextId)
    }

    constructor (limit: nat)
      ensures Model() == Manager(limit, map[], map[], 0)
    {
      lockLimit, lockMap, mutexes, nextId := limit, map[], map[], 0;
    }

    /** What a client does once the wait for room has ended. */
    method GetLock(key: string) returns (id: int)
      requires |lockMap| < lockLimit && (key in lockMap ==> lockMap[key] in mutexes)
      modifies this
      ensures (Model(), id) == Got(old(Model()), key)
    {
      if key in lockMap {
        id := lockMap[key];
        mutexes := mutexes[id := mutexes[id].(count := mutexes[id].count + 1)];
      } else {
        id := nextId;
        nextId := nextId + 1;
        mutexes := mutexes[id := Mutex(1, None, {})];
        lockMap := lockMap[key := id];
      }
    }

    method ReleaseLock(key: string)
      requires key in lockMap ==> lockMap[key] in mutexes
      modifies this
      ensures Model() == Released(old(Model()), key)
    {
      if key in lockMap {
        var id := lockMap[key];
        mutexes := mutexes[id := mutexes[id].(count := mutexes[id].count - 1)];
        if mutexes[id].count == 0 {
          lockMap := lockMap - {key};
        }
      }
    }
  }

  // ----- Clients

  // A client that has a handle: not yet locked, locked, or unlocked but not yet released.
  datatype Phase =
    | Waiting(key: string, id: int)
    | Holding(key: string, id: int, exclusive: bool)
    | Unlocked(key: string, id: int)

  datatype World = World(manager: Manager, clients: map<int, Phase>)

  datatype Step = Get(client: int, key: string) | LockShared(client: int) | Lock(client: int) | Unlock(client: int) | Release(client: int)

  function Of(w: World, id: int): Mutex {
    if id in w.manager.mutexes then w.manager.mutexes[id] else Mutex(0, None, {})
  }

  predicate Mapped(m: Manager, key: string) {
    key in m.lockMap && m.lockMap[key] in m.mutexes
  }

  predicate Enabled(w: World, step: Step) {
    match step
    case Get(c, key) =>
      c !in w.clients && |w.manager.lockMap| < w.manager.limit && (key in w.manager.lockMap ==> Mapped(w.manager, key))
    case LockShared(c) => c in w.clients && w.clients[c].Waiting? && Of(w, w.clients[c].id).writer.None?
    case Lock(c) =>
      c in w.clients && w.clients[c].Waiting? && Of(w, w.clients[c].id).writer.None? && Of(w, w.clients[c].id).readers == {}
    case Unlock(c) => c in w.clients && w.clients[c].Holding?
    case Release(c) => c in w.clients && w.clients[c].Unlocked? && (w.clients[c].key in w.manager.lockMap ==> Mapped(w.manager, w.clients[c].key))
  }

  function WithMutex(w: World, id: int, mutex: Mutex): Manager {
    w.manager.(mutexes := w.manager.mutexes[id := mutex])
  }

  function Next(w: World, step: Step): World
    requires Enabled(w, step)
  {
    match step
    case Get(c, key) =>
      var (manager, id) := Got(w.manager, key);
      World(manager, w.clients[c := Waiting(key, id)])
    case LockShared(c) =>
      var p := w.clients[c];
      World(WithMutex(w, p.id, Of(w, p.id).(readers := Of(w, p.id).readers + {c})), w.clients[c := Holding(p.key, p.id, false)])
    case Lock(c) =>
      var p := w.clients[c];
      World(WithMutex(w, p.id, Of(w, p.id).(writer := Some(c))), w.clients[c := Holding(p.key, p.id, true)])
    case Unlock(c) =>
      var p := w.clients[c];
      var mutex := Of(w, p.id);
      World(WithMutex(w, p.id, if p.exclusive then mutex.(writer := None) else mutex.(readers := mutex.readers - {c})),
            w.clients[c := Unlocked(p.key, p.id)])
    case Release(c) => World(Released(w.manager, w.clients[c].key), w.clients - {c})
  }

  // ----- The invariant

  predicate Uses(w: World, key: string, c: int) {
    c in w.clients && w.clients[c].key == key
  }

  predicate Writes(w: World, c: int) {
    c in w.clients && w.clients[c].Holding? && w.clients[c].exclusive
  }

  function Users(w: World, key: string): set<int> {
    set c | c in w.clients && Uses(w, key, c)
  }

  /** The lock knows exactly its holders: one writer, or readers only. */
  ghost predicate HoldersMatch(w: World, key: string, mutex: Mutex) {
    && (forall c :: mutex.writer == Some(c) <==> Uses(w, key, c) && w.clients[c].Holding? && w.clients[c].exclusive)
    && (forall c :: c in mutex.readers <==> Uses(w, key, c) && w.clients[c].Holding? && !w.clients[c].exclusive)
    && (mutex.writer.Some? ==> mutex.readers == {})
  }

  ghost predicate KeyKept(w: World, key: string) {
    key in w.manager.lockMap ==>
      && Mapped(w.manager, key)
      && w.manager.lockMap[key] < w.manager.nextId
      && 0 < w.manager.mutexes[w.manager.lockMap[key]].count == |Users(w, key)|
      && HoldersMatch(w, key, w.manager.mutexes[w.manager.lockMap[key]])
  }

  ghost predicate Kept(w: World) {
    && |w.manager.lockMap| <= w.manager.limit
    && (forall c :: c in w.clients ==>
          w.clients[c].key in w.manager.lockMap && w.manager.lockMap[w.clients[c].key] == w.clients[c].id)
    && (forall key :: KeyKept(w, key))
    && (forall k, l :: k in w.manager.lockMap && l in w.manager.lockMap && k != l ==> w.manager.lockMap[k] != w.manager.lockMap[l])
  }

  lemma SizeOneMore<T>(s: set<T>, s': set<T>, c: T)
    requires c !in s && forall x :: x in s' <==> x in s || x == c
    ensures |s'| == |s| + 1
  {
    assert s' == s + {c};
  }

  lemma SameSet<T>(s: set<T>, s': set<T>)
    requires forall x :: x in s <==> x in s'
    ensures s == s'
  {
  }

  lemma NobodyIsEmpty(s: set<int>)
    ensures |s| == 0 <==> forall x :: x !in s
  {
    HasElement(s);
  }

  // ----- Every step keeps it

  lemma GetKeeps(w: World, c: int, key: string)
    requires Kept(w) && Enabled(w, Get(c, key))
    ensures Kept(Next(w, Get(c, key)))
  {
    var w' := Next(w, Get(c, key));
    forall k ensures KeyKept(w', k) {
      assert KeyKept(w, k) && KeyKept(w, key);
      forall x ensures x in Users(w', k) <==> x in Users(w, k) || (x == c && k == key) {
      }
      if k == key {
        SizeOneMore(Users(w, key), Users(w', key), c);
        if key !in w.manager.lockMap {
          NobodyIsEmpty(Users(w, key));
        }
      } else {
        SameSet(Users(w, k), Users(w', k));
      }
    }
    forall k | k in w.manager.lockMap ensures w.manager.lockMap[k] < w.manager.nextId {
      assert KeyKept(w, k);
    }
  }

  lemma PhaseKeeps(w: World, c: int, p: Phase, mutex: Mutex)
    requires Kept(w) && c in w.clients && p.key == w.clients[c].key && p.id == w.clients[c].id
    requires mutex.count == Of(w, p.id).count
    requires HoldersMatch(World(w.manager, w.clients[c := p]), p.key, mutex)
    ensures Kept(World(WithMutex(w, p.id, mutex), w.clients[c := p]))
  {
    var w' := World(WithMutex(w, p.id, mutex), w.clients[c := p]);
    forall k ensures KeyKept(w', k) {
      assert KeyKept(w, k) && KeyKept(w, p.key);
      forall x ensures Uses(w', k, x) <==> Uses(w, k, x) {
      }
      SameSet(Users(w, k), Users(w', k));
    }
  }

  lemma LockSharedKeeps(w: World, c: int)
    requires Kept(w) && Enabled(w, LockShared(c))
    ensures Kept(Next(w, LockShared(c)))
  {
    var p := w.clients[c];
    assert KeyKept(w, p.key);
    PhaseKeeps(w, c, Holding(p.key, p.id, false), Of(w, p.id).(readers := Of(w, p.id).readers + {c}));
  }

  lemma LockKeeps(w: World, c: int)
    requires Kept(w) && Enabled(w, Lock(c))
    ensures Kept(Next(w, Lock(c)))
  {
    var p := w.clients[c];
    assert KeyKept(w, p.key);
    PhaseKeeps(w, c, Holding(p.key, p.id, true), Of(w, p.id).(writer := Some(c)));
  }

  lemma UnlockKeeps(w: World, c: int)
    requires Kept(w) && Enabled(w, Unlock(c))
    ensures Kept(Next(w, Unlock(c)))
  {
    var p := w.clients[c];
    var mutex := Of(w, p.id);
    assert KeyKept(w, p.key);
    PhaseKeeps(w, c, Unlocked(p.key, p.id), if p.exclusive then mutex.(writer := None) else mutex.(readers := mutex.readers - {c}));
  }

  lemma ReleaseKeeps(w: World, c: int)
    requires Kept(w) && Enabled(w, Release(c))
    ensures Kept(Next(w, Release(c)))
  {
    hide KeyKept;
    var w', key := Next(w, Release(c)), w.clients[c].key;
    forall k ensures KeyKept(w', k) {
      if k == key {
        ReleaseKeepsKey(w, c);
      } else {
        ReleaseKeepsOther(w, c, k);
      }
    }
    StillMapped(w, c);
  }

  lemma OneUserLess(w: World, c: int)
    requires Enabled(w, Release(c))
    ensures |Users(w, w.clients[c].key)| == |Users(Next(w, Release(c)), w.clients[c].key)| + 1
  {
    var w', key := Next(w, Release(c)), w.clients[c].key;
    forall x ensures x in Users(w, key) <==> x in Users(w', key) || x == c {
    }
    SizeOneMore(Users(w', key), Users(w, key), c);
  }

  lemma ReleaseKeepsKey(w: World, c: int)
    requires Kept(w) && Enabled(w, Release(c))
    ensures KeyKept(Next(w, Release(c)), w.clients[c].key)
  {
    assert KeyKept(w, w.clients[c].key);
    OneUserLess(w, c);
  }

  lemma ReleaseKeepsOther(w: World, c: int, k: string)
    requires Kept(w) && Enabled(w, Release(c)) && k != w.clients[c].key
    ensures KeyKept(Next(w, Release(c)), k)
  {
    var w' := Next(w, Release(c));
    assert KeyKept(w, k) && KeyKept(w, w.clients[c].key);
    forall x ensures Uses(w', k, x) <==> Uses(w, k, x) {
    }
    SameSet(Users(w, k), Users(w', k));
  }

  // A key that is erased has no other client.
  lemma StillMapped(w: World, c: int)
    requires Kept(w) && Enabled(w, Release(c))
    ensures var w' := Next(w, Release(c)); forall d :: d in w'.clients ==> w'.clients[d].key in w'.manager.lockMap
  {
    var w', key := Next(w, Release(c)), w.clients[c].key;
    assert KeyKept(w, key);
    OneUserLess(w, c);
    NobodyIsEmpty(Users(w', key));
    forall d | d in w'.clients ensures w'.clients[d].key in w'.manager.lockMap {
      if w'.clients[d].key == key {
        assert d in Users(w', key);
      }
    }
  }

  predicate Runs(w: World, steps: seq<Step>)
    decreases |steps|
  {
    steps != [] ==> Enabled(w, steps[0]) && Runs(Next(w, steps[0]), steps[1..])
  }

  function Run(w: World, steps: seq<Step>): World
    requires Runs(w, steps)
    decreases |steps|
  {
    if steps == [] then w else Run(Next(w, steps[0]), steps[1..])
  }

  lemma StepKeeps(w: World, step: Step)
    requires Kept(w) && Enabled(w, step)
    ensures Kept(Next(w, step))
  {
    match step
    case Get(c, key) => GetKeeps(w, c, key);
    case LockShared(c) => LockSharedKeeps(w, c);
    case Lock(c) => LockKeeps(w, c);
    case Unlock(c) => UnlockKeeps(w, c);
    case Release(c) => ReleaseKeeps(w, c);
  }

  lemma {:induction false} RunKeeps(w: World, steps: seq<Step>)
    requires Kept(w) && Runs(w, steps)
    ensures Kept(Run(w, steps))
    decreases |steps|
  {
    hide Kept, Next, Enabled;
    if steps != [] {
      StepKeeps(w, steps[0]);
      RunKeeps(Next(w, steps[0]), steps[1..]);
    }
  }

  /** In every interleaving the clients of a key share one lock, whose count is their number; the map stays
      within its limit; and a writer of a key excludes every other holder of it. */
  lemma Exclusion(limit: nat, steps: seq<Step>, key: string, c: int, d: int)
    requires Runs(World(Manager(limit, map[], map[], 0), map[]), steps)
    ensures var w := Run(World(Manager(limit, map[], map[], 0), map[]), steps);
            && |w.manager.lockMap| <= limit
            && (Uses(w, key, c) && Uses(w, key, d) ==> w.clients[c].id == w.clients[d].id)
            && (Uses(w, key, c) ==> Of(w, w.clients[c].id).count == |Users(w, key)|)
            && (Uses(w, key, c) && Uses(w, key, d) && c != d && Writes(w, c) ==> !w.clients[d].Holding?)
  {
    var start := World(Manager(limit, map[], map[], 0), map[]);
    var w := Run(start, steps);
    RunKeeps(start, steps);
    RunKeepsLimit(start, steps);
    assert KeyKept(w, key);
  }

  lemma {:induction false} RunKeepsLimit(w: World, steps: seq<Step>)
    requires Runs(w, steps)
    ensures Run(w, steps).manager.limit == w.manager.limit
    decreases |steps|
  {
    if steps != [] {
      RunKeepsLimit(Next(w, steps[0]), steps[1..]);
    }
  }

  /** A client whose lock was unlocked and whose key was erased and taken anew never blocks the new users:
      an erased lock has no users left. */
  lemma ErasedHasNoUsers(w: World, c: int)
    requires Kept(w) && Enabled(w, Release(c))
    ensures var key, w' := w.clients[c].key, Next(w, Release(c));
            key !in w'.manager.lockMap <==> forall d :: d != c ==> !Uses(w, key, d)
  {
    var key, w' := w.clients[c].key, Next(w, Release(c));
    assert KeyKept(w, key);
    forall x ensures x in Users(w, key) <==> x in Users(w', key) || x == c {
    }
    SizeOneMore(Users(w', key), Users(w, key), c);
    NobodyIsEmpty(Users(w', key));
    forall d ensures d in Users(w', key) <==> d != c && Uses(w, key, d) {
    }
  }
}
