/**
 * The canonical schedule: src/agent/memory-store.ts, two linked maps of monthly memories and the
 * entries a search sees. Identifiers drawn at random are numbers never drawn before.
 */
module ScheduleMemory {
  import opened Basics
  import opened ScheduleDates

  type MemoryId = nat
  type EntryId = nat

  /** An expiry that does not parse as a time is None. */
  datatype Entry = Entry(id: EntryId, memoryId: MemoryId, profile: Name, scheduleType: Name, title: nat,
                         createdBy: Option<Name>, input: EntryInput, createdAt: Time, expiresAt: Option<Time>,
                         deletedAt: Option<Time>)

  datatype Memory = Memory(id: MemoryId, key: Key, title: nat, createdBy: Option<Name>, listed: seq<Entry>,
                           createdAt: Time, expiresAt: Option<Time>, deletedAt: Option<Time>)

  type Entries = map<EntryId, Entry>
  type Memories = map<MemoryId, Memory>

  /** drawn is the next identifier randomUUID will give. */
  datatype Store = Store(memories: Memories, entries: Entries, drawn: nat)

  predicate Live(expiresAt: Option<Time>, deletedAt: Option<Time>, at: Time) {
    deletedAt.None? && expiresAt.Some? && expiresAt.value > at
  }

  predicate ActiveMemory(memories: Memories, id: MemoryId, at: Time) {
    id in memories && Live(memories[id].expiresAt, memories[id].deletedAt, at)
  }

  predicate ActiveEntry(entries: Entries, id: EntryId, at: Time) {
    id in entries && Live(entries[id].expiresAt, entries[id].deletedAt, at)
  }

  /** The entries a search can return. */
  function Searchable(s: Store, at: Time): set<Entry> {
    set id | id in s.entries && ActiveEntry(s.entries, id, at) :: s.entries[id]
  }

  function Ids(list: seq<Entry>): set<EntryId> {
    set e | e in list :: e.id
  }

  /** Every entry written under its own id. */
  function Written(entries: Entries, list: seq<Entry>): Entries {
    if list == [] then entries
    else Written(entries, list[..|list| - 1])[list[|list| - 1].id := list[|list| - 1]]
  }

  function Deleted(list: seq<Entry>, at: Time): seq<Entry> {
    seq(|list|, k requires 0 <= k < |list| => list[k].(deletedAt := Some(at)))
  }

  // ---- The operations ----

  /** The memory and every entry it lists are marked deleted. */
  function Forget(s: Store, id: MemoryId, at: Time): Store
    requires id in s.memories
  {
    s.(memories := s.memories[id := s.memories[id].(deletedAt := Some(at))],
       entries := Written(s.entries, Deleted(s.memories[id].listed, at)))
  }

  predicate Holds(s: Store, id: MemoryId, key: Key, at: Time) {
    ActiveMemory(s.memories, id, at) && s.memories[id].key == key
  }

  /** The active memory of a key is deleted, if there is one. */
  ghost function Cleared(s: Store, key: Key, at: Time): Store {
    if exists id: MemoryId :: Holds(s, id, key, at) then
      var id: MemoryId :| Holds(s, id, key, at);
      Forget(s, id, at)
    else s
  }

  function ExpiresAt(input: BatchInput, at: Time, ttlMs: nat): Option<Time> {
    match input.expiresAt
    case Absent => Some(at + ttlMs)
    case Until(t) => Some(t)
    case _ => None
  }

  /** The entries of a new memory, drawn after the memory's own id. */
  function NewEntries(drawn: nat, key: Key, input: BatchInput, at: Time, ttlMs: nat): seq<Entry> {
    seq(|input.entries|, k requires 0 <= k < |input.entries| =>
      Entry(drawn + 1 + k, drawn, key.profile, key.scheduleType, input.title, input.createdBy, input.entries[k], at,
            ExpiresAt(input, at, ttlMs), None))
  }

  /** Each entry of the input once, in its place, under the memory's headings and with the memory's expiry. */
  lemma NewEntriesCarryTheInput(drawn: nat, key: Key, input: BatchInput, at: Time, ttlMs: nat, k: nat)
    requires k < |input.entries|
    ensures |NewEntries(drawn, key, input, at, ttlMs)| == |input.entries|
    ensures var e := NewEntries(drawn, key, input, at, ttlMs)[k];
            && e.input == input.entries[k] && e.memoryId == drawn && e.id > drawn
            && (e.profile, e.scheduleType) == (key.profile, key.scheduleType)
            && (e.title, e.createdBy, e.createdAt, e.deletedAt) == (input.title, input.createdBy, at, None)
            && (input.expiresAt.Absent? ==> e.expiresAt == Some(at + ttlMs))
            && (forall t: Time :: input.expiresAt == Until(t) ==> e.expiresAt == Some(t))
            && (input.expiresAt.EmptyText? ==> e.expiresAt == None)
  {
    assert NewEntries(drawn, key, input, at, ttlMs)[k].expiresAt == ExpiresAt(input, at, ttlMs);
  }

  function Added(s: Store, key: Key, input: BatchInput, at: Time, ttlMs: nat): Store {
    var list := NewEntries(s.drawn, key, input, at, ttlMs);
    Store(s.memories[s.drawn := Memory(s.drawn, key, input.title, input.createdBy, list, at,
                                       ExpiresAt(input, at, ttlMs), None)],
          Written(s.entries, list), s.drawn + 1 + |list|)
  }

  ghost function Replace(s: Store, input: BatchInput, at: Time, ttlMs: nat): Store
    requires HasPeriod(input)
  {
    Added(Cleared(s, KeyOf(input), at), KeyOf(input), input, at, ttlMs)
  }

  ghost function ReplaceAll(s: Store, inputs: seq<BatchInput>, at: Time, ttlMs: nat): Store
    requires forall i :: 0 <= i < |inputs| ==> HasPeriod(inputs[i])
    decreases |inputs|
  {
    if inputs == [] then s
    else Replace(ReplaceAll(s, inputs[..|inputs| - 1], at, ttlMs), inputs[|inputs| - 1], at, ttlMs)
  }

  function Relisted(m: Memory, e: Entry): Memory {
    m.(listed := seq(|m.listed|, k requires 0 <= k < |m.listed| => if m.listed[k].id == e.id then e else m.listed[k]))
  }

  // ---- The invariant ----

  predicate Lists(memories: Memories, id: MemoryId, e: EntryId) {
    id in memories && e in Ids(memories[id].listed)
  }

  predicate DistinctIds(list: seq<Entry>) {
    forall i, j :: 0 <= i < j < |list| ==> list[i].id != list[j].id
  }

  /** A memory under its own id, and entries that repeat what it says of them. */
  predicate Consistent(m: Memory, id: MemoryId, drawn: nat) {
    && m.id == id < drawn
    && DistinctIds(m.listed)
    && forall k :: 0 <= k < |m.listed| ==>
         m.listed[k].memoryId == id && m.listed[k].profile == m.key.profile &&
         m.listed[k].scheduleType == m.key.scheduleType && m.listed[k].expiresAt == m.expiresAt &&
         m.listed[k].id < drawn
  }

  /** An entry that is not deleted stands as it is in a memory that is not deleted. */
  predicate Backed(memories: Memories, e: Entry) {
    e.deletedAt.None? ==>
      && e.memoryId in memories && memories[e.memoryId].deletedAt.None?
      && e in memories[e.memoryId].listed
  }

  ghost predicate OneOwner(memories: Memories) {
    forall a: MemoryId, b: MemoryId, e: EntryId :: Lists(memories, a, e) && Lists(memories, b, e) ==> a == b
  }

  ghost predicate OneActive(s: Store, at: Time) {
    forall a: MemoryId, b: MemoryId, key: Key :: Holds(s, a, key, at) && Holds(s, b, key, at) ==> a == b
  }

  /** at is the time of the last operation; the clock does not go back. */
  ghost predicate Inv(s: Store, at: Time) {
    && (forall id :: id in s.memories ==> Consistent(s.memories[id], id, s.drawn))
    && (forall id :: id in s.entries ==> s.entries[id].id == id < s.drawn && Backed(s.memories, s.entries[id]))
    && OneOwner(s.memories)
    && OneActive(s, at)
  }

  lemma InvLater(s: Store, at: Time, later: Time)
    requires Inv(s, at) && at <= later
    ensures Inv(s, later)
  {
    forall a: MemoryId, b: MemoryId, key: Key | Holds(s, a, key, later) && Holds(s, b, key, later)
      ensures a == b
    {
      assert Holds(s, a, key, at) && Holds(s, b, key, at);
    }
  }

  // ---- Writing a list ----

  lemma {:induction false} WrittenKeys(entries: Entries, list: seq<Entry>)
    ensures Written(entries, list).Keys == entries.Keys + Ids(list)
    ensures forall id :: id in entries && id !in Ids(list) ==> Written(entries, list)[id] == entries[id]
    decreases |list|
  {
    if list != [] {
      var front, last := list[..|list| - 1], list[|list| - 1];
      WrittenKeys(entries, front);
      assert list == front + [last];
      assert Ids(list) == Ids(front) + {last.id};
    }
  }

  lemma {:induction false} WrittenEach(entries: Entries, list: seq<Entry>, k: nat)
    requires k < |list| && DistinctIds(list)
    ensures list[k].id in Written(entries, list) && Written(entries, list)[list[k].id] == list[k]
    decreases |list|
  {
    if k < |list| - 1 {
      assert list[..|list| - 1][k] == list[k] && list[k].id != list[|list| - 1].id;
      WrittenEach(entries, list[..|list| - 1], k);
    }
  }

  lemma WrittenAt(entries: Entries, list: seq<Entry>)
    ensures Written(entries, list).Keys == entries.Keys + Ids(list)
    ensures forall id :: id in entries && id !in Ids(list) ==> Written(entries, list)[id] == entries[id]
    ensures DistinctIds(list) ==> forall k :: 0 <= k < |list| ==>
              list[k].id in Written(entries, list) && Written(entries, list)[list[k].id] == list[k]
  {
    WrittenKeys(entries, list);
    if DistinctIds(list) {
      forall k | 0 <= k < |list|
        ensures list[k].id in Written(entries, list) && Written(entries, list)[list[k].id] == list[k]
      {
        WrittenEach(entries, list, k);
      }
    }
  }

  lemma DeletedIds(list: seq<Entry>, at: Time)
    ensures Ids(Deleted(list, at)) == Ids(list)
    ensures DistinctIds(list) ==> DistinctIds(Deleted(list, at))
  {
    forall id
      ensures id in Ids(Deleted(list, at)) <==> id in Ids(list)
    {
      if id in Ids(list) {
        var k :| 0 <= k < |list| && list[k].id == id;
        assert Deleted(list, at)[k] in Deleted(list, at);
      }
    }
  }

  // ---- Forgetting ----

  /** What forgetting a memory does to one entry: it is marked, or left alone. */
  lemma ForgetAt(s: Store, id: MemoryId, at: Time, e: EntryId)
    requires id in s.memories && DistinctIds(s.memories[id].listed)
    ensures var next := Forget(s, id, at);
            && (e in Ids(s.memories[id].listed) ==>
                  e in next.entries && next.entries[e].id == e && next.entries[e].deletedAt == Some(at))
            && (e !in Ids(s.memories[id].listed) ==>
                  (e in next.entries <==> e in s.entries) && (e in s.entries ==> next.entries[e] == s.entries[e]))
  {
    var list := s.memories[id].listed;
    DeletedIds(list, at);
    WrittenAt(s.entries, Deleted(list, at));
    if e in Ids(list) {
      var k :| 0 <= k < |list| && list[k].id == e;
      assert Deleted(list, at)[k].id == e;
    }
  }

  /** A live entry of the memory is one it lists. */
  lemma OwnedIsListed(s: Store, at: Time, e: EntryId)
    requires Inv(s, at) && e in s.entries && s.entries[e].deletedAt.None?
    ensures Lists(s.memories, s.entries[e].memoryId, e)
    ensures forall id :: Lists(s.memories, id, e) ==> id == s.entries[e].memoryId
  {
    assert Backed(s.memories, s.entries[e]);
    assert Lists(s.memories, s.entries[e].memoryId, e);
  }

  lemma ForgetKeepsInv(s: Store, id: MemoryId, at: Time)
    requires Inv(s, at) && id in s.memories
    ensures Inv(Forget(s, id, at), at)
  {
    var next := Forget(s, id, at);
    forall e | e in next.entries
      ensures next.entries[e].id == e < next.drawn && Backed(next.memories, next.entries[e])
    {
      ForgetAt(s, id, at, e);
      if e in Ids(s.memories[id].listed) {
        assert Consistent(s.memories[id], id, s.drawn);
      } else {
        assert Backed(s.memories, s.entries[e]);
      }
    }
    forall a: MemoryId, e: EntryId
      ensures Lists(next.memories, a, e) <==> Lists(s.memories, a, e)
    {
    }
    forall a: MemoryId, key: Key | Holds(next, a, key, at)
      ensures Holds(s, a, key, at)
    {
    }
  }

  /** Forgetting a memory removes exactly its own entries from every search from then on. */
  lemma ForgetShows(s: Store, id: MemoryId, at: Time, later: Time, e: Entry)
    requires Inv(s, at) && id in s.memories && at <= later
    ensures e in Searchable(Forget(s, id, at), later) <==> e in Searchable(s, later) && e.memoryId != id
  {
    ForgetAt(s, id, at, e.id);
    var next := Forget(s, id, at);
    assert e in Searchable(s, later) <==> ActiveEntry(s.entries, e.id, later) && s.entries[e.id] == e;
    assert e in Searchable(next, later) <==> ActiveEntry(next.entries, e.id, later) && next.entries[e.id] == e by {
      ForgetKeepsInv(s, id, at);
    }
    if e in Searchable(s, later) {
      OwnedIsListed(s, at, e.id);
      assert Lists(s.memories, id, e.id) <==> e.memoryId == id;
    }
  }

  // ---- Replacing ----

  lemma NewEntriesAreNew(s: Store, key: Key, input: BatchInput, at: Time, ttlMs: nat)
    requires forall id :: id in s.entries ==> id < s.drawn
    ensures var list := NewEntries(s.drawn, key, input, at, ttlMs);
            DistinctIds(list) && forall e :: e in Ids(list) ==> s.drawn < e <= s.drawn + |list| && e !in s.entries
  {
  }

  /** What an added memory does to one entry. */
  lemma AddedAt(s: Store, key: Key, input: BatchInput, at: Time, ttlMs: nat, e: EntryId)
    requires forall id :: id in s.entries ==> id < s.drawn
    ensures var list := NewEntries(s.drawn, key, input, at, ttlMs);
            var next := Added(s, key, input, at, ttlMs);
            && (e !in Ids(list) ==> (e in next.entries <==> e in s.entries))
            && (e in s.entries ==> e in next.entries && next.entries[e] == s.entries[e])
            && (e in Ids(list) ==> e in next.entries && next.entries[e] in list && next.entries[e].id == e)
  {
    var list := NewEntries(s.drawn, key, input, at, ttlMs);
    NewEntriesAreNew(s, key, input, at, ttlMs);
    WrittenAt(s.entries, list);
    if e in Ids(list) {
      var k :| 0 <= k < |list| && list[k].id == e;
    }
  }

  /** Nothing is active under the key. */
  ghost predicate Free(s: Store, key: Key, at: Time) {
    forall id: MemoryId :: !Holds(s, id, key, at)
  }

  lemma AddedKeepsInv(s: Store, key: Key, input: BatchInput, at: Time, ttlMs: nat)
    requires Inv(s, at) && Free(s, key, at)
    ensures Inv(Added(s, key, input, at, ttlMs), at)
  {
    var next := Added(s, key, input, at, ttlMs);
    var list := NewEntries(s.drawn, key, input, at, ttlMs);
    NewEntriesAreNew(s, key, input, at, ttlMs);
    forall e | e in next.entries
      ensures next.entries[e].id == e < next.drawn && Backed(next.memories, next.entries[e])
    {
      AddedAt(s, key, input, at, ttlMs, e);
      if e in s.entries {
        assert Backed(s.memories, s.entries[e]);
      }
    }
    forall id | id in next.memories
      ensures Consistent(next.memories[id], id, next.drawn)
    {
      assert id in s.memories ==> Consistent(s.memories[id], id, s.drawn);
    }
    forall a: MemoryId, e: EntryId | Lists(next.memories, a, e)
      ensures if a == s.drawn then e > s.drawn else Lists(s.memories, a, e) && e < s.drawn
    {
      if a != s.drawn {
        assert Consistent(s.memories[a], a, s.drawn);
      }
    }
    forall a: MemoryId, k: Key | Holds(next, a, k, at)
      ensures if a == s.drawn then k == key else Holds(s, a, k, at)
    {
    }
  }

  lemma ClearedKeepsInv(s: Store, key: Key, at: Time)
    requires Inv(s, at)
    ensures var next := Cleared(s, key, at);
            Inv(next, at) && Free(next, key, at) && next.drawn == s.drawn
    ensures forall id :: id in s.memories ==> id in Cleared(s, key, at).memories &&
                                              Cleared(s, key, at).memories[id].key == s.memories[id].key
  {
    if id: MemoryId :| Holds(s, id, key, at) {
      ForgetKeepsInv(s, id, at);
      forall other: MemoryId | Holds(Forget(s, id, at), other, key, at)
        ensures other != id && Holds(s, other, key, at)
      {
      }
    }
  }

  /** Every searchable entry is listed, as it is, by the one active memory of its key. */
  lemma SearchableIsCanonical(s: Store, at: Time, later: Time, e: Entry)
    requires Inv(s, at) && at <= later && e in Searchable(s, later)
    ensures ActiveMemory(s.memories, e.memoryId, later) && e in s.memories[e.memoryId].listed
    ensures var key := s.memories[e.memoryId].key;
            && key.profile == e.profile && key.scheduleType == e.scheduleType
            && forall id: MemoryId :: Holds(s, id, key, at) <==> id == e.memoryId
  {
    assert Backed(s.memories, e);
    var m := s.memories[e.memoryId];
    var k :| 0 <= k < |m.listed| && m.listed[k] == e;
    assert Consistent(m, e.memoryId, s.drawn);
    assert Holds(s, e.memoryId, m.key, at);
  }

  lemma ClearedShows(s: Store, key: Key, at: Time, later: Time, e: Entry)
    requires Inv(s, at) && at <= later
    ensures e in Searchable(s, later) ==> e.memoryId in s.memories
    ensures e in Searchable(Cleared(s, key, at), later) <==>
            e in Searchable(s, later) && s.memories[e.memoryId].key != key
  {
    if e in Searchable(s, later) {
      SearchableIsCanonical(s, at, later, e);
      assert Holds(s, e.memoryId, s.memories[e.memoryId].key, at);
    }
    if id: MemoryId :| Holds(s, id, key, at) {
      ForgetShows(s, id, at, later, e);
      assert Cleared(s, key, at) == Forget(s, id, at);
    }
  }

  predicate Shows(e: Entry, later: Time) {
    Live(e.expiresAt, e.deletedAt, later)
  }

  lemma AddedShows(s: Store, key: Key, input: BatchInput, at: Time, ttlMs: nat, later: Time, e: Entry)
    requires Inv(s, at)
    ensures e in Searchable(Added(s, key, input, at, ttlMs), later) <==>
            e in Searchable(s, later) || (e in NewEntries(s.drawn, key, input, at, ttlMs) && Shows(e, later))
  {
    var list := NewEntries(s.drawn, key, input, at, ttlMs);
    var next := Added(s, key, input, at, ttlMs);
    NewEntriesAreNew(s, key, input, at, ttlMs);
    AddedAt(s, key, input, at, ttlMs, e.id);
    if e in list {
      assert e.id in Ids(list);
      var k :| 0 <= k < |list| && list[k] == e;
      var j :| 0 <= j < |list| && list[j] == next.entries[e.id];
      assert j == k;
    }
    assert e in Searchable(s, later) <==> ActiveEntry(s.entries, e.id, later) && s.entries[e.id] == e;
    assert e in Searchable(next, later) ==> ActiveEntry(next.entries, e.id, later) && next.entries[e.id] == e by {
      if e in Searchable(next, later) {
        var id :| id in next.entries && next.entries[id] == e;
        AddedAt(s, key, input, at, ttlMs, id);
      }
    }
  }

  /** A replacement keeps what is active one to a key, and shows its own entries in place of its key's. */
  lemma ReplaceShows(s: Store, input: BatchInput, at: Time, ttlMs: nat, later: Time, e: Entry)
    requires Inv(s, at) && at <= later && HasPeriod(input)
    ensures Inv(Replace(s, input, at, ttlMs), at)
    ensures e in Searchable(s, later) ==> e.memoryId in s.memories
    ensures e in Searchable(Replace(s, input, at, ttlMs), later) <==>
            (e in Searchable(s, later) && s.memories[e.memoryId].key != KeyOf(input)) ||
            (e in NewEntries(s.drawn, KeyOf(input), input, at, ttlMs) && Shows(e, later))
  {
    ClearedKeepsInv(s, KeyOf(input), at);
    ClearedShows(s, KeyOf(input), at, later, e);
    AddedKeepsInv(Cleared(s, KeyOf(input), at), KeyOf(input), input, at, ttlMs);
    AddedShows(Cleared(s, KeyOf(input), at), KeyOf(input), input, at, ttlMs, later, e);
  }

  // ---- A whole batch ----

  /** The next identifier when the inputs before i have been stored. */
  function DrawnBefore(drawn: nat, inputs: seq<BatchInput>, i: nat): nat
    requires i <= |inputs|
  {
    if i == 0 then drawn else DrawnBefore(drawn, inputs, i - 1) + 1 + |inputs[i - 1].entries|
  }

  /** The entry is one that input i of the batch brought. */
  predicate Brought(s: Store, inputs: seq<BatchInput>, i: nat, at: Time, ttlMs: nat, e: Entry) {
    && i < |inputs| && HasPeriod(inputs[i])
    && e in NewEntries(DrawnBefore(s.drawn, inputs, i), KeyOf(inputs[i]), inputs[i], at, ttlMs)
  }

  ghost predicate IsBrought(s: Store, inputs: seq<BatchInput>, at: Time, ttlMs: nat, e: Entry) {
    exists i: nat :: Brought(s, inputs, i, at, ttlMs, e)
  }

  predicate HasKey(inputs: seq<BatchInput>, key: Key) {
    exists i :: 0 <= i < |inputs| && HasPeriod(inputs[i]) && KeyOf(inputs[i]) == key
  }

  lemma BroughtByLast(s: Store, inputs: seq<BatchInput>, at: Time, ttlMs: nat, e: Entry)
    requires inputs != [] && HasPeriod(inputs[|inputs| - 1])
    ensures var front, last := inputs[..|inputs| - 1], inputs[|inputs| - 1];
            IsBrought(s, inputs, at, ttlMs, e) <==>
            IsBrought(s, front, at, ttlMs, e) ||
            e in NewEntries(DrawnBefore(s.drawn, front, |front|), KeyOf(last), last, at, ttlMs)
  {
    var front := inputs[..|inputs| - 1];
    forall i: nat | i <= |front|
      ensures DrawnBefore(s.drawn, inputs, i) == DrawnBefore(s.drawn, front, i)
    {
      SameDrawn(s.drawn, inputs, front, i);
    }
    assert Brought(s, inputs, |front|, at, ttlMs, e) <==>
           e in NewEntries(DrawnBefore(s.drawn, front, |front|), KeyOf(inputs[|front|]), inputs[|front|], at, ttlMs);
    forall i: nat | i < |front|
      ensures Brought(s, inputs, i, at, ttlMs, e) <==> Brought(s, front, i, at, ttlMs, e)
    {
      assert front[i] == inputs[i];
    }
  }

  lemma {:induction false} SameDrawn(drawn: nat, inputs: seq<BatchInput>, front: seq<BatchInput>, i: nat)
    requires front <= inputs && i <= |front|
    ensures DrawnBefore(drawn, inputs, i) == DrawnBefore(drawn, front, i)
    decreases i
  {
    if i > 0 {
      SameDrawn(drawn, inputs, front, i - 1);
    }
  }

  ghost predicate AllHavePeriods(inputs: seq<BatchInput>) {
    forall i :: 0 <= i < |inputs| ==> HasPeriod(inputs[i])
  }

  ghost predicate DistinctKeys(inputs: seq<BatchInput>) {
    AllHavePeriods(inputs) && forall i, j :: 0 <= i < j < |inputs| ==> KeyOf(inputs[i]) != KeyOf(inputs[j])
  }

  /** What was searchable and is of no month of the batch. */
  ghost predicate Untouched(s: Store, inputs: seq<BatchInput>, later: Time, e: Entry) {
    e in Searchable(s, later) && e.memoryId in s.memories && !HasKey(inputs, s.memories[e.memoryId].key)
  }

  predicate HasMemory(memories: Memories, id: MemoryId, key: Key) {
    id in memories && memories[id].key == key
  }

  /** The memory that input i brought has the input's key. */
  predicate KeyAt(drawn: nat, inputs: seq<BatchInput>, i: nat, memories: Memories) {
    i < |inputs| && HasPeriod(inputs[i]) ==> HasMemory(memories, DrawnBefore(drawn, inputs, i), KeyOf(inputs[i]))
  }

  ghost predicate KeepsKeys(memories: Memories, next: Memories) {
    forall id :: id in memories ==> HasMemory(next, id, memories[id].key)
  }

  /** Existing memories keep their key, and new ones have the key of the input that brought them. */
  ghost predicate KeysKept(s: Store, inputs: seq<BatchInput>, next: Store) {
    KeepsKeys(s.memories, next.memories) && forall i: nat :: KeyAt(s.drawn, inputs, i, next.memories)
  }

  lemma ReplaceKeeps(s: Store, input: BatchInput, at: Time, ttlMs: nat)
    requires Inv(s, at) && HasPeriod(input)
    ensures var next := Replace(s, input, at, ttlMs);
            && Inv(next, at) && next.drawn == s.drawn + 1 + |input.entries|
            && KeepsKeys(s.memories, next.memories) && HasMemory(next.memories, s.drawn, KeyOf(input))
  {
    ClearedKeepsInv(s, KeyOf(input), at);
    AddedKeepsInv(Cleared(s, KeyOf(input), at), KeyOf(input), input, at, ttlMs);
    assert forall id :: id in s.memories ==> Consistent(s.memories[id], id, s.drawn);
  }

  lemma {:induction false} ReplaceAllKeeps(s: Store, inputs: seq<BatchInput>, at: Time, ttlMs: nat)
    requires Inv(s, at) && AllHavePeriods(inputs)
    ensures var next := ReplaceAll(s, inputs, at, ttlMs);
            Inv(next, at) && next.drawn == DrawnBefore(s.drawn, inputs, |inputs|) && KeysKept(s, inputs, next)
    decreases |inputs|
  {
    if inputs != [] {
      var front, last := inputs[..|inputs| - 1], inputs[|inputs| - 1];
      ReplaceAllKeeps(s, front, at, ttlMs);
      ReplaceKeeps(ReplaceAll(s, front, at, ttlMs), last, at, ttlMs);
      SameDrawn(s.drawn, inputs, front, |front|);
      KeysKeptByLast(s, inputs, ReplaceAll(s, front, at, ttlMs), ReplaceAll(s, inputs, at, ttlMs));
    }
  }

  lemma KeyAtFront(drawn: nat, inputs: seq<BatchInput>, i: nat, memories: Memories)
    requires i < |inputs| - 1 && HasPeriod(inputs[i]) && KeyAt(drawn, inputs[..|inputs| - 1], i, memories)
    ensures HasMemory(memories, DrawnBefore(drawn, inputs, i), KeyOf(inputs[i]))
  {
    SameDrawn(drawn, inputs, inputs[..|inputs| - 1], i);
    assert inputs[..|inputs| - 1][i] == inputs[i];
  }

  lemma StillHas(memories: Memories, next: Memories, id: MemoryId, key: Key)
    requires KeepsKeys(memories, next) && HasMemory(memories, id, key)
    ensures HasMemory(next, id, key)
  {
    assert HasMemory(next, id, memories[id].key);
  }

  lemma KeysKeptByLast(s: Store, inputs: seq<BatchInput>, mid: Store, next: Store)
    requires AllHavePeriods(inputs) && inputs != [] && KeysKept(s, inputs[..|inputs| - 1], mid)
    requires KeepsKeys(mid.memories, next.memories) && mid.drawn == DrawnBefore(s.drawn, inputs, |inputs| - 1)
    requires HasMemory(next.memories, mid.drawn, KeyOf(inputs[|inputs| - 1]))
    ensures KeysKept(s, inputs, next)
  {
    forall id | id in s.memories
      ensures HasMemory(next.memories, id, s.memories[id].key)
    {
      StillHas(mid.memories, next.memories, id, s.memories[id].key);
    }
    forall i: nat
      ensures KeyAt(s.drawn, inputs, i, next.memories)
    {
      if i < |inputs| - 1 {
        KeyAtFront(s.drawn, inputs, i, mid.memories);
        StillHas(mid.memories, next.memories, DrawnBefore(s.drawn, inputs, i), KeyOf(inputs[i]));
      }
    }
  }

  /**
   * A batch replaces exactly its own keys: from then on a search sees what it saw of every other
   * key, and of the batch's keys exactly the entries the batch brought.
   */
  lemma {:induction false} BatchReplacesItsKeys(s: Store, inputs: seq<BatchInput>, at: Time, ttlMs: nat, later: Time,
                                                e: Entry)
    requires Inv(s, at) && at <= later && DistinctKeys(inputs)
    ensures e in Searchable(ReplaceAll(s, inputs, at, ttlMs), later) <==>
            Untouched(s, inputs, later, e) || (IsBrought(s, inputs, at, ttlMs, e) && Shows(e, later))
    decreases |inputs|
  {
    if inputs == [] {
      if e in Searchable(s, later) {
        SearchableIsCanonical(s, at, later, e);
      }
      assert !IsBrought(s, inputs, at, ttlMs, e);
    } else {
      var front, last := inputs[..|inputs| - 1], inputs[|inputs| - 1];
      var mid := ReplaceAll(s, front, at, ttlMs);
      assert forall i, j :: 0 <= i < j < |front| ==> front[i] == inputs[i] && front[j] == inputs[j];
      BatchReplacesItsKeys(s, front, at, ttlMs, later, e);
      ReplaceAllKeeps(s, front, at, ttlMs);
      ReplaceShows(mid, last, at, ttlMs, later, e);
      BroughtByLast(s, inputs, at, ttlMs, e);
      LastKey(s, inputs, at, ttlMs, later, e);
    }
  }

  lemma LastKey(s: Store, inputs: seq<BatchInput>, at: Time, ttlMs: nat, later: Time, e: Entry)
    requires inputs != [] && DistinctKeys(inputs)
    requires var front := inputs[..|inputs| - 1];
             KeysKept(s, front, ReplaceAll(s, front, at, ttlMs))
    ensures var front, last := inputs[..|inputs| - 1], inputs[|inputs| - 1];
            var mid := ReplaceAll(s, front, at, ttlMs);
            && (IsBrought(s, front, at, ttlMs, e) ==>
                  e.memoryId in mid.memories && mid.memories[e.memoryId].key != KeyOf(last))
            && (Untouched(s, front, later, e) ==>
                  e.memoryId in mid.memories &&
                  (mid.memories[e.memoryId].key != KeyOf(last) <==> Untouched(s, inputs, later, e)))
            && (Untouched(s, inputs, later, e) ==> Untouched(s, front, later, e))
  {
    var front, last := inputs[..|inputs| - 1], inputs[|inputs| - 1];
    if IsBrought(s, front, at, ttlMs, e) {
      var i: nat :| Brought(s, front, i, at, ttlMs, e);
      assert front[i] == inputs[i];
      assert KeyAt(s.drawn, front, i, ReplaceAll(s, front, at, ttlMs).memories);
    }
    HasKeyOfLast(inputs);
  }

  lemma HasKeyOfLast(inputs: seq<BatchInput>)
    requires inputs != [] && AllHavePeriods(inputs)
    ensures var front, last := inputs[..|inputs| - 1], inputs[|inputs| - 1];
            forall key :: HasKey(inputs, key) <==> HasKey(front, key) || key == KeyOf(last)
  {
    var front, last := inputs[..|inputs| - 1], inputs[|inputs| - 1];
    forall key
      ensures HasKey(inputs, key) <==> HasKey(front, key) || key == KeyOf(last)
    {
      if HasKey(front, key) {
        var i :| 0 <= i < |front| && HasPeriod(front[i]) && KeyOf(front[i]) == key;
        assert inputs[i] == front[i];
      }
      if HasKey(inputs, key) {
        var i :| 0 <= i < |inputs| && HasPeriod(inputs[i]) && KeyOf(inputs[i]) == key;
        assert i < |front| ==> front[i] == inputs[i];
      }
      assert HasPeriod(inputs[|inputs| - 1]);
    }
  }
}
