/**
 * The schedule operations of the in-memory store, src/agent/memory-store.ts, and what each does to
 * what a search sees.
 */
module ScheduleStore {
  import opened Basics
  import opened ScheduleDates
  import opened ScheduleMemory

  /** The fields of an entry that an update gives. */
  datatype Changes = Changes(serviceDate: Option<string>, meetingName: Option<string>, assignee: Option<string>,
                             notes: Option<nat>)

  function Changed(e: EntryInput, c: Changes): EntryInput {
    EntryInput(Or(c.serviceDate, e.serviceDate), Or(c.meetingName, e.meetingName), Or(c.assignee, e.assignee),
               Or(c.notes, e.notes))
  }

  function AppendedEntry(s: Store, id: MemoryId, input: EntryInput, at: Time): Entry
    requires id in s.memories
  {
    var m := s.memories[id];
    Entry(s.drawn, id, m.key.profile, m.key.scheduleType, m.title, m.createdBy, input, at, m.expiresAt, None)
  }

  function AppendEntry(s: Store, id: MemoryId, input: EntryInput, at: Time): Store
    requires id in s.memories
  {
    var entry := AppendedEntry(s, id, input, at);
    Store(s.memories[id := s.memories[id].(listed := s.memories[id].listed + [entry])], s.entries[s.drawn := entry],
          s.drawn + 1)
  }

  function ChangeEntry(s: Store, e: EntryId, changes: Changes): Store
    requires e in s.entries
  {
    var updated := s.entries[e].(input := Changed(s.entries[e].input, changes));
    var id := updated.memoryId;
    s.(entries := s.entries[e := updated],
       memories := if id in s.memories then s.memories[id := Relisted(s.memories[id], updated)] else s.memories)
  }

  function DropEntry(s: Store, e: EntryId, at: Time): Store
    requires e in s.entries
  {
    s.(entries := s.entries[e := s.entries[e].(deletedAt := Some(at))])
  }

  predicate Expired(expiresAt: Option<Time>, deletedAt: Option<Time>, at: Time) {
    deletedAt.Some? || (expiresAt.Some? && expiresAt.value <= at)
  }

  predicate GoneMemory(memories: Memories, id: MemoryId, at: Time) {
    id in memories && Expired(memories[id].expiresAt, memories[id].deletedAt, at)
  }

  function Purged(s: Store, at: Time): Store {
    s.(memories := map id | id in s.memories && !GoneMemory(s.memories, id, at) :: s.memories[id],
       entries := map e | e in s.entries && !Expired(s.entries[e].expiresAt, s.entries[e].deletedAt, at) &&
                          !GoneMemory(s.memories, s.entries[e].memoryId, at) :: s.entries[e])
  }

  // ---- Each operation keeps the invariant and changes searches as it should ----

  lemma SearchableAt(s: Store, at: Time, later: Time, e: Entry)
    requires Inv(s, at)
    ensures e in Searchable(s, later) <==> ActiveEntry(s.entries, e.id, later) && s.entries[e.id] == e
  {
  }

  lemma AppendKeepsInv(s: Store, id: MemoryId, input: EntryInput, at: Time)
    requires Inv(s, at) && ActiveMemory(s.memories, id, at)
    ensures Inv(AppendEntry(s, id, input, at), at)
  {
    var next := AppendEntry(s, id, input, at);
    var entry := AppendedEntry(s, id, input, at);
    var listed := s.memories[id].listed;
    assert Ids(listed + [entry]) == Ids(listed) + {entry.id};
    forall m | m in next.memories
      ensures Consistent(next.memories[m], m, next.drawn)
    {
      assert Consistent(s.memories[m], m, s.drawn);
    }
    forall e | e in next.entries
      ensures next.entries[e].id == e < next.drawn && Backed(next.memories, next.entries[e])
    {
      if e in s.entries && e != s.drawn {
        assert Backed(s.memories, s.entries[e]);
      }
    }
    forall a: MemoryId, e: EntryId | Lists(next.memories, a, e)
      ensures if e == s.drawn then a == id else Lists(s.memories, a, e)
    {
      assert Consistent(s.memories[a], a, s.drawn);
    }
    forall a: MemoryId, key: Key | Holds(next, a, key, at)
      ensures Holds(s, a, key, at)
    {
    }
  }

  /** A new entry joins what a search sees; nothing else changes. */
  lemma AppendShows(s: Store, id: MemoryId, input: EntryInput, at: Time, later: Time, e: Entry)
    requires Inv(s, at) && ActiveMemory(s.memories, id, at)
    ensures e in Searchable(AppendEntry(s, id, input, at), later) <==>
            e in Searchable(s, later) || (e == AppendedEntry(s, id, input, at) && Shows(e, later))
  {
    AppendKeepsInv(s, id, input, at);
    SearchableAt(s, at, later, e);
    SearchableAt(AppendEntry(s, id, input, at), at, later, e);
  }

  lemma RelistedIds(m: Memory, e: Entry)
    ensures Ids(Relisted(m, e).listed) == Ids(m.listed)
    ensures DistinctIds(m.listed) ==> DistinctIds(Relisted(m, e).listed)
  {
    var list := Relisted(m, e).listed;
    forall id
      ensures id in Ids(list) <==> id in Ids(m.listed)
    {
      if id in Ids(m.listed) {
        var k :| 0 <= k < |m.listed| && m.listed[k].id == id;
        assert list[k] in list;
      }
    }
  }

  /** The entry that changes, as it stands and as it will be. */
  lemma ChangeKeepsInv(s: Store, e: EntryId, changes: Changes, at: Time)
    requires Inv(s, at) && ActiveEntry(s.entries, e, at)
    ensures Inv(ChangeEntry(s, e, changes), at)
  {
    var next := ChangeEntry(s, e, changes);
    var updated := next.entries[e];
    var id := updated.memoryId;
    assert Backed(s.memories, s.entries[e]);
    var m := s.memories[id];
    RelistedIds(m, updated);
    var k :| 0 <= k < |m.listed| && m.listed[k] == s.entries[e];
    assert Relisted(m, updated).listed[k] == updated;
    assert Consistent(m, id, s.drawn);
    assert Consistent(Relisted(m, updated), id, s.drawn);
    forall f | f in next.entries
      ensures next.entries[f].id == f < next.drawn && Backed(next.memories, next.entries[f])
    {
      assert Backed(s.memories, s.entries[f]);
      if f != e && s.entries[f].deletedAt.None? && s.entries[f].memoryId == id {
        var j :| 0 <= j < |m.listed| && m.listed[j] == s.entries[f];
        assert Relisted(m, updated).listed[j] == s.entries[f];
      }
    }
    forall a: MemoryId, f: EntryId
      ensures Lists(next.memories, a, f) <==> Lists(s.memories, a, f)
    {
    }
    forall a: MemoryId, key: Key | Holds(next, a, key, at)
      ensures Holds(s, a, key, at)
    {
    }
  }

  /** A search sees the changed entry in place of the one it was, even when its date leaves the month. */
  lemma ChangeShows(s: Store, e: EntryId, changes: Changes, at: Time, later: Time, f: Entry)
    requires Inv(s, at) && ActiveEntry(s.entries, e, at)
    ensures var updated := s.entries[e].(input := Changed(s.entries[e].input, changes));
            f in Searchable(ChangeEntry(s, e, changes), later) <==>
            if f.id == e then f == updated && Shows(f, later) else f in Searchable(s, later)
  {
    ChangeKeepsInv(s, e, changes, at);
    SearchableAt(s, at, later, f);
    SearchableAt(ChangeEntry(s, e, changes), at, later, f);
  }

  lemma DropKeepsInv(s: Store, e: EntryId, at: Time)
    requires Inv(s, at) && e in s.entries
    ensures Inv(DropEntry(s, e, at), at)
  {
    var next := DropEntry(s, e, at);
    forall f | f in next.entries
      ensures next.entries[f].id == f < next.drawn && Backed(next.memories, next.entries[f])
    {
      assert Backed(s.memories, s.entries[f]);
    }
    forall a: MemoryId, key: Key | Holds(next, a, key, at)
      ensures Holds(s, a, key, at)
    {
    }
  }

  /** A deleted entry leaves every search at once, and stays in the list of its memory. */
  lemma DropShows(s: Store, e: EntryId, at: Time, later: Time, f: Entry)
    requires Inv(s, at) && ActiveEntry(s.entries, e, at)
    ensures f in Searchable(DropEntry(s, e, at), later) <==> f in Searchable(s, later) && f.id != e
    ensures var next := DropEntry(s, e, at);
            var id := s.entries[e].memoryId;
            id in next.memories && s.entries[e] in next.memories[id].listed && s.entries[e] !in Searchable(next, later)
  {
    DropKeepsInv(s, e, at);
    SearchableAt(s, at, later, f);
    SearchableAt(DropEntry(s, e, at), at, later, f);
    SearchableAt(DropEntry(s, e, at), at, later, s.entries[e]);
    assert Backed(s.memories, s.entries[e]);
  }

  lemma PurgeKeepsInv(s: Store, at: Time, cutoff: Time)
    requires Inv(s, at)
    ensures Inv(Purged(s, cutoff), at)
  {
    var next := Purged(s, cutoff);
    forall f | f in next.entries
      ensures next.entries[f].id == f < next.drawn && Backed(next.memories, next.entries[f])
    {
      assert Backed(s.memories, s.entries[f]);
    }
    forall a: MemoryId, f: EntryId | Lists(next.memories, a, f)
      ensures Lists(s.memories, a, f)
    {
    }
    forall a: MemoryId, key: Key | Holds(next, a, key, at)
      ensures Holds(s, a, key, at)
    {
    }
  }

  /** A purge removes nothing that a search from the cutoff on could see. */
  lemma PurgeShows(s: Store, at: Time, cutoff: Time, later: Time, e: Entry)
    requires Inv(s, at) && cutoff <= later && at <= later
    ensures e in Searchable(Purged(s, cutoff), later) <==> e in Searchable(s, later)
  {
    PurgeKeepsInv(s, at, cutoff);
    SearchableAt(s, at, later, e);
    SearchableAt(Purged(s, cutoff), at, later, e);
    if e in Searchable(s, later) {
      SearchableIsCanonical(s, at, later, e);
    }
  }

  /** A new memory is active until it expires and goes with the first purge from then on; without an expiry, neither. */
  lemma ExpiryDecides(s: Store, input: BatchInput, at: Time, ttlMs: nat, later: Time, cutoff: Time)
    requires Inv(s, at) && HasPeriod(input)
    ensures var next := Replace(s, input, at, ttlMs);
            var expiresAt := ExpiresAt(input, at, ttlMs);
            && s.drawn in next.memories
            && (ActiveMemory(next.memories, s.drawn, later) <==> expiresAt.Some? && later < expiresAt.value)
            && (s.drawn in Purged(next, cutoff).memories <==> (expiresAt.Some? ==> cutoff < expiresAt.value))
    ensures var active := ActiveMemory(Replace(s, input, at, ttlMs).memories, s.drawn, later);
            && (input.expiresAt.Absent? ==> (active <==> later < at + ttlMs))
            && (forall t: Time :: input.expiresAt == Until(t) ==> (active <==> later < t))
  {
    ClearedKeepsInv(s, KeyOf(input), at);
  }

  /** The memory that a replacement makes is never active and survives every purge. */
  ghost predicate InvisibleForever(next: Store, id: MemoryId) {
    && (forall later: Time :: !ActiveMemory(next.memories, id, later))
    && (forall cutoff: Time :: id in Purged(next, cutoff).memories)
  }

  /**
   * A valid input passes validation whatever its expiry, and makes a memory that is never active and
   * that no purge removes exactly when its expiry is the empty text.
   */
  lemma InvisibleForeverIffEmptyExpiry(s: Store, input: BatchInput, at: Time, ttlMs: nat)
    requires Inv(s, at) && ValidInput(input)
    ensures ValidBatch([input]) && forall i :: 0 <= i < |[input]| ==> Fault([input], i) == ScheduleDates.Valid
    ensures InvisibleForever(Replace(s, input, at, ttlMs), s.drawn) <==> input.expiresAt.EmptyText?
  {
    AcceptedIffValid([input]);
    var next := Replace(s, input, at, ttlMs);
    var expiresAt := ExpiresAt(input, at, ttlMs);
    forall later: Time, cutoff: Time
      ensures ActiveMemory(next.memories, s.drawn, later) <==> expiresAt.Some? && later < expiresAt.value
      ensures s.drawn in Purged(next, cutoff).memories <==> (expiresAt.Some? ==> cutoff < expiresAt.value)
    {
      ExpiryDecides(s, input, at, ttlMs, later, cutoff);
    }
    if !input.expiresAt.EmptyText? {
      assert s.drawn !in Purged(next, expiresAt.value).memories;
    }
  }

  /** No search ever sees an entry of such a memory. */
  lemma EmptyExpiryIsNeverFound(s: Store, input: BatchInput, at: Time, ttlMs: nat, later: Time, e: Entry)
    requires Inv(s, at) && ValidInput(input) && input.expiresAt.EmptyText? && at <= later
    requires e in Searchable(Replace(s, input, at, ttlMs), later)
    ensures e.memoryId != s.drawn
  {
    ReplaceKeeps(s, input, at, ttlMs);
    ExpiryDecides(s, input, at, ttlMs, later, 0);
    SearchableIsCanonical(Replace(s, input, at, ttlMs), at, later, e);
  }

  // ---- The store ----

  class InMemoryScheduleStore {
    const ttlMs: nat
    var memories: Memories
    var entries: Entries
    var drawn: nat

    constructor (ttlMs: nat)
      ensures this.ttlMs == ttlMs && View() == Store(map[], map[], 0) && forall at :: Valid(at)
    {
      this.ttlMs := ttlMs;
      memories, entries, drawn := map[], map[], 0;
    }

    function View(): Store
      reads this
    {
      Store(memories, entries, drawn)
    }

    ghost predicate Valid(at: Time)
      reads this
    {
      Inv(View(), at)
    }

    method RandomUuid() returns (id: nat)
      modifies this`drawn
      ensures id == old(drawn) && drawn == id + 1
    {
      id := drawn;
      drawn := drawn + 1;
    }

    /** The loops that write every entry of a list. */
    method WriteEach(list: seq<Entry>)
      modifies this`entries
      ensures entries == Written(old(entries), list)
    {
      for k := 0 to |list|
        invariant entries == Written(old(entries), list[..k])
      {
        assert list[..k + 1][..k] == list[..k];
        entries := entries[list[k].id := list[k]];
      }
      assert list[..|list|] == list;
    }

    /** The loop over the memories that deletes what is active under the key. */
    method ClearKey(key: Key, at: Time)
      requires Valid(at)
      modifies this`memories, this`entries
      ensures Valid(at) && View() == Cleared(old(View()), key, at)
    {
      ghost var was := View();
      var todo := memories.Keys;
      while todo != {}
        invariant todo <= was.memories.Keys && drawn == was.drawn
        invariant (exists id: MemoryId :: Holds(was, id, key, at) && id !in todo) ==> View() == Cleared(was, key, at)
        invariant (forall id: MemoryId :: Holds(was, id, key, at) ==> id in todo) ==> View() == was
        decreases todo
      {
        var id :| id in todo;
        todo := todo - {id};
        if memories[id].key == key && Live(memories[id].expiresAt, memories[id].deletedAt, at) {
          assert Holds(was, id, key, at);
          var existing := memories[id];
          memories := memories[id := existing.(deletedAt := Some(at))];
          WriteEach(Deleted(existing.listed, at));
        }
      }
      ClearedKeepsInv(was, key, at);
    }

    /** The new entries, each under an identifier of its own. */
    method DrawEntries(memoryId: MemoryId, input: BatchInput, at: Time) returns (list: seq<Entry>)
      requires drawn == memoryId + 1 && HasPeriod(input)
      modifies this`drawn
      ensures list == NewEntries(memoryId, KeyOf(input), input, at, ttlMs) && drawn == memoryId + 1 + |list|
    {
      var expiresAt := ExpiresAt(input, at, ttlMs);
      list := [];
      for k := 0 to |input.entries|
        invariant drawn == memoryId + 1 + k && list == NewEntries(memoryId, KeyOf(input), input, at, ttlMs)[..k]
      {
        var id := RandomUuid();
        list := list + [Entry(id, memoryId, input.profile, input.scheduleType, input.title, input.createdBy,
                              input.entries[k], at, expiresAt, None)];
      }
    }

    method AddMemory(input: BatchInput, at: Time) returns (record: Memory)
      requires HasPeriod(input)
      modifies this`memories, this`entries, this`drawn
      ensures View() == Added(old(View()), KeyOf(input), input, at, ttlMs)
      ensures record.id == old(drawn) && record.id in memories && memories[record.id] == record
    {
      var memoryId := RandomUuid();
      var list := DrawEntries(memoryId, input, at);
      record := Memory(memoryId, KeyOf(input), input.title, input.createdBy, list, at,
                       ExpiresAt(input, at, ttlMs), None);
      memories := memories[memoryId := record];
      WriteEach(list);
    }

    method ReplaceScheduleMemory(input: BatchInput, at: Time) returns (record: Memory)
      requires Valid(at) && HasPeriod(input)
      modifies this`memories, this`entries, this`drawn
      ensures Valid(at) && View() == Replace(old(View()), input, at, ttlMs)
      ensures record.id == old(drawn) && record.id in memories && memories[record.id] == record
    {
      ReplaceKeeps(View(), input, at, ttlMs);
      ClearKey(KeyOf(input), at);
      record := AddMemory(input, at);
    }

    /** A batch is stored as a whole or, when it is not valid, not at all. */
    method SaveScheduleMemories(inputs: seq<BatchInput>, at: Time) returns (v: Verdict)
      requires Valid(at)
      modifies this`memories, this`entries, this`drawn
      ensures Valid(at) && (v == ScheduleDates.Valid <==> ValidBatch(inputs))
      ensures if ValidBatch(inputs) then DistinctKeys(inputs) && View() == ReplaceAll(old(View()), inputs, at, ttlMs)
              else View() == old(View())
    {
      AcceptedIffValid(inputs);
      v := ValidateScheduleMemoryBatch(inputs);
      if v != ScheduleDates.Valid { return; }
      for i := 0 to |inputs|
        invariant Valid(at) && View() == ReplaceAll(old(View()), inputs[..i], at, ttlMs)
      {
        assert inputs[..i + 1][..i] == inputs[..i];
        var record := ReplaceScheduleMemory(inputs[i], at);
      }
      assert inputs[..|inputs|] == inputs;
    }

    method AddScheduleEntry(profile: Name, scheduleType: Name, input: EntryInput, at: Time) returns (r: Option<Entry>)
      requires Valid(at)
      modifies this`memories, this`entries, this`drawn
      ensures Valid(at)
      ensures var key := Key(profile, scheduleType, Prefix(input.serviceDate, 7));
              if r.None? then Free(old(View()), key, at) && View() == old(View())
              else Holds(old(View()), r.value.memoryId, key, at) &&
                   r.value == AppendedEntry(old(View()), r.value.memoryId, input, at) &&
                   View() == AppendEntry(old(View()), r.value.memoryId, input, at)
      ensures r.Some? ==>
                var m := old(memories)[r.value.memoryId];
                && (r.value.profile, r.value.scheduleType) == (profile, scheduleType) && r.value.input == input
                && (r.value.createdAt, r.value.expiresAt, r.value.deletedAt) == (at, m.expiresAt, None)
                && entries == old(entries)[r.value.id := r.value] && r.value.id !in old(entries)
                && memories == old(memories)[r.value.memoryId := m.(listed := m.listed + [r.value])]
    {
      var key := Key(profile, scheduleType, Prefix(input.serviceDate, 7));
      var matching := set id | id in memories && memories[id].key == key &&
                               Live(memories[id].expiresAt, memories[id].deletedAt, at);
      assert forall id: MemoryId :: Holds(View(), id, key, at) ==> id in matching;
      if matching == {} { return None; }
      var id :| id in matching;
      AppendKeepsInv(View(), id, input, at);
      var memory := memories[id];
      var entryId := RandomUuid();
      var entry := Entry(entryId, id, memory.key.profile, memory.key.scheduleType, memory.title, memory.createdBy,
                         input, at, memory.expiresAt, None);
      entries := entries[entryId := entry];
      memories := memories[id := memory.(listed := memory.listed + [entry])];
      return Some(entry);
    }

    method UpdateScheduleEntry(profile: Name, e: EntryId, changes: Changes, at: Time) returns (r: Option<Entry>)
      requires Valid(at)
      modifies this`memories, this`entries
      ensures Valid(at)
      ensures r.Some? <==> ActiveEntry(old(entries), e, at) && old(entries)[e].profile == profile
      ensures if r.Some? then View() == ChangeEntry(old(View()), e, changes) && r.value == entries[e]
              else View() == old(View())
      ensures r.Some? ==>
                var was, now := old(entries)[e].input, r.value.input;
                && changes.serviceDate in {None, Some(now.serviceDate)}
                && changes.meetingName in {None, Some(now.meetingName)}
                && changes.assignee in {None, Some(now.assignee)} && changes.notes in {None, Some(now.notes)}
                && (changes.serviceDate == None ==> now.serviceDate == was.serviceDate)
                && (changes.meetingName == None ==> now.meetingName == was.meetingName)
                && (changes.assignee == None ==> now.assignee == was.assignee)
                && (changes.notes == None ==> now.notes == was.notes)
                && r.value == old(entries)[e].(input := now)
    {
      if e !in entries || entries[e].profile != profile || !Live(entries[e].expiresAt, entries[e].deletedAt, at) {
        return None;
      }
      ChangeKeepsInv(View(), e, changes, at);
      var updated := entries[e].(input := Changed(entries[e].input, changes));
      entries := entries[e := updated];
      if updated.memoryId in memories {
        memories := memories[updated.memoryId := Relisted(memories[updated.memoryId], updated)];
      }
      return Some(updated);
    }

    method DeleteScheduleEntry(profile: Name, e: EntryId, at: Time) returns (deleted: bool)
      requires Valid(at)
      modifies this`entries
      ensures Valid(at)
      ensures deleted <==> ActiveEntry(old(entries), e, at) && old(entries)[e].profile == profile
      ensures View() == if deleted then DropEntry(old(View()), e, at) else old(View())
    {
      if e !in entries || entries[e].profile != profile || !Live(entries[e].expiresAt, entries[e].deletedAt, at) {
        return false;
      }
      DropKeepsInv(View(), e, at);
      entries := entries[e := entries[e].(deletedAt := Some(at))];
      return true;
    }

    /** The owner or an administrator forgets a memory, active or not. */
    method ForgetScheduleMemory(profile: Name, id: MemoryId, deletedBy: Option<Name>, isAdmin: bool, at: Time)
      returns (forgotten: bool)
      requires Valid(at)
      modifies this`memories, this`entries
      ensures Valid(at)
      ensures forgotten <==> id in old(memories) && old(memories)[id].key.profile == profile &&
                             (isAdmin || (deletedBy.Some? && old(memories)[id].createdBy == deletedBy))
      ensures View() == if forgotten then Forget(old(View()), id, at) else old(View())
    {
      if id !in memories || memories[id].key.profile != profile ||
         !(isAdmin || (deletedBy.Some? && deletedBy == memories[id].createdBy)) {
        return false;
      }
      ForgetKeepsInv(View(), id, at);
      var record := memories[id];
      memories := memories[id := record.(deletedAt := Some(at))];
      WriteEach(Deleted(record.listed, at));
      return true;
    }

    method PurgeExpired(cutoff: Time, ghost at: Time)
      requires Valid(at)
      modifies this`memories, this`entries
      ensures Valid(at) && View() == Purged(old(View()), cutoff)
    {
      ghost var was := View();
      PurgeKeepsInv(was, at, cutoff);
      var gone := set id | id in memories && GoneMemory(memories, id, cutoff);
      entries := map e | e in entries && !Expired(entries[e].expiresAt, entries[e].deletedAt, cutoff) &&
                         entries[e].memoryId !in gone :: entries[e];
      memories := map id | id in memories && id !in gone :: memories[id];
      assert memories == Purged(was, cutoff).memories;
      assert entries == Purged(was, cutoff).entries;
    }
  }
}
