/**
 * Remembered texts and their embeddings: the text methods of src/agent/memory-store.ts, and
 * src/agent/text-memory-embedding-backfill.ts as a client cut at its awaits.
 */
module TextMemory {
  import opened Basics

  type MemoryId = nat
  type Name = nat

  datatype Text = Text(title: Option<nat>, content: nat)

  /** A vector and the text it was computed from. */
  datatype Vector = Vector(computedFrom: Text, values: seq<int>)

  /** expiresAt as a caller gives it: any text is stored, and one that is no date, like the empty one, is Unparsed. */
  datatype Expiry = Absent | Unparsed | Until(at: Time)

  /** An expiry that does not parse as a time is None. */
  datatype Record = Record(id: MemoryId, revision: nat, profile: Name, scope: nat, text: Text, query: Option<nat>,
                           createdBy: Option<Name>, createdAt: Time, updatedBy: Option<Name>, updatedAt: Option<Time>,
                           expiresAt: Option<Time>, deletedAt: Option<Time>)

  type Records = map<MemoryId, Record>

  /** drawn is the next identifier randomUUID will give. */
  datatype Store = Store(records: Records, embeddings: map<MemoryId, Vector>, drawn: nat)

  datatype NewText = NewText(profile: Name, scope: nat, text: Text, query: Option<nat>, createdBy: Option<Name>,
                             expiresAt: Expiry, embedding: Option<Vector>)

  /** Who asks for a change, and to which revision. */
  datatype Ask = Ask(id: MemoryId, profile: Name, scope: nat, deletedBy: Option<Name>, isAdmin: bool,
                     expectedRevision: Option<nat>)

  datatype Candidate = Candidate(id: MemoryId, text: Text, revision: nat)

  predicate Active(records: Records, id: MemoryId, at: Time) {
    id in records && records[id].deletedAt.None? && records[id].expiresAt.Some? && records[id].expiresAt.value > at
  }

  predicate CanDelete(r: Record, ask: Ask) {
    ask.isAdmin || (ask.deletedBy.Some? && ask.deletedBy == r.createdBy)
  }

  /** The records that this caller may change now. */
  predicate Permitted(s: Store, ask: Ask, at: Time) {
    && Active(s.records, ask.id, at)
    && s.records[ask.id].profile == ask.profile && s.records[ask.id].scope == ask.scope
    && CanDelete(s.records[ask.id], ask)
    && (ask.expectedRevision.Some? ==> s.records[ask.id].revision == ask.expectedRevision.value)
  }

  /** The record is the caller's own or the caller an administrator, it is live, and its revision the expected one. */
  ghost predicate MayChange(records: Records, ask: Ask, at: Time) {
    && ask.id in records
    && var r := records[ask.id];
       && (r.profile, r.scope) == (ask.profile, ask.scope)
       && (ask.isAdmin || exists owner :: ask.deletedBy == Some(owner) && r.createdBy == Some(owner))
       && r.deletedAt == None && (exists until :: r.expiresAt == Some(until) && at < until)
       && ask.expectedRevision in {None, Some(r.revision)}
  }

  predicate NonEmpty(v: Option<Vector>) {
    v.Some? && v.value.values != []
  }

  function ExpiresAt(expiry: Expiry, at: Time, ttlMs: nat): Option<Time> {
    match expiry
    case Absent => Some(at + ttlMs)
    case Unparsed => None
    case Until(t) => Some(t)
  }

  function Saved(s: Store, input: NewText, at: Time, ttlMs: nat): Store {
    Store(s.records[s.drawn := Record(s.drawn, 1, input.profile, input.scope, input.text, input.query, input.createdBy,
                                      at, None, None, ExpiresAt(input.expiresAt, at, ttlMs), None)],
          if NonEmpty(input.embedding) then s.embeddings[s.drawn := input.embedding.value] else s.embeddings,
          s.drawn + 1)
  }

  /** The content changes, the revision moves on, and the old embedding goes. */
  function Updated(s: Store, ask: Ask, content: nat, embedding: Option<Vector>, at: Time): Store
    requires ask.id in s.records
  {
    var r := s.records[ask.id];
    s.(records := s.records[ask.id := r.(text := Text(r.text.title, content), query := None, revision := r.revision + 1,
                                         updatedAt := Some(at), updatedBy := ask.deletedBy)],
       embeddings := if NonEmpty(embedding) then s.embeddings[ask.id := embedding.value] else s.embeddings - {ask.id})
  }

  predicate TakesEmbedding(s: Store, id: MemoryId, v: Vector, expectedRevision: Option<nat>, at: Time) {
    && Active(s.records, id, at) && v.values != []
    && (expectedRevision.Some? ==> s.records[id].revision == expectedRevision.value)
    && id !in s.embeddings
  }

  function Embedded(s: Store, id: MemoryId, v: Vector, expectedRevision: Option<nat>, at: Time): Store {
    if TakesEmbedding(s, id, v, expectedRevision, at) then s.(embeddings := s.embeddings[id := v]) else s
  }

  function Forgotten(s: Store, id: MemoryId, at: Time): Store
    requires id in s.records
  {
    s.(records := s.records[id := s.records[id].(deletedAt := Some(at))])
  }

  predicate Expired(r: Record, cutoff: Time) {
    r.deletedAt.Some? || (r.expiresAt.Some? && r.expiresAt.value <= cutoff)
  }

  /** A purge removes records and leaves their embeddings. */
  function Purged(s: Store, cutoff: Time): Store {
    s.(records := map id | id in s.records && !Expired(s.records[id], cutoff) :: s.records[id])
  }

  predicate Missing(s: Store, id: MemoryId, at: Time) {
    Active(s.records, id, at) && id !in s.embeddings
  }

  function CandidateOf(r: Record): Candidate {
    Candidate(r.id, r.text, r.revision)
  }

  /** The record is never active and survives every purge. */
  ghost predicate InvisibleForever(s: Store, id: MemoryId) {
    && (forall at: Time :: !Active(s.records, id, at))
    && (forall cutoff: Time :: id in Purged(s, cutoff).records)
  }

  /** A saved text is never active and never purged exactly when its expiry was given and is no date. */
  lemma InvisibleForeverIffUnparsedExpiry(s: Store, input: NewText, at: Time, ttlMs: nat)
    ensures InvisibleForever(Saved(s, input, at, ttlMs), s.drawn) <==> input.expiresAt.Unparsed?
  {
    var next := Saved(s, input, at, ttlMs);
    if !input.expiresAt.Unparsed? {
      assert s.drawn !in Purged(next, next.records[s.drawn].expiresAt.value).records;
    }
  }

  // ---- The store ----

  class InMemoryTextMemoryStore {
    const ttlMs: nat
    var records: Records
    var embeddings: map<MemoryId, Vector>
    var drawn: nat

    constructor (ttlMs: nat)
      ensures this.ttlMs == ttlMs && View() == Store(map[], map[], 0)
    {
      this.ttlMs := ttlMs;
      records, embeddings, drawn := map[], map[], 0;
    }

    function View(): Store
      reads this
    {
      Store(records, embeddings, drawn)
    }

    method SaveTextMemory(input: NewText, at: Time) returns (r: Record)
      modifies this
      ensures View() == Saved(old(View()), input, at, ttlMs) && r.id == old(drawn) && records[r.id] == r
      ensures records == old(records)[r.id := r] && r.revision == 1 && r.createdAt == at && r.deletedAt == None
      ensures (r.profile, r.scope, r.text, r.query, r.createdBy) ==
              (input.profile, input.scope, input.text, input.query, input.createdBy)
      ensures input.expiresAt.Absent? ==> r.expiresAt == Some(at + ttlMs)
      ensures forall t: Time :: input.expiresAt == Until(t) ==> r.expiresAt == Some(t)
      ensures embeddings == match input.embedding {
                              case Some(v) => if v.values != [] then old(embeddings)[r.id := v] else old(embeddings)
                              case None => old(embeddings) }
    {
      var id := drawn;
      drawn := drawn + 1;
      r := Record(id, 1, input.profile, input.scope, input.text, input.query, input.createdBy, at, None, None,
                  ExpiresAt(input.expiresAt, at, ttlMs), None);
      records := records[id := r];
      if NonEmpty(input.embedding) { embeddings := embeddings[id := input.embedding.value]; }
    }

    method UpdateTextMemory(ask: Ask, content: nat, embedding: Option<Vector>, at: Time) returns (r: Option<Record>)
      requires ask.expectedRevision.Some?
      modifies this
      ensures r.Some? <==> Permitted(old(View()), ask, at)
      ensures View() == if r.Some? then Updated(old(View()), ask, content, embedding, at) else old(View())
      ensures r.Some? ==> records[ask.id] == r.value
      ensures r.Some? <==> MayChange(old(records), ask, at)
      ensures r.Some? ==>
                && records == old(records)[ask.id := r.value]
                && var was := old(records)[ask.id];
                   r.value == was.(text := Text(was.text.title, content), query := None, revision := was.revision + 1,
                                   updatedAt := Some(at), updatedBy := ask.deletedBy)
      ensures r.Some? ==> embeddings == match embedding {
                case Some(v) => if v.values != [] then old(embeddings)[ask.id := v] else old(embeddings) - {ask.id}
                case None => old(embeddings) - {ask.id} }
    {
      if ask.id !in records { return None; }
      var record := records[ask.id];
      if record.profile != ask.profile || record.scope != ask.scope || !Active(records, ask.id, at) ||
         !CanDelete(record, ask) || record.revision != ask.expectedRevision.value {
        return None;
      }
      var updated := record.(text := Text(record.text.title, content), query := None, revision := record.revision + 1,
                             updatedAt := Some(at), updatedBy := ask.deletedBy);
      records := records[ask.id := updated];
      embeddings := embeddings - {ask.id};
      if NonEmpty(embedding) { embeddings := embeddings[ask.id := embedding.value]; }
      return Some(updated);
    }

    method UpdateTextMemoryEmbedding(id: MemoryId, v: Vector, expectedRevision: Option<nat>, at: Time)
      returns (stored: bool)
      modifies this`embeddings
      ensures stored <==> TakesEmbedding(old(View()), id, v, expectedRevision, at)
      ensures View() == Embedded(old(View()), id, v, expectedRevision, at)
      ensures stored <==> && id in old(records) && id !in old(embeddings) && v.values != []
                          && old(records)[id].deletedAt == None
                          && (exists until :: old(records)[id].expiresAt == Some(until) && at < until)
                          && expectedRevision in {None, Some(old(records)[id].revision)}
      ensures embeddings == if stored then old(embeddings)[id := v] else old(embeddings)
    {
      if id !in records || v.values == [] || !Active(records, id, at) ||
         (expectedRevision.Some? && records[id].revision != expectedRevision.value) || id in embeddings {
        return false;
      }
      embeddings := embeddings[id := v];
      return true;
    }

    method ForgetMemory(ask: Ask, at: Time) returns (forgotten: bool)
      modifies this`records
      ensures forgotten <==> Permitted(old(View()), ask, at)
      ensures View() == if forgotten then Forgotten(old(View()), ask.id, at) else old(View())
      ensures forgotten <==> MayChange(old(records), ask, at)
      ensures forgotten ==> records == old(records)[ask.id := old(records)[ask.id].(deletedAt := Some(at))]
    {
      if ask.id !in records { return false; }
      var record := records[ask.id];
      if record.profile != ask.profile || record.scope != ask.scope || !CanDelete(record, ask) ||
         !Active(records, ask.id, at) ||
         (ask.expectedRevision.Some? && record.revision != ask.expectedRevision.value) {
        return false;
      }
      records := records[ask.id := record.(deletedAt := Some(at))];
      return true;
    }

    method PurgeExpired(cutoff: Time) returns (removed: int)
      modifies this`records
      ensures View() == Purged(old(View()), cutoff) && removed == |old(records)| - |records|
      ensures forall id :: id in records ==> id in old(records) && records[id] == old(records)[id]
      ensures forall id :: id in old(records) && id !in records <==>
                id in old(records) && (old(records)[id].deletedAt != None ||
                exists until :: old(records)[id].expiresAt == Some(until) && until <= cutoff)
    {
      var todo := records.Keys;
      ghost var was := records;
      removed := 0;
      while todo != {}
        invariant todo <= was.Keys && removed == |was| - |records|
        invariant records == map id | id in was && (id in todo || !Expired(was[id], cutoff)) :: was[id]
        decreases todo
      {
        var id :| id in todo;
        todo := todo - {id};
        if Expired(records[id], cutoff) {
          assert |records - {id}| == |records| - 1;
          records := records - {id};
          removed := removed + 1;
        }
      }
    }

    /** The ids of missing, newest first, as far as the limit goes. */
    method NewestIds(missing: set<MemoryId>, limit: int) returns (ids: seq<MemoryId>, ghost rest: set<MemoryId>)
      ensures |ids| <= Max(0, limit) && (rest != {} ==> |ids| == Max(0, limit))
      ensures rest <= missing && forall id :: id in missing - rest <==> id in ids
      ensures NewestFirst(records, ids, rest)
    {
      ids := [];
      var todo := missing;
      while |ids| < limit && todo != {}
        invariant |ids| <= Max(0, limit)
        invariant todo <= missing && forall id :: id in missing - todo <==> id in ids
        invariant NewestFirst(records, ids, todo)
        decreases todo
      {
        NewestExists(records, todo);
        var id :| id in todo && Newest(records, todo, id);
        assert forall k :: 0 <= k < |ids| ==> ids[k] in ids && ids[k] != id;
        todo := todo - {id};
        ids := ids + [id];
      }
      rest := todo;
    }

    /** The newest records that have no embedding, at most limit of them, newest first. */
    method ListTextMemoriesMissingEmbedding(limit: int, at: Time) returns (list: seq<Candidate>)
      requires forall id :: id in records ==> records[id].id == id
      ensures NewestMissing(View(), list, limit, at)
    {
      var missing := MissingIds(View(), at);
      ghost var rest;
      var ids;
      ids, rest := NewestIds(missing, limit);
      var now := records;
      forall k | 0 <= k < |ids|
        ensures ids[k] in missing && ids[k] in now && CandidateOf(now[ids[k]]).id == ids[k]
      {
        assert ids[k] in ids;
      }
      list := seq(|ids|, k requires 0 <= k < |ids| && ids[k] in now => CandidateOf(now[ids[k]]));
      assert forall k :: 0 <= k < |ids| ==> IdsOf(list)[k] == ids[k];
      assert IdsOf(list) == ids;
      assert missing - (set id | id in ids) == rest;
    }
  }

  function MissingIds(s: Store, at: Time): set<MemoryId> {
    set id | id in s.records && Missing(s, id, at)
  }

  function CreatedAt(records: Records, id: MemoryId): Time {
    if id in records then records[id].createdAt else 0
  }

  /** Distinct ids, newest first, and all newer than the rest. */
  predicate NewestFirst(records: Records, ids: seq<MemoryId>, rest: set<MemoryId>) {
    && (forall j, k :: 0 <= j < k < |ids| ==>
          ids[j] != ids[k] && CreatedAt(records, ids[j]) >= CreatedAt(records, ids[k]))
    && (forall k, id :: 0 <= k < |ids| && id in rest ==> CreatedAt(records, ids[k]) >= CreatedAt(records, id))
  }

  function IdsOf(list: seq<Candidate>): seq<MemoryId> {
    seq(|list|, k requires 0 <= k < |list| => list[k].id)
  }

  predicate NewestMissing(s: Store, list: seq<Candidate>, limit: int, at: Time) {
    var rest := MissingIds(s, at) - set id | id in IdsOf(list);
    && |list| <= Max(0, limit) && (rest != {} ==> |list| == Max(0, limit))
    && (forall k :: 0 <= k < |list| ==> Missing(s, list[k].id, at) && list[k] == CandidateOf(s.records[list[k].id]))
    && NewestFirst(s.records, IdsOf(list), rest)
  }

  predicate Newest(records: Records, ids: set<MemoryId>, id: MemoryId) {
    forall other :: other in ids ==> CreatedAt(records, other) <= CreatedAt(records, id)
  }

  lemma {:induction false} NewestExists(records: Records, ids: set<MemoryId>)
    requires ids != {}
    ensures exists id :: id in ids && Newest(records, ids, id)
    decreases |ids|
  {
    var any :| any in ids;
    if ids == {any} {
      assert Newest(records, ids, any);
    } else {
      var rest := ids - {any};
      NewestExists(records, rest);
      var id :| id in rest && Newest(records, rest, id);
      assert Newest(records, ids, if CreatedAt(records, any) <= CreatedAt(records, id) then id else any);
    }
  }
}
