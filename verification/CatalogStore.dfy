/**
 * Revision-fenced publication into the catalog: the store of src/catalog/store.ts, whose sources
 * carry the number of items that a reader sees.
 */
module CatalogStore {
  import opened Basics
  import opened CatalogItems
  import opened CatalogMeaning

  type Cursor = nat

  /** "0", "1", ... while the number is safe, a random identifier afterwards. */
  datatype Revision = Numeric(n: nat) | Opaque(uuid: nat)

  const MAX_SAFE_INTEGER: nat := 9007199254740991

  datatype Health = Never | Ready | Unavailable

  datatype Source = Source(
    id: SourceId, revision: Revision, syncCursor: Option<Cursor>, healthStatus: Health,
    lastAttemptAt: Option<Time>, lastSuccessAt: Option<Time>, lastFailureAt: Option<Time>,
    lastErrorCode: Option<string>, publishedItemCount: nat)

  function NextRevision(r: Revision, uuid: nat): Revision {
    if r.Numeric? && r.n <= MAX_SAFE_INTEGER then Numeric(r.n + 1) else Opaque(uuid)
  }

  // ---- The store as the source has it ----

  datatype Outcome = Refused | OutOfScope | NoSource | Published(source: Source)

  function Promoted(s: Source, uuid: nat, itemCount: nat, at: Time, cursor: Option<Cursor>): Source {
    s.(revision := NextRevision(s.revision, uuid), healthStatus := Ready, syncCursor := cursor,
       lastAttemptAt := Some(at), lastSuccessAt := Some(at), lastErrorCode := None, publishedItemCount := itemCount)
  }

  /** A source after a publication at this time: what a reader is told of it. */
  predicate ReadyAt(was: Source, now: Source, at: Time, cursor: Option<Cursor>) {
    && now.id == was.id && now.lastFailureAt == was.lastFailureAt
    && now.healthStatus == Ready && now.lastErrorCode == None && now.syncCursor == cursor
    && now.lastAttemptAt == Some(at) && now.lastSuccessAt == Some(at)
  }

  class InMemoryCatalogStore {
    var sources: map<SourceId, Source>
    var items: Items

    constructor ()
      ensures sources == map[] && items == map[]
    {
      sources, items := map[], map[];
    }

    ghost predicate Valid()
      reads this
    {
      OnePerIdentity(items) && forall id :: id in sources ==> sources[id].id == id
    }

    method UpdateSourceSyncCursor(src: SourceId, cursor: Option<Cursor>) returns (found: bool)
      modifies this
      ensures items == old(items) && found == (src in old(sources))
      ensures sources == if found then old(sources)[src := old(sources)[src].(syncCursor := cursor)] else old(sources)
    {
      if src !in sources { return false; }
      sources := sources[src := sources[src].(syncCursor := cursor)];
      return true;
    }

    method AssertPublicationScope(src: SourceId, inputs: seq<ItemInput>) returns (ok: bool)
      ensures ok == InScope(src, inputs)
    {
      var seen: set<StorageRef> := {};
      for i := 0 to |inputs|
        invariant forall k :: 0 <= k < i ==> inputs[k].sourceId == src
      {
        if inputs[i].sourceId != src { return false; }
      }
      for i := 0 to |inputs|
        invariant seen == Identities(inputs[..i]) && DistinctIdentities(inputs[..i])
        invariant forall k :: 0 <= k < i ==> inputs[k].storageRef in seen
      {
        if inputs[i].storageRef in seen {
          var k :| 0 <= k < i && inputs[k].storageRef == inputs[i].storageRef;
          return false;
        }
        assert inputs[..i + 1] == inputs[..i] + [inputs[i]];
        seen := seen + {inputs[i].storageRef};
      }
      assert inputs[..|inputs|] == inputs;
      return true;
    }

    /** The tombstone loops of both publications. */
    method TombstoneAll(next: Items, src: SourceId, gone: set<StorageRef>, at: Time) returns (r: Items)
      ensures r == Tombstoned(next, src, gone, at)
    {
      r := next;
      var todo := next.Keys;
      while todo != {}
        invariant todo <= next.Keys
        invariant r == map id | id in next ::
          if id !in todo && next[id].sourceId == src && next[id].storageRef in gone
          then next[id].(deletedAt := Some(at)) else next[id]
        decreases todo
      {
        var id :| id in todo;
        todo := todo - {id};
        if r[id].sourceId == src && r[id].storageRef in gone {
          r := r[id := r[id].(deletedAt := Some(at))];
        }
      }
    }

    /** The search both publications and upsertItem make. */
    method Find(next: Items, src: SourceId, r: StorageRef) returns (found: Option<ItemId>)
      ensures found.Some? ==> Holds(next, found.value, src, r)
      ensures found.None? ==> !Known(next, src, r)
    {
      var matching := set id | id in next && next[id].sourceId == src && next[id].storageRef == r;
      assert forall id: ItemId :: Holds(next, id, src, r) ==> id in matching;
      if matching == {} {
        return None;
      }
      var id :| id in matching;
      return Some(id);
    }

    /** One input written over the item with its identity, or under a minted id. */
    method PutOne(env: Env, next: Items, input: ItemInput, deletedAt: Option<Time>) returns (r: Items, id: ItemId)
      requires OnePerIdentity(next)
      ensures r == Put(env, next, input, deletedAt)
      ensures id in r && r[id] == RecordOf(env, input, id, deletedAt)
    {
      var existing := Find(next, input.sourceId, input.storageRef);
      id := if existing.Some? then existing.value else env.mint(input.storageRef);
      r := next[id := RecordOf(env, input, id, deletedAt)];
    }

    method PutEach(env: Env, next: Items, src: SourceId, inputs: seq<ItemInput>) returns (r: Items)
      requires OnePerIdentity(next) && InScope(src, inputs) && MintsFresh(env, next, inputs)
      ensures r == PutAll(env, next, inputs) && OnePerIdentity(r)
    {
      r := next;
      for i := 0 to |inputs|
        invariant r == PutAll(env, next, inputs[..i]) && OnePerIdentity(r)
      {
        assert inputs[..i + 1][..i] == inputs[..i];
        PutAllStores(env, next, src, inputs[..i + 1]);
        var id;
        r, id := PutOne(env, r, inputs[i], None);
      }
      assert inputs[..|inputs|] == inputs;
    }

    method PromoteSource(source: Source, itemCount: nat, at: Time, cursor: Option<Cursor>, uuid: nat)
      returns (updated: Source)
      modifies this`sources
      ensures updated == Promoted(source, uuid, itemCount, at, cursor)
      ensures sources == old(sources)[source.id := updated]
    {
      updated := source.(revision := NextRevision(source.revision, uuid), healthStatus := Ready, syncCursor := cursor,
                         lastAttemptAt := Some(at), lastSuccessAt := Some(at), lastErrorCode := None,
                         publishedItemCount := itemCount);
      sources := sources[source.id := updated];
    }

    method PublishSourceSnapshot(env: Env, src: SourceId, expectedRevision: Revision, inputs: seq<ItemInput>,
                                 cursor: Option<Cursor>, at: Time, uuid: nat) returns (r: Outcome)
      requires Valid() && MintsFresh(env, items, inputs)
      modifies this
      ensures Valid()
      ensures r.Refused? <==> src !in old(sources) || old(sources)[src].revision != expectedRevision
      ensures r.OutOfScope? <==> !r.Refused? && !InScope(src, inputs)
      ensures r.Published? || (items == old(items) && sources == old(sources))
      ensures r.Published? ==>
                && items == SnapshotItems(env, old(items), src, inputs, at)
                && r.source == Promoted(old(sources)[src], uuid, |inputs|, at, cursor)
                && sources == old(sources)[src := r.source]
      ensures r.Published? ==>
                && ReadyAt(old(sources)[src], sources[src], at, cursor)
                && sources[src].publishedItemCount == |VisibleIdentities(items, src)| == |inputs|
                && VisibleIdentities(items, src) == Identities(inputs)
                && (sources[src].revision != expectedRevision || expectedRevision == Opaque(uuid))
      ensures !r.NoSource?
    {
      if src !in sources || sources[src].revision != expectedRevision { return Refused; }
      var source := sources[src];
      var ok := AssertPublicationScope(src, inputs);
      if !ok { return OutOfScope; }
      var live := Identities(inputs);
      var next := TombstoneAll(items, src, StoredIdentities(items, src) - live, at);
      TombstonedKeepsOne(items, src, StoredIdentities(items, src) - live, at);
      next := PutEach(env, next, src, inputs);
      SnapshotCount(env, items, src, inputs, at);
      items := next;
      var updated := PromoteSource(source, |inputs|, at, cursor, uuid);
      return Published(updated);
    }

    method PublishSourceDelta(env: Env, src: SourceId, expectedRevision: Revision, upserts: seq<ItemInput>,
                              deleted: seq<StorageRef>, cursor: Cursor, at: Time, uuid: nat) returns (r: Outcome)
      requires Valid() && MintsFresh(env, items, upserts)
      modifies this
      ensures Valid()
      ensures r.Refused? <==> src !in old(sources) || old(sources)[src].revision != expectedRevision
      ensures r.OutOfScope? <==> !r.Refused? && !InScope(src, upserts)
      ensures r.Published? || (items == old(items) && sources == old(sources))
      ensures r.Published? ==>
                && items == DeltaItems(env, old(items), src, upserts, (set d | d in deleted), at)
                && r.source == Promoted(old(sources)[src], uuid, |ActiveIds(items, src)|, at, Some(cursor))
                && sources == old(sources)[src := r.source]
      ensures r.Published? ==>
                && ReadyAt(old(sources)[src], sources[src], at, Some(cursor))
                && sources[src].publishedItemCount == |VisibleIdentities(items, src)|
                && (sources[src].revision != expectedRevision || expectedRevision == Opaque(uuid))
      ensures !r.NoSource?
    {
      if src !in sources || sources[src].revision != expectedRevision { return Refused; }
      var source := sources[src];
      var ok := AssertPublicationScope(src, upserts);
      if !ok { return OutOfScope; }
      var gone := set d | d in deleted;
      var next := TombstoneAll(items, src, gone, at);
      TombstonedKeepsOne(items, src, gone, at);
      next := PutEach(env, next, src, upserts);
      items := next;
      ActiveCount(next, src);
      var count := |ActiveIds(next, src)|;
      var updated := PromoteSource(source, count, at, Some(cursor), uuid);
      return Published(updated);
    }

    method MarkSourceSyncFailure(src: SourceId, expectedRevision: Revision, at: Time, code: string)
      returns (marked: bool)
      modifies this
      ensures items == old(items)
      ensures marked == (src in old(sources) && old(sources)[src].revision == expectedRevision)
      ensures sources == if marked then old(sources)[src := old(sources)[src].(
                healthStatus := Unavailable, lastAttemptAt := Some(at), lastFailureAt := Some(at),
                lastErrorCode := Some(code))] else old(sources)
    {
      if src !in sources || sources[src].revision != expectedRevision { return false; }
      sources := sources[src := sources[src].(healthStatus := Unavailable, lastAttemptAt := Some(at),
                                              lastFailureAt := Some(at), lastErrorCode := Some(code))];
      return true;
    }

    /** The item is written before its source is looked up: an unknown source still leaves it behind. */
    method UpsertItem(env: Env, input: ItemInput, at: Time, uuid: nat) returns (r: Outcome)
      requires Valid() && MintsFresh(env, items, [input])
      modifies this
      ensures Valid()
      ensures items == Put(env, old(items), input, input.deletedAt)
      ensures exists id :: id in items && items == old(items)[id := items[id]] &&
                           (Holds(old(items), id, input.sourceId, input.storageRef) ||
                            id == env.mint(input.storageRef)) &&
                           items[id] == Item(id, input.sourceId, input.storageRef, input.detail,
                                             ShownInput(env, input, id).normalizedTitle, input.deletedAt)
      ensures r.NoSource? <==> input.sourceId !in old(sources)
      ensures r.NoSource? ==> sources == old(sources)
      ensures !r.NoSource? ==>
                var s := old(sources)[input.sourceId];
                && r == Published(Promoted(s, uuid, |ActiveIds(items, input.sourceId)|, at, s.syncCursor))
                && sources == old(sources)[input.sourceId := r.source]
                && ReadyAt(s, r.source, at, s.syncCursor)
                && r.source.publishedItemCount == |VisibleIdentities(items, input.sourceId)|
                && (r.source.revision != s.revision || s.revision == Opaque(uuid))
    {
      var next, id := PutOne(env, items, input, input.deletedAt);
      assert env.mint([input][0].storageRef) !in items;
      PutKeepsOne(env, items, input, input.deletedAt);
      items := next;
      ActiveCount(items, input.sourceId);
      if input.sourceId !in sources { return NoSource; }
      var source := sources[input.sourceId];
      var updated := PromoteSource(source, |ActiveIds(items, input.sourceId)|, at, source.syncCursor, uuid);
      return Published(updated);
    }

    /** Tombstoning by hand changes neither the revision nor the published count. */
    method TombstoneItemById(id: ItemId, at: Time) returns (found: bool)
      requires Valid()
      modifies this
      ensures Valid() && sources == old(sources) && found == (id in old(items))
      ensures items == if found then old(items)[id := old(items)[id].(deletedAt := Some(at))] else old(items)
    {
      if id !in items { return false; }
      items := items[id := items[id].(deletedAt := Some(at))];
      assert forall a: ItemId, s: SourceId, r: StorageRef :: Holds(items, a, s, r) ==> Holds(old(items), a, s, r);
      return true;
    }
  }

  /** A delta stores the count that the snapshot of the overlaid items stores: what a reader sees of either. */
  lemma DeltaCountsLikeSnapshot(env: Env, items: Items, s: Source, upserts: seq<ItemInput>, deleted: set<StorageRef>,
                                full: seq<ItemInput>, at: Time, cursor: Option<Cursor>, uuid: nat, d: Items, f: Items)
    requires OnePerIdentity(items) && InScope(s.id, upserts) && Overlays(env, items, s.id, upserts, deleted, full)
    requires MintsFresh(env, items, upserts) && MintsFresh(env, items, full)
    requires d == DeltaItems(env, items, s.id, upserts, deleted, at) && f == SnapshotItems(env, items, s.id, full, at)
    ensures var promoted := Promoted(s, uuid, |ActiveIds(d, s.id)|, at, cursor);
            && promoted == Promoted(s, uuid, |full|, at, cursor)
            && promoted.publishedItemCount == |VisibleIdentities(d, s.id)| == |VisibleIdentities(f, s.id)|
  {
    DeltaMeansSnapshot(env, items, s.id, upserts, deleted, full, at, s.id);
    CountsAgree(d, f, s.id);
  }

  lemma CountsAgree(d: Items, f: Items, src: SourceId)
    requires OnePerIdentity(d) && Visible(d, src) == Visible(f, src)
    ensures |ActiveIds(d, src)| == |VisibleIdentities(d, src)| == |VisibleIdentities(f, src)|
  {
    ActiveCount(d, src);
    assert VisibleIdentities(d, src) == Visible(d, src).Keys == Visible(f, src).Keys == VisibleIdentities(f, src);
  }
}
