/**
 * The items of the catalog, src/catalog/store.ts: what a publication does to them and what a reader
 * of one source sees. Source, item, drive and storage ids are opaque; a storage identity is the
 * reference itself.
 */
module CatalogItems {
  import opened Basics

  type SourceId = nat
  type ItemId = nat

  datatype StorageRef = Graph(driveId: nat, itemId: nat) | ExternalLink(url: nat)

  datatype Detail = Detail(itemKind: string, title: string, path: Option<string>, extension: string,
                           mimeType: Option<string>)

  datatype ItemInput = ItemInput(sourceId: SourceId, storageRef: StorageRef, detail: Detail,
                                 normalizedTitle: Option<string>, deletedAt: Option<Time>)

  datatype Item = Item(id: ItemId, sourceId: SourceId, storageRef: StorageRef, detail: Detail,
                       normalizedTitle: string, deletedAt: Option<Time>)

  type Items = map<ItemId, Item>

  /** Text normalisation, and the item ids one call would draw at random. */
  datatype Env = Env(normalize: string -> string, mint: StorageRef -> ItemId)

  // ---- What a publication does to the items ----

  ghost predicate Holds(items: Items, id: ItemId, src: SourceId, r: StorageRef) {
    id in items && items[id].sourceId == src && items[id].storageRef == r
  }

  /** Items are stored under their own id, one per source and identity. */
  ghost predicate OnePerIdentity(items: Items) {
    && (forall id :: id in items ==> items[id].id == id)
    && (forall a: ItemId, b: ItemId, src: SourceId, r: StorageRef ::
          Holds(items, a, src, r) && Holds(items, b, src, r) ==> a == b)
  }

  ghost predicate Known(items: Items, src: SourceId, r: StorageRef) {
    exists id: ItemId :: Holds(items, id, src, r)
  }

  ghost function IdOf(items: Items, src: SourceId, r: StorageRef, minted: ItemId): ItemId {
    if Known(items, src, r) then var id: ItemId :| Holds(items, id, src, r); id else minted
  }

  function RecordOf(env: Env, input: ItemInput, id: ItemId, deletedAt: Option<Time>): Item {
    Item(id, input.sourceId, input.storageRef, input.detail,
         if input.normalizedTitle.Some? then input.normalizedTitle.value else env.normalize(input.detail.title),
         deletedAt)
  }

  ghost function Put(env: Env, items: Items, input: ItemInput, deletedAt: Option<Time>): Items {
    var id := IdOf(items, input.sourceId, input.storageRef, env.mint(input.storageRef));
    items[id := RecordOf(env, input, id, deletedAt)]
  }

  ghost function PutAll(env: Env, items: Items, inputs: seq<ItemInput>): Items
    decreases |inputs|
  {
    if inputs == [] then items
    else Put(env, PutAll(env, items, inputs[..|inputs| - 1]), inputs[|inputs| - 1], None)
  }

  function Tombstoned(items: Items, src: SourceId, gone: set<StorageRef>, at: Time): Items {
    map id | id in items ::
      if items[id].sourceId == src && items[id].storageRef in gone then items[id].(deletedAt := Some(at)) else items[id]
  }

  function Identities(inputs: seq<ItemInput>): set<StorageRef> {
    set i | 0 <= i < |inputs| :: inputs[i].storageRef
  }

  function StoredIdentities(items: Items, src: SourceId): set<StorageRef> {
    set id | id in items && items[id].sourceId == src :: items[id].storageRef
  }

  ghost function SnapshotItems(env: Env, items: Items, src: SourceId, inputs: seq<ItemInput>, at: Time): Items {
    PutAll(env, Tombstoned(items, src, StoredIdentities(items, src) - Identities(inputs), at), inputs)
  }

  ghost function DeltaItems(env: Env, items: Items, src: SourceId, upserts: seq<ItemInput>, deleted: set<StorageRef>,
                            at: Time): Items {
    PutAll(env, Tombstoned(items, src, deleted, at), upserts)
  }

  predicate DistinctIdentities(inputs: seq<ItemInput>) {
    forall i, j :: 0 <= i < j < |inputs| ==> inputs[i].storageRef != inputs[j].storageRef
  }

  /** What assertPublicationScope insists on. */
  predicate InScope(src: SourceId, inputs: seq<ItemInput>) {
    (forall i :: 0 <= i < |inputs| ==> inputs[i].sourceId == src) && DistinctIdentities(inputs)
  }

  /** Minted ids are new and never minted twice. */
  ghost predicate MintsFresh(env: Env, items: Items, inputs: seq<ItemInput>) {
    && (forall i :: 0 <= i < |inputs| ==> env.mint(inputs[i].storageRef) !in items)
    && (forall i, j :: 0 <= i < |inputs| && 0 <= j < |inputs| &&
                       env.mint(inputs[i].storageRef) == env.mint(inputs[j].storageRef) ==>
          inputs[i].storageRef == inputs[j].storageRef)
  }

  // ---- What a reader of one source sees ----

  /** A visible item: its id and everything a publication gives it. */
  datatype Shown = Shown(id: ItemId, detail: Detail, normalizedTitle: string)

  predicate Active(items: Items, src: SourceId, id: ItemId) {
    id in items && items[id].sourceId == src && items[id].deletedAt.None?
  }

  function ActiveIds(items: Items, src: SourceId): set<ItemId> {
    set id | id in items && Active(items, src, id)
  }

  ghost predicate IsShown(items: Items, src: SourceId, r: StorageRef) {
    exists id: ItemId :: Holds(items, id, src, r) && items[id].deletedAt.None?
  }

  ghost function VisibleIdentities(items: Items, src: SourceId): set<StorageRef> {
    set r | r in StoredIdentities(items, src) && IsShown(items, src, r)
  }

  ghost function ShownAt(items: Items, src: SourceId, r: StorageRef): Shown
    requires IsShown(items, src, r)
  {
    var id: ItemId :| Holds(items, id, src, r) && items[id].deletedAt.None?;
    Shown(id, items[id].detail, items[id].normalizedTitle)
  }

  ghost function Visible(items: Items, src: SourceId): map<StorageRef, Shown> {
    map r | r in VisibleIdentities(items, src) :: ShownAt(items, src, r)
  }

  // ---- One item per identity ----

  lemma TombstonedKeepsOne(items: Items, src: SourceId, gone: set<StorageRef>, at: Time)
    requires OnePerIdentity(items)
    ensures OnePerIdentity(Tombstoned(items, src, gone, at))
    ensures forall id: ItemId, s: SourceId, r: StorageRef ::
      Holds(Tombstoned(items, src, gone, at), id, s, r) <==> Holds(items, id, s, r)
  {
    assert forall id: ItemId, s: SourceId, r: StorageRef ::
      Holds(Tombstoned(items, src, gone, at), id, s, r) <==> Holds(items, id, s, r);
  }

  lemma PutKeepsOne(env: Env, items: Items, input: ItemInput, deletedAt: Option<Time>)
    requires OnePerIdentity(items)
    requires Known(items, input.sourceId, input.storageRef) || env.mint(input.storageRef) !in items
    ensures OnePerIdentity(Put(env, items, input, deletedAt))
  {
    var id := IdOf(items, input.sourceId, input.storageRef, env.mint(input.storageRef));
    var next := Put(env, items, input, deletedAt);
    forall k: ItemId, s: SourceId, r: StorageRef | Holds(next, k, s, r)
      ensures if s == input.sourceId && r == input.storageRef then k == id else Holds(items, k, s, r)
    {
      assert k != id ==> Holds(items, k, s, r);
      if Known(items, input.sourceId, input.storageRef) {
        assert Holds(items, id, input.sourceId, input.storageRef);
      }
    }
  }

  /** What a batch leaves: everything outside it, and each input under its own id. */
  ghost predicate BatchStored(env: Env, items: Items, src: SourceId, inputs: seq<ItemInput>, next: Items) {
    && OnePerIdentity(next)
    && (forall id :: id in items && !(items[id].sourceId == src && items[id].storageRef in Identities(inputs)) ==>
          id in next && next[id] == items[id])
    && (forall i :: 0 <= i < |inputs| ==> StoredAt(env, items, src, inputs[i], next))
    && (forall id :: id in next ==> id in items || MintedFor(env, inputs, id, next))
    && (forall id :: id in items ==> id in next && next[id].sourceId == items[id].sourceId &&
                                     next[id].storageRef == items[id].storageRef)
  }

  ghost predicate StoredAt(env: Env, items: Items, src: SourceId, input: ItemInput, next: Items) {
    var id := IdOf(items, src, input.storageRef, env.mint(input.storageRef));
    id in next && next[id] == RecordOf(env, input, id, None)
  }

  ghost predicate MintedFor(env: Env, inputs: seq<ItemInput>, id: ItemId, next: Items)
    requires id in next
  {
    exists i :: 0 <= i < |inputs| && next[id] == RecordOf(env, inputs[i], env.mint(inputs[i].storageRef), None)
  }

  /** An identity outside the batch has the same id before and after it. */
  lemma BatchKeepsIds(env: Env, items: Items, src: SourceId, inputs: seq<ItemInput>, next: Items, r: StorageRef,
                      minted: ItemId)
    requires OnePerIdentity(items) && BatchStored(env, items, src, inputs, next) && r !in Identities(inputs)
    ensures forall id: ItemId :: Holds(next, id, src, r) <==> Holds(items, id, src, r)
    ensures IdOf(next, src, r, minted) == IdOf(items, src, r, minted)
  {
    forall id: ItemId | Holds(next, id, src, r)
      ensures Holds(items, id, src, r)
    {
      assert id in items || MintedFor(env, inputs, id, next);
    }
  }

  lemma ExtendIdentities(inputs: seq<ItemInput>)
    requires inputs != []
    ensures Identities(inputs) == Identities(inputs[..|inputs| - 1]) + {inputs[|inputs| - 1].storageRef}
  {
  }

  /** The next input of a batch goes where it would have gone in the items before the batch. */
  lemma NextId(env: Env, items: Items, src: SourceId, front: seq<ItemInput>, last: ItemInput, next: Items)
    requires OnePerIdentity(items) && BatchStored(env, items, src, front, next)
    requires last.sourceId == src && last.storageRef !in Identities(front)
    requires MintsFresh(env, items, front + [last])
    ensures IdOf(next, src, last.storageRef, env.mint(last.storageRef)) ==
            IdOf(items, src, last.storageRef, env.mint(last.storageRef))
    ensures Known(next, src, last.storageRef) || env.mint(last.storageRef) !in next
    ensures !Known(next, src, last.storageRef) ==> !Known(items, src, last.storageRef)
  {
    BatchKeepsIds(env, items, src, front, next, last.storageRef, env.mint(last.storageRef));
    assert (front + [last])[|front|] == last;
    forall i | 0 <= i < |front|
      ensures env.mint(front[i].storageRef) != env.mint(last.storageRef)
    {
      assert (front + [last])[i] == front[i];
    }
    assert env.mint(last.storageRef) in next ==> MintedFor(env, front, env.mint(last.storageRef), next);
  }

  lemma StoredAtKept(env: Env, items: Items, src: SourceId, front: seq<ItemInput>, last: ItemInput, next: Items,
                     t: Items, id: ItemId)
    requires MintsFresh(env, items, front + [last]) && last.storageRef !in Identities(front)
    requires id == IdOf(items, src, last.storageRef, env.mint(last.storageRef))
    requires t == next[id := RecordOf(env, last, id, None)]
    requires forall i :: 0 <= i < |front| ==> StoredAt(env, items, src, front[i], next)
    ensures forall i :: 0 <= i < |front + [last]| ==> StoredAt(env, items, src, (front + [last])[i], t)
  {
    forall i | 0 <= i < |front + [last]|
      ensures StoredAt(env, items, src, (front + [last])[i], t)
    {
      assert (front + [last])[|front|] == last;
      if i < |front| {
        assert (front + [last])[i] == front[i] && StoredAt(env, items, src, front[i], next);
        DifferentIds(env, items, src, front[i].storageRef, last.storageRef);
      }
    }
  }

  /** One more input on top of a batch. */
  lemma BatchStep(env: Env, items: Items, src: SourceId, front: seq<ItemInput>, last: ItemInput, next: Items)
    requires OnePerIdentity(items) && BatchStored(env, items, src, front, next)
    requires last.sourceId == src && last.storageRef !in Identities(front)
    requires MintsFresh(env, items, front + [last])
    ensures BatchStored(env, items, src, front + [last], Put(env, next, last, None))
  {
    var id := IdOf(items, src, last.storageRef, env.mint(last.storageRef));
    var t := Put(env, next, last, None);
    NextId(env, items, src, front, last, next);
    assert t == next[id := RecordOf(env, last, id, None)];
    PutKeepsOne(env, next, last, None);
    StoredAtKept(env, items, src, front, last, next, t, id);
    OthersKept(items, src, Identities(front), last.storageRef, next, t, id, RecordOf(env, last, id, None));
    NewOnesMinted(env, items, front + [last], next, t, id);
    ExtendIdentities(front + [last]);
    assert (front + [last])[..|front|] == front;
  }

  lemma OthersKept(items: Items, src: SourceId, front: set<StorageRef>, r: StorageRef, next: Items, t: Items,
                   id: ItemId, item: Item)
    requires t == next[id := item] && item.sourceId == src && item.storageRef == r
    requires id in items ==> Holds(items, id, src, r)
    requires forall k :: k in items && !(items[k].sourceId == src && items[k].storageRef in front) ==>
      k in next && next[k] == items[k]
    requires forall k :: k in items ==>
      k in next && next[k].sourceId == items[k].sourceId && next[k].storageRef == items[k].storageRef
    ensures forall k :: k in items && !(items[k].sourceId == src && items[k].storageRef in front + {r}) ==>
      k in t && t[k] == items[k]
    ensures forall k :: k in items ==>
      k in t && t[k].sourceId == items[k].sourceId && t[k].storageRef == items[k].storageRef
  {
  }

  lemma NewOnesMinted(env: Env, items: Items, inputs: seq<ItemInput>, next: Items, t: Items, id: ItemId)
    requires inputs != [] && t == next[id := RecordOf(env, inputs[|inputs| - 1], id, None)]
    requires id in items || id == env.mint(inputs[|inputs| - 1].storageRef)
    requires forall k :: k in next ==> k in items || MintedFor(env, inputs[..|inputs| - 1], k, next)
    ensures forall k :: k in t ==> k in items || MintedFor(env, inputs, k, t)
  {
    var front := inputs[..|inputs| - 1];
    forall k | k in t && k !in items
      ensures MintedFor(env, inputs, k, t)
    {
      if k != id {
        var i :| 0 <= i < |front| && next[k] == RecordOf(env, front[i], env.mint(front[i].storageRef), None);
        assert t[k] == RecordOf(env, inputs[i], env.mint(inputs[i].storageRef), None);
      } else {
        assert t[k] == RecordOf(env, inputs[|inputs| - 1], env.mint(inputs[|inputs| - 1].storageRef), None);
      }
    }
  }

  lemma DifferentIds(env: Env, items: Items, src: SourceId, r: StorageRef, q: StorageRef)
    requires r != q && env.mint(r) !in items && env.mint(q) !in items && env.mint(r) != env.mint(q)
    ensures IdOf(items, src, r, env.mint(r)) != IdOf(items, src, q, env.mint(q))
  {
  }

  lemma {:induction false} PutAllStores(env: Env, items: Items, src: SourceId, inputs: seq<ItemInput>)
    requires OnePerIdentity(items) && InScope(src, inputs) && MintsFresh(env, items, inputs)
    ensures BatchStored(env, items, src, inputs, PutAll(env, items, inputs))
    decreases |inputs|
  {
    if inputs != [] {
      var front, last := inputs[..|inputs| - 1], inputs[|inputs| - 1];
      assert inputs == front + [last];
      PutAllStores(env, items, src, front);
      BatchStep(env, items, src, front, last, PutAll(env, items, front));
    }
  }
}
