/**
 * What publications mean to a reader: a delta is the snapshot of the overlaid items, no source
 * disturbs another, and the published count is the number of visible items.
 */
module CatalogMeaning {
  import opened Basics
  import opened CatalogItems

  /** What a reader finds under one identity. */
  ghost function Look(items: Items, src: SourceId, r: StorageRef): Option<Shown> {
    if IsShown(items, src, r) then Some(ShownAt(items, src, r)) else None
  }

  /** What a reader should see of an input: its title normalised, unless the input says how. */
  function ShownInput(env: Env, input: ItemInput, id: ItemId): Shown {
    match input.normalizedTitle
    case Some(title) => Shown(id, input.detail, title)
    case None => Shown(id, input.detail, env.normalize(input.detail.title))
  }

  lemma LookFinds(items: Items, src: SourceId, r: StorageRef, id: ItemId)
    requires OnePerIdentity(items) && Holds(items, id, src, r)
    ensures Look(items, src, r) == if items[id].deletedAt.None?
                                   then Some(Shown(id, items[id].detail, items[id].normalizedTitle)) else None
  {
  }

  lemma LookTombstoned(items: Items, src: SourceId, gone: set<StorageRef>, at: Time, s: SourceId, r: StorageRef)
    requires OnePerIdentity(items)
    ensures Look(Tombstoned(items, src, gone, at), s, r) == if s == src && r in gone then None else Look(items, s, r)
  {
    var next := Tombstoned(items, src, gone, at);
    TombstonedKeepsOne(items, src, gone, at);
    if Known(items, s, r) {
      var id: ItemId :| Holds(items, id, s, r);
      LookFinds(items, s, r, id);
      LookFinds(next, s, r, id);
    }
  }

  /** A batch shows each of its inputs and leaves every other identity of every source alone. */
  lemma LookBatch(env: Env, items: Items, src: SourceId, inputs: seq<ItemInput>, s: SourceId, r: StorageRef)
    requires OnePerIdentity(items) && InScope(src, inputs) && MintsFresh(env, items, inputs)
    ensures OnePerIdentity(PutAll(env, items, inputs))
    ensures s != src || r !in Identities(inputs) ==> Look(PutAll(env, items, inputs), s, r) == Look(items, s, r)
    ensures forall i :: s == src && 0 <= i < |inputs| && inputs[i].storageRef == r ==>
      Look(PutAll(env, items, inputs), s, r) == Some(ShownInput(env, inputs[i], IdOf(items, src, r, env.mint(r))))
  {
    var next := PutAll(env, items, inputs);
    PutAllStores(env, items, src, inputs);
    if s != src || r !in Identities(inputs) {
      OutsideBatch(env, items, src, inputs, next, s, r);
    } else {
      var i :| 0 <= i < |inputs| && inputs[i].storageRef == r;
      assert StoredAt(env, items, src, inputs[i], next);
      LookFinds(next, src, r, IdOf(items, src, r, env.mint(r)));
    }
  }

  lemma OutsideBatch(env: Env, items: Items, src: SourceId, inputs: seq<ItemInput>, next: Items, s: SourceId,
                     r: StorageRef)
    requires OnePerIdentity(items) && BatchStored(env, items, src, inputs, next) && InScope(src, inputs)
    requires s != src || r !in Identities(inputs)
    ensures Look(next, s, r) == Look(items, s, r)
  {
    forall id: ItemId | Holds(next, id, s, r)
      ensures Holds(items, id, s, r) && next[id] == items[id]
    {
      assert id in items || MintedFor(env, inputs, id, next);
    }
    if Known(items, s, r) {
      var id: ItemId :| Holds(items, id, s, r);
      assert Holds(next, id, s, r);
      LookFinds(items, s, r, id);
      LookFinds(next, s, r, id);
    }
  }

  // ---- The two publications, seen by a reader ----

  lemma TombstonedIds(items: Items, src: SourceId, gone: set<StorageRef>, at: Time, r: StorageRef, minted: ItemId)
    requires OnePerIdentity(items)
    ensures IdOf(Tombstoned(items, src, gone, at), src, r, minted) == IdOf(items, src, r, minted)
  {
    TombstonedKeepsOne(items, src, gone, at);
  }

  lemma TombstonedMints(env: Env, items: Items, src: SourceId, gone: set<StorageRef>, at: Time, inputs: seq<ItemInput>)
    requires MintsFresh(env, items, inputs)
    ensures MintsFresh(env, Tombstoned(items, src, gone, at), inputs)
  {
  }

  /** A publication that tombstones these identities and writes these inputs. */
  lemma LookPublished(env: Env, items: Items, src: SourceId, gone: set<StorageRef>, inputs: seq<ItemInput>, at: Time,
                      s: SourceId, r: StorageRef)
    requires OnePerIdentity(items) && InScope(src, inputs) && MintsFresh(env, items, inputs)
    ensures var next := PutAll(env, Tombstoned(items, src, gone, at), inputs);
            && OnePerIdentity(next)
            && (s != src ==> Look(next, s, r) == Look(items, s, r))
            && (r !in Identities(inputs) ==>
                  Look(next, src, r) == if r in gone then None else Look(items, src, r))
            && (forall i :: 0 <= i < |inputs| && inputs[i].storageRef == r ==>
                  Look(next, src, r) == Some(ShownInput(env, inputs[i], IdOf(items, src, r, env.mint(r)))))
  {
    var mid := Tombstoned(items, src, gone, at);
    TombstonedKeepsOne(items, src, gone, at);
    TombstonedMints(env, items, src, gone, at, inputs);
    TombstonedIds(items, src, gone, at, r, env.mint(r));
    LookTombstoned(items, src, gone, at, s, r);
    LookTombstoned(items, src, gone, at, src, r);
    LookBatch(env, mid, src, inputs, s, r);
    LookBatch(env, mid, src, inputs, src, r);
  }

  /** A snapshot shows exactly its inputs, and every other source as before. */
  lemma SnapshotShows(env: Env, items: Items, src: SourceId, inputs: seq<ItemInput>, at: Time, s: SourceId,
                      r: StorageRef)
    requires OnePerIdentity(items) && InScope(src, inputs) && MintsFresh(env, items, inputs)
    ensures var next := SnapshotItems(env, items, src, inputs, at);
            && OnePerIdentity(next)
            && (s != src ==> Look(next, s, r) == Look(items, s, r))
            && (r !in Identities(inputs) ==> Look(next, src, r) == None)
            && (forall i :: 0 <= i < |inputs| && inputs[i].storageRef == r ==>
                  Look(next, src, r) == Some(ShownInput(env, inputs[i], IdOf(items, src, r, env.mint(r)))))
  {
    LookPublished(env, items, src, StoredIdentities(items, src) - Identities(inputs), inputs, at, s, r);
    if r !in StoredIdentities(items, src) {
      assert forall id: ItemId :: !Holds(items, id, src, r);
    }
  }

  /** A delta overlays its upserts on what was visible and not deleted. */
  lemma DeltaShows(env: Env, items: Items, src: SourceId, upserts: seq<ItemInput>, deleted: set<StorageRef>, at: Time,
                   s: SourceId, r: StorageRef)
    requires OnePerIdentity(items) && InScope(src, upserts) && MintsFresh(env, items, upserts)
    ensures var next := DeltaItems(env, items, src, upserts, deleted, at);
            && OnePerIdentity(next)
            && (s != src ==> Look(next, s, r) == Look(items, s, r))
            && (r !in Identities(upserts) ==>
                  Look(next, src, r) == if r in deleted then None else Look(items, src, r))
            && (forall i :: 0 <= i < |upserts| && upserts[i].storageRef == r ==>
                  Look(next, src, r) == Some(ShownInput(env, upserts[i], IdOf(items, src, r, env.mint(r)))))
  {
    LookPublished(env, items, src, deleted, upserts, at, s, r);
  }

  /**
   * full lists, once each, the visible items that the delta does not delete, as they are, with
   * the delta's upserts written over them.
   */
  ghost predicate Overlays(env: Env, items: Items, src: SourceId, upserts: seq<ItemInput>, deleted: set<StorageRef>,
                           full: seq<ItemInput>) {
    && InScope(src, full)
    && (forall r :: r in Identities(full) <==>
          r in Identities(upserts) || (r !in deleted && Look(items, src, r).Some?))
    && (forall i, j :: 0 <= i < |full| && 0 <= j < |upserts| && full[i].storageRef == upserts[j].storageRef ==>
          full[i].detail == upserts[j].detail && full[i].normalizedTitle == upserts[j].normalizedTitle)
    && (forall i :: 0 <= i < |full| && full[i].storageRef !in Identities(upserts) ==>
          Look(items, src, full[i].storageRef).Some? &&
          full[i].detail == Look(items, src, full[i].storageRef).value.detail &&
          full[i].normalizedTitle == Some(Look(items, src, full[i].storageRef).value.normalizedTitle))
  }

  lemma DeltaLooksLikeSnapshot(env: Env, items: Items, src: SourceId, upserts: seq<ItemInput>,
                               deleted: set<StorageRef>, full: seq<ItemInput>, at: Time, s: SourceId, r: StorageRef)
    requires OnePerIdentity(items) && InScope(src, upserts) && Overlays(env, items, src, upserts, deleted, full)
    requires MintsFresh(env, items, upserts) && MintsFresh(env, items, full)
    ensures Look(DeltaItems(env, items, src, upserts, deleted, at), s, r) ==
            Look(SnapshotItems(env, items, src, full, at), s, r)
  {
    DeltaShows(env, items, src, upserts, deleted, at, s, r);
    SnapshotShows(env, items, src, full, at, s, r);
    if s == src && r in Identities(full) {
      var i :| 0 <= i < |full| && full[i].storageRef == r;
      if r in Identities(upserts) {
        var j :| 0 <= j < |upserts| && upserts[j].storageRef == r;
      } else {
        var id: ItemId :| Holds(items, id, src, r) && items[id].deletedAt.None?;
        LookFinds(items, src, r, id);
        assert IdOf(items, src, r, env.mint(r)) == id;
      }
    }
  }

  // ---- Counting ----

  lemma {:induction false} ImageSize(items: Items, ids: set<ItemId>)
    requires forall id :: id in ids ==> id in items
    requires forall a, b :: a in ids && b in ids && items[a].storageRef == items[b].storageRef ==> a == b
    ensures |set id | id in ids :: items[id].storageRef| == |ids|
    decreases |ids|
  {
    if ids != {} {
      var x :| x in ids;
      ImageSize(items, ids - {x});
      assert (set id | id in ids :: items[id].storageRef) ==
             (set id | id in ids - {x} :: items[id].storageRef) + {items[x].storageRef};
    }
  }

  /** The count a publication stores is the number of visible identities. */
  lemma ActiveCount(items: Items, src: SourceId)
    requires OnePerIdentity(items)
    ensures |ActiveIds(items, src)| == |VisibleIdentities(items, src)|
  {
    var ids := ActiveIds(items, src);
    forall a, b | a in ids && b in ids && items[a].storageRef == items[b].storageRef
      ensures a == b
    {
      assert Holds(items, a, src, items[a].storageRef) && Holds(items, b, src, items[a].storageRef);
    }
    ImageSize(items, ids);
    forall r
      ensures r in VisibleIdentities(items, src) <==> r in (set id | id in ids :: items[id].storageRef)
    {
      if r in (set id | id in ids :: items[id].storageRef) {
        var id :| id in ids && items[id].storageRef == r;
        assert Holds(items, id, src, r);
      }
    }
    assert VisibleIdentities(items, src) == set id | id in ids :: items[id].storageRef;
  }

  lemma {:induction false} DistinctSize(inputs: seq<ItemInput>)
    requires DistinctIdentities(inputs)
    ensures |Identities(inputs)| == |inputs|
    decreases |inputs|
  {
    if inputs != [] {
      DistinctSize(inputs[..|inputs| - 1]);
      ExtendIdentities(inputs);
      assert inputs[|inputs| - 1].storageRef !in Identities(inputs[..|inputs| - 1]);
    }
  }

  /** After a snapshot the visible identities are those of its inputs, as many as there are inputs. */
  lemma SnapshotCount(env: Env, items: Items, src: SourceId, inputs: seq<ItemInput>, at: Time)
    requires OnePerIdentity(items) && InScope(src, inputs) && MintsFresh(env, items, inputs)
    ensures var next := SnapshotItems(env, items, src, inputs, at);
            VisibleIdentities(next, src) == Identities(inputs) && |VisibleIdentities(next, src)| == |inputs|
  {
    var next := SnapshotItems(env, items, src, inputs, at);
    forall r
      ensures r in VisibleIdentities(next, src) <==> r in Identities(inputs)
    {
      SnapshotShows(env, items, src, inputs, at, src, r);
      ShownIsStored(next, src, r);
      if r in Identities(inputs) {
        var i :| 0 <= i < |inputs| && inputs[i].storageRef == r;
      }
    }
    DistinctSize(inputs);
  }

  lemma SameLooksSameView(items: Items, other: Items, src: SourceId)
    requires forall r :: Look(items, src, r) == Look(other, src, r)
    ensures VisibleIdentities(items, src) == VisibleIdentities(other, src)
    ensures Visible(items, src) == Visible(other, src)
  {
    forall r
      ensures r in VisibleIdentities(items, src) <==> r in VisibleIdentities(other, src)
      ensures IsShown(items, src, r) ==> IsShown(other, src, r) && ShownAt(items, src, r) == ShownAt(other, src, r)
    {
      assert Look(items, src, r) == Look(other, src, r);
      ShownIsStored(items, src, r);
      ShownIsStored(other, src, r);
    }
  }

  lemma ShownIsStored(items: Items, src: SourceId, r: StorageRef)
    ensures IsShown(items, src, r) ==> r in StoredIdentities(items, src)
  {
    if IsShown(items, src, r) {
      var id: ItemId :| Holds(items, id, src, r) && items[id].deletedAt.None?;
      assert items[id].storageRef in StoredIdentities(items, src);
    }
  }

  /**
   * A delta preserves the meaning of a snapshot: publishing upserts and deletions leaves the same
   * visible items under the same ids, for every source, and the same count, as publishing the
   * snapshot of the visible items minus the deletions overlaid with the upserts.
   */
  lemma DeltaMeansSnapshot(env: Env, items: Items, src: SourceId, upserts: seq<ItemInput>, deleted: set<StorageRef>,
                           full: seq<ItemInput>, at: Time, s: SourceId)
    requires OnePerIdentity(items) && InScope(src, upserts) && Overlays(env, items, src, upserts, deleted, full)
    requires MintsFresh(env, items, upserts) && MintsFresh(env, items, full)
    ensures var d := DeltaItems(env, items, src, upserts, deleted, at);
            var f := SnapshotItems(env, items, src, full, at);
            && OnePerIdentity(d) && OnePerIdentity(f)
            && Visible(d, s) == Visible(f, s)
            && |ActiveIds(d, src)| == |full|
  {
    var d := DeltaItems(env, items, src, upserts, deleted, at);
    var f := SnapshotItems(env, items, src, full, at);
    forall r
      ensures Look(d, s, r) == Look(f, s, r)
    {
      DeltaLooksLikeSnapshot(env, items, src, upserts, deleted, full, at, s, r);
    }
    SameLooksSameView(d, f, s);
    DeltaShows(env, items, src, upserts, deleted, at, src, Graph(0, 0));
    SnapshotShows(env, items, src, full, at, src, Graph(0, 0));
    forall r
      ensures r in VisibleIdentities(d, src) <==> r in Identities(full)
    {
      DeltaLooksLikeSnapshot(env, items, src, upserts, deleted, full, at, src, r);
      SnapshotShows(env, items, src, full, at, src, r);
      ShownIsStored(d, src, r);
      if r in Identities(full) {
        var i :| 0 <= i < |full| && full[i].storageRef == r;
      }
    }
    assert VisibleIdentities(d, src) == Identities(full);
    ActiveCount(d, src);
    DistinctSize(full);
  }
}
