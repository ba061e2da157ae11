/**
 * OneDrive synchronisation of one catalog source, src/catalog/onedrive-sync.ts: what a feed makes
 * of the items, and any number of concurrent syncs cut at their awaits.
 */
module CatalogSync {
  import opened Basics
  import opened CatalogItems
  import opened CatalogMeaning

  datatype RemoteEntry = RemoteEntry(name: string, path: Option<string>, isFolder: bool)

  datatype FeedItem = FeedItem(storageRef: StorageRef, hasId: bool, deleted: bool, entry: RemoteEntry)

  /** The source's settings that a sync reads; the extensions are in lower case. */
  datatype Policy = Policy(src: SourceId, itemKind: string, allowedExtensions: set<string>)

  function LastDot(name: string): int
    ensures -1 <= LastDot(name) < |name|
  {
    if name == "" then -1
    else if name[|name| - 1] == '.' then |name| - 1
    else LastDot(name[..|name| - 1])
  }

  /** path.extname of a name without separators. */
  function ExtName(name: string): string {
    var dot := LastDot(name);
    if dot <= 0 || name == ".." then "" else name[dot..]
  }

  function GuessMimeType(name: string): Option<string> {
    var ext := Lower(ExtName(name));
    if ext == ".mp3" then Some("audio/mpeg")
    else if ext == ".m4a" then Some("audio/mp4")
    else if ext == ".wav" then Some("audio/wav")
    else if ext == ".pdf" then Some("application/pdf")
    else if ext == ".jpg" || ext == ".jpeg" then Some("image/jpeg")
    else if ext == ".png" then Some("image/png")
    else if ext == ".ppt" then Some("application/vnd.ms-powerpoint")
    else if ext == ".pptx" then Some("application/vnd.openxmlformats-officedocument.presentationml.presentation")
    else None
  }

  predicate Allowed(policy: Policy, e: RemoteEntry) {
    && !e.isFolder && e.name != ""
    && (policy.allowedExtensions == {} || Lower(ExtName(e.name)) in policy.allowedExtensions)
  }

  function DetailOf(policy: Policy, e: RemoteEntry): Detail {
    Detail(policy.itemKind, e.name, e.path, Lower(ExtName(e.name)), GuessMimeType(e.name))
  }

  predicate Accepted(policy: Policy, f: FeedItem) {
    !f.deleted && f.hasId && Allowed(policy, f.entry)
  }

  function InputOf(policy: Policy, f: FeedItem): ItemInput {
    ItemInput(policy.src, f.storageRef, DetailOf(policy, f.entry), None, None)
  }

  /** The media types of the files that the assistant hands out. */
  const MEDIA_TYPES: map<string, string> :=
    map[".mp3" := "audio/mpeg", ".m4a" := "audio/mp4", ".wav" := "audio/wav", ".pdf" := "application/pdf",
        ".jpg" := "image/jpeg", ".jpeg" := "image/jpeg", ".png" := "image/png",
        ".ppt" := "application/vnd.ms-powerpoint",
        ".pptx" := "application/vnd.openxmlformats-officedocument.presentationml.presentation"]

  lemma MediaTypeByExtension(name: string)
    ensures var ext := Lower(ExtName(name));
            GuessMimeType(name) == if ext in MEDIA_TYPES then Some(MEDIA_TYPES[ext]) else None
  {
  }

  /** Which entries a source publishes, and how: files with a name whose extension, in any case, is one it allows. */
  lemma AllowedFiles(policy: Policy, e: RemoteEntry, stem: string, ext: string)
    requires stem != "" && ext != "" && e.name == stem + "." + ext && forall i :: 0 <= i < |ext| ==> ext[i] != '.'
    ensures Allowed(policy, e) <==>
              !e.isFolder && (policy.allowedExtensions != {} ==> "." + Lower(ext) in policy.allowedExtensions)
    ensures var d := DetailOf(policy, e);
            && (d.itemKind, d.title, d.path, d.extension) == (policy.itemKind, e.name, e.path, "." + Lower(ext))
            && d.mimeType == if d.extension in MEDIA_TYPES then Some(MEDIA_TYPES[d.extension]) else None
  {
    MediaTypeByExtension(e.name);
    LastDotIs(e.name, |stem|);
    assert e.name[|stem|..] == "." + ext;
    assert Lower("." + ext) == "." + Lower(ext);
  }

  lemma {:induction false} LastDotIs(name: string, dot: nat)
    requires dot < |name| && name[dot] == '.' && forall i :: dot < i < |name| ==> name[i] != '.'
    ensures LastDot(name) == dot
    decreases |name|
  {
    if dot < |name| - 1 {
      LastDotIs(name[..|name| - 1], dot);
    }
  }

  function Upserts(policy: Policy, feed: seq<FeedItem>): seq<ItemInput> {
    if feed == [] then []
    else
      var front, last := Upserts(policy, feed[..|feed| - 1]), feed[|feed| - 1];
      if Accepted(policy, last) then front + [InputOf(policy, last)] else front
  }

  function Deletions(feed: seq<FeedItem>): seq<StorageRef> {
    if feed == [] then []
    else
      var front, last := Deletions(feed[..|feed| - 1]), feed[|feed| - 1];
      if last.deleted then front + [last.storageRef] else front
  }

  function DeletedSet(feed: seq<FeedItem>): set<StorageRef> {
    set d | d in Deletions(feed)
  }

  /** The loop of syncOneDriveDelta: every entry is an upsert, a deletion or a skip. */
  method CollectDelta(policy: Policy, feed: seq<FeedItem>)
    returns (upserts: seq<ItemInput>, deleted: seq<StorageRef>, skipped: nat)
    ensures upserts == Upserts(policy, feed) && deleted == Deletions(feed)
    ensures |upserts| + |deleted| + skipped == |feed|
  {
    upserts, deleted, skipped := [], [], 0;
    for i := 0 to |feed|
      invariant upserts == Upserts(policy, feed[..i]) && deleted == Deletions(feed[..i])
      invariant |upserts| + |deleted| + skipped == i
    {
      var item := feed[i];
      assert feed[..i + 1][..i] == feed[..i];
      if item.deleted {
        deleted := deleted + [item.storageRef];
        continue;
      }
      if item.entry.isFolder || !item.hasId || item.entry.name == "" {
        skipped := skipped + 1;
        continue;
      }
      var extension := Lower(ExtName(item.entry.name));
      if policy.allowedExtensions != {} && extension !in policy.allowedExtensions {
        skipped := skipped + 1;
        continue;
      }
      upserts := upserts + [ItemInput(policy.src, item.storageRef,
                                      Detail(policy.itemKind, item.entry.name, item.entry.path, extension,
                                             GuessMimeType(item.entry.name)), None, None)];
    }
    assert feed[..|feed|] == feed;
  }

  // ---- A faithful feed ----

  type Folder = map<StorageRef, RemoteEntry>

  predicate DistinctEntries(feed: seq<FeedItem>) {
    forall i, j :: 0 <= i < j < |feed| ==> feed[i].storageRef != feed[j].storageRef
  }

  ghost predicate Mentions(feed: seq<FeedItem>, r: StorageRef) {
    exists i :: 0 <= i < |feed| && feed[i].storageRef == r
  }

  /** Each identity once; what is mentioned is as it is now, the rest is as it was. */
  ghost predicate Faithful(was: Folder, now: Folder, feed: seq<FeedItem>) {
    && DistinctEntries(feed)
    && (forall i :: 0 <= i < |feed| ==>
          && feed[i].hasId
          && (feed[i].deleted <==> feed[i].storageRef !in now)
          && (!feed[i].deleted ==> now[feed[i].storageRef] == feed[i].entry))
    && (forall r :: !Mentions(feed, r) ==> (r in was <==> r in now) && (r in was && r in now ==> was[r] == now[r]))
  }

  ghost function LookDetail(items: Items, src: SourceId, r: StorageRef): Option<Detail> {
    if Look(items, src, r).Some? then Some(Look(items, src, r).value.detail) else None
  }

  function AllowedDetail(policy: Policy, folder: Folder, r: StorageRef): Option<Detail> {
    if r in folder && Allowed(policy, folder[r]) then Some(DetailOf(policy, folder[r])) else None
  }

  ghost predicate DescribesAt(policy: Policy, folder: Folder, items: Items, r: StorageRef) {
    LookDetail(items, policy.src, r) == AllowedDetail(policy, folder, r)
  }

  /** The visible items are exactly the allowed files of the folder. */
  ghost predicate Describes(policy: Policy, folder: Folder, items: Items) {
    forall r :: DescribesAt(policy, folder, items, r)
  }

  ghost predicate FromEntry(policy: Policy, feed: seq<FeedItem>, input: ItemInput) {
    exists i :: 0 <= i < |feed| && Accepted(policy, feed[i]) && input == InputOf(policy, feed[i])
  }

  lemma FromLonger(policy: Policy, feed: seq<FeedItem>, input: ItemInput)
    requires feed != [] && DistinctEntries(feed) && FromEntry(policy, feed[..|feed| - 1], input)
    ensures FromEntry(policy, feed, input) && input.storageRef != feed[|feed| - 1].storageRef
  {
    var front := feed[..|feed| - 1];
    var i :| 0 <= i < |front| && Accepted(policy, front[i]) && input == InputOf(policy, front[i]);
    assert feed[i] == front[i];
  }

  /** The upserts are the accepted entries of the feed, one for each identity. */
  lemma {:induction false} CollectedUpserts(policy: Policy, feed: seq<FeedItem>)
    requires DistinctEntries(feed)
    ensures InScope(policy.src, Upserts(policy, feed))
    ensures forall k :: 0 <= k < |Upserts(policy, feed)| ==> FromEntry(policy, feed, Upserts(policy, feed)[k])
    decreases |feed|
  {
    if feed != [] {
      var front, last := Upserts(policy, feed[..|feed| - 1]), feed[|feed| - 1];
      CollectedUpserts(policy, feed[..|feed| - 1]);
      forall k | 0 <= k < |front|
        ensures FromEntry(policy, feed, front[k]) && front[k].storageRef != last.storageRef
      {
        FromLonger(policy, feed, front[k]);
      }
      if Accepted(policy, last) {
        assert FromEntry(policy, feed, InputOf(policy, last));
      }
    }
  }

  lemma {:induction false} CollectsAccepted(policy: Policy, feed: seq<FeedItem>, i: nat)
    requires i < |feed| && Accepted(policy, feed[i])
    ensures InputOf(policy, feed[i]) in Upserts(policy, feed)
    decreases |feed|
  {
    if i < |feed| - 1 {
      assert feed[..|feed| - 1][i] == feed[i];
      CollectsAccepted(policy, feed[..|feed| - 1], i);
    }
  }

  lemma {:induction false} CollectedDeletions(feed: seq<FeedItem>)
    ensures forall r :: r in DeletedSet(feed) <==>
              exists i :: 0 <= i < |feed| && feed[i].deleted && feed[i].storageRef == r
    decreases |feed|
  {
    if feed != [] {
      var front, last := feed[..|feed| - 1], feed[|feed| - 1];
      CollectedDeletions(front);
      forall r
        ensures r in DeletedSet(feed) <==> exists i :: 0 <= i < |feed| && feed[i].deleted && feed[i].storageRef == r
      {
        assert r in DeletedSet(feed) <==> r in DeletedSet(front) || (last.deleted && last.storageRef == r);
        if r in DeletedSet(front) {
          var i :| 0 <= i < |front| && front[i].deleted && front[i].storageRef == r;
          assert feed[i] == front[i];
        }
        if i :| 0 <= i < |feed| && feed[i].deleted && feed[i].storageRef == r && i < |front| {
          assert front[i] == feed[i];
        }
      }
    }
  }

  /** What a feed says of one identity, once collected. */
  lemma CollectedAt(policy: Policy, feed: seq<FeedItem>, i: nat)
    requires DistinctEntries(feed) && i < |feed| && feed[i].hasId
    ensures var r := feed[i].storageRef;
            && (feed[i].deleted <==> r in DeletedSet(feed))
            && (Accepted(policy, feed[i]) <==> r in Identities(Upserts(policy, feed)))
            && (forall k :: 0 <= k < |Upserts(policy, feed)| && Upserts(policy, feed)[k].storageRef == r ==>
                  Upserts(policy, feed)[k] == InputOf(policy, feed[i]))
  {
    CollectedUpserts(policy, feed);
    CollectedDeletions(feed);
    var ups := Upserts(policy, feed);
    forall k | 0 <= k < |ups| && ups[k].storageRef == feed[i].storageRef
      ensures Accepted(policy, feed[i]) && ups[k] == InputOf(policy, feed[i])
    {
      assert FromEntry(policy, feed, ups[k]);
      var j :| 0 <= j < |feed| && Accepted(policy, feed[j]) && ups[k] == InputOf(policy, feed[j]);
      assert j == i;
    }
    if Accepted(policy, feed[i]) {
      CollectsAccepted(policy, feed, i);
      var k :| 0 <= k < |ups| && ups[k] == InputOf(policy, feed[i]);
      assert ups[k].storageRef in Identities(ups);
    }
  }

  lemma NotCollected(policy: Policy, feed: seq<FeedItem>, r: StorageRef)
    requires DistinctEntries(feed) && !Mentions(feed, r)
    ensures r !in DeletedSet(feed) && r !in Identities(Upserts(policy, feed))
  {
    CollectedUpserts(policy, feed);
    CollectedDeletions(feed);
  }

  // ---- Publishing a faithful feed ----

  /** A visible item whose entry the delta path neither writes nor tombstones. */
  ghost predicate Stranded(policy: Policy, items: Items, f: FeedItem) {
    !f.deleted && !Accepted(policy, f) && Look(items, policy.src, f.storageRef).Some?
  }

  ghost predicate StrandedAt(policy: Policy, items: Items, feed: seq<FeedItem>, r: StorageRef) {
    exists i :: 0 <= i < |feed| && feed[i].storageRef == r && Stranded(policy, items, feed[i])
  }

  lemma DeltaAt(env: Env, policy: Policy, items: Items, was: Folder, now: Folder, feed: seq<FeedItem>, at: Time,
                r: StorageRef)
    requires OnePerIdentity(items) && Faithful(was, now, feed) && MintsFresh(env, items, Upserts(policy, feed))
    requires DescribesAt(policy, was, items, r)
    ensures DescribesAt(policy, now, DeltaItems(env, items, policy.src, Upserts(policy, feed), DeletedSet(feed), at), r)
            <==> !StrandedAt(policy, items, feed, r)
  {
    CollectedUpserts(policy, feed);
    DeltaShows(env, items, policy.src, Upserts(policy, feed), DeletedSet(feed), at, policy.src, r);
    if i :| 0 <= i < |feed| && feed[i].storageRef == r {
      CollectedAt(policy, feed, i);
      assert StrandedAt(policy, items, feed, r) <==> Stranded(policy, items, feed[i]);
      if Accepted(policy, feed[i]) {
        var k :| 0 <= k < |Upserts(policy, feed)| && Upserts(policy, feed)[k].storageRef == r;
      }
    } else {
      NotCollected(policy, feed, r);
    }
  }

  /**
   * The delta path keeps the items in step with the folder exactly when no entry of the feed that
   * it skips was visible: a file renamed to an extension that is not allowed, or turned into a
   * folder, is skipped without being tombstoned and stays visible.
   */
  lemma DeltaDescribesIff(env: Env, policy: Policy, items: Items, was: Folder, now: Folder, feed: seq<FeedItem>,
                          at: Time)
    requires OnePerIdentity(items) && Describes(policy, was, items) && Faithful(was, now, feed)
    requires MintsFresh(env, items, Upserts(policy, feed))
    ensures Describes(policy, now, DeltaItems(env, items, policy.src, Upserts(policy, feed), DeletedSet(feed), at))
            <==> forall i :: 0 <= i < |feed| ==> !Stranded(policy, items, feed[i])
  {
    var next := DeltaItems(env, items, policy.src, Upserts(policy, feed), DeletedSet(feed), at);
    forall r
      ensures DescribesAt(policy, now, next, r) <==> !StrandedAt(policy, items, feed, r)
    {
      assert DescribesAt(policy, was, items, r);
      DeltaAt(env, policy, items, was, now, feed, at, r);
    }
    DescribedUnlessStranded(policy, items, next, now, feed);
  }

  lemma DescribedUnlessStranded(policy: Policy, items: Items, next: Items, now: Folder, feed: seq<FeedItem>)
    requires forall r :: DescribesAt(policy, now, next, r) <==> !StrandedAt(policy, items, feed, r)
    ensures Describes(policy, now, next) <==> forall i :: 0 <= i < |feed| ==> !Stranded(policy, items, feed[i])
  {
    if i :| 0 <= i < |feed| && Stranded(policy, items, feed[i]) {
      assert StrandedAt(policy, items, feed, feed[i].storageRef);
      assert !DescribesAt(policy, now, next, feed[i].storageRef);
    } else {
      assert forall r :: DescribesAt(policy, now, next, r);
    }
  }

  /** A first or reset sync always shows exactly the allowed files of the folder. */
  lemma SnapshotDescribes(env: Env, policy: Policy, items: Items, now: Folder, feed: seq<FeedItem>, at: Time)
    requires OnePerIdentity(items) && Faithful(map[], now, feed) && MintsFresh(env, items, Upserts(policy, feed))
    ensures Describes(policy, now, SnapshotItems(env, items, policy.src, Upserts(policy, feed), at))
  {
    CollectedUpserts(policy, feed);
    var ups := Upserts(policy, feed);
    var next := SnapshotItems(env, items, policy.src, ups, at);
    forall r
      ensures DescribesAt(policy, now, next, r)
    {
      SnapshotShows(env, items, policy.src, ups, at, policy.src, r);
      if i :| 0 <= i < |feed| && feed[i].storageRef == r {
        CollectedAt(policy, feed, i);
        if Accepted(policy, feed[i]) {
          var k :| 0 <= k < |ups| && ups[k].storageRef == r;
        }
      } else {
        NotCollected(policy, feed, r);
      }
    }
  }
}
