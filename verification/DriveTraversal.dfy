/**
 * listFolderFilesRecursive, src/clients/graph.ts: a depth-first walk over folders that shortcuts may
 * make cyclic.
 */
module DriveTraversal {
  import opened Basics

  type DriveId = nat
  type ItemId = nat

  datatype Key = Key(driveId: DriveId, itemId: ItemId)

  datatype RemoteItem = RemoteItem(id: Option<ItemId>, driveId: Option<DriveId>)

  datatype DriveItem = DriveItem(id: ItemId, driveId: Option<DriveId>, name: string, isFolder: bool,
                                 remoteItem: Option<RemoteItem>)

  datatype File = File(item: DriveItem, driveId: DriveId, path: string)

  /** What the service lists for each folder it knows; listing any other folder fails. */
  type Tree = map<Key, seq<DriveItem>>

  /** A shortcut leads to the folder it points at. */
  function ResolveTarget(item: DriveItem, fallback: DriveId): Key {
    var own := Or(item.driveId, fallback);
    match item.remoteItem
    case None => Key(own, item.id)
    case Some(remote) => Key(Or(remote.driveId, own), Or(remote.id, item.id))
  }

  /** Where a folder leads: what a shortcut says of its target goes before what is known of the shortcut itself. */
  lemma ShortcutsLead(item: DriveItem, fallback: DriveId)
    ensures item.remoteItem == None ==>
              ResolveTarget(item, fallback).itemId == item.id &&
              Some(ResolveTarget(item, fallback).driveId) ==
                if item.driveId == None then Some(fallback) else item.driveId
    ensures forall drive, id :: item.remoteItem == Some(RemoteItem(Some(id), Some(drive))) ==>
              ResolveTarget(item, fallback) == Key(drive, id)
    ensures forall id :: item.remoteItem == Some(RemoteItem(Some(id), None)) ==>
              ResolveTarget(item, fallback) == ResolveTarget(item.(id := id, remoteItem := None), fallback)
    ensures forall drive :: item.remoteItem == Some(RemoteItem(None, Some(drive))) ==>
              ResolveTarget(item, fallback) == Key(drive, item.id)
    ensures item.remoteItem == Some(RemoteItem(None, None)) ==>
              ResolveTarget(item, fallback) == ResolveTarget(item.(remoteItem := None), fallback)
  {
  }

  function ChildPath(prefix: string, name: string): string {
    if prefix == "" then name else if name == "" then prefix else prefix + "/" + name
  }

  // ---- Walks ----

  /** The folder at the end of a walk that takes the listed child at each step. */
  function End(tree: Tree, from: Key, steps: seq<nat>): Option<Key>
    decreases |steps|
  {
    if steps == [] then Some(from)
    else if from !in tree || steps[0] >= |tree[from]| || !tree[from][steps[0]].isFolder then None
    else End(tree, ResolveTarget(tree[from][steps[0]], from.driveId), steps[1..])
  }

  /** The path that a walk spells. */
  function Spell(tree: Tree, from: Key, prefix: string, steps: seq<nat>): string
    decreases |steps|
  {
    if steps == [] then prefix
    else if from !in tree || steps[0] >= |tree[from]| then prefix
    else Spell(tree, ResolveTarget(tree[from][steps[0]], from.driveId), ChildPath(prefix, tree[from][steps[0]].name),
               steps[1..])
  }

  /** The names of the folders on a walk. */
  function Names(tree: Tree, from: Key, steps: seq<nat>): seq<string>
    decreases |steps|
  {
    if steps == [] || from !in tree || steps[0] >= |tree[from]| then []
    else
      var child := tree[from][steps[0]];
      [child.name] + Names(tree, ResolveTarget(child, from.driveId), steps[1..])
  }

  /** Names with a slash between each two. */
  function Slashed(names: seq<string>): string {
    if names == [] then "" else if |names| == 1 then names[0] else names[0] + "/" + Slashed(names[1..])
  }

  lemma SlashedFront(a: string, b: string, rest: seq<string>)
    ensures Slashed([a + "/" + b] + rest) == Slashed([a] + ([b] + rest))
  {
    assert ([a] + ([b] + rest))[1..] == [b] + rest;
    assert ([a + "/" + b] + rest)[1..] == rest && ([b] + rest)[1..] == rest;
  }

  /** A path is the names on the walk with slashes between them. */
  lemma {:induction false} SpellsNames(tree: Tree, from: Key, prefix: string, steps: seq<nat>)
    requires forall name :: name in Names(tree, from, steps) ==> name != ""
    ensures Spell(tree, from, prefix, steps) ==
            Slashed((if prefix == "" then [] else [prefix]) + Names(tree, from, steps))
    decreases |steps|
  {
    if steps != [] && from in tree && steps[0] < |tree[from]| {
      var child := tree[from][steps[0]];
      var next, rest := ResolveTarget(child, from.driveId), Names(tree, ResolveTarget(child, from.driveId), steps[1..]);
      assert forall name :: name in rest ==> name in Names(tree, from, steps);
      assert child.name in Names(tree, from, steps);
      SpellsNames(tree, next, ChildPath(prefix, child.name), steps[1..]);
      SlashedFront(prefix, child.name, rest);
      assert Names(tree, from, steps) == [child.name] + rest;
      assert [] + ([child.name] + rest) == [child.name] + rest;
    }
  }

  ghost predicate Reachable(tree: Tree, from: Key, k: Key) {
    exists steps :: End(tree, from, steps) == Some(k)
  }

  /** One entry of one listing. */
  datatype Origin = Origin(folder: Key, position: nat)

  predicate ListsFile(tree: Tree, o: Origin) {
    o.folder in tree && o.position < |tree[o.folder]| && !tree[o.folder][o.position].isFolder
  }

  function FileOf(tree: Tree, o: Origin, prefix: string): File
    requires ListsFile(tree, o)
  {
    var item := tree[o.folder][o.position];
    File(item, Or(item.driveId, o.folder.driveId), ChildPath(prefix, item.name))
  }

  /** A file keeps its listing and its own drive, or is in the drive of the folder that lists it. */
  lemma FilesKeepTheirDrive(tree: Tree, o: Origin, prefix: string)
    requires ListsFile(tree, o)
    ensures var item, f := tree[o.folder][o.position], FileOf(tree, o, prefix);
            && f.item == item
            && (item.driveId == None ==> f.driveId == o.folder.driveId)
            && (forall drive :: item.driveId == Some(drive) ==> f.driveId == drive)
            && (prefix == "" ==> f.path == item.name)
            && (prefix != "" && item.name != "" ==> f.path == prefix + "/" + item.name)
  {
  }

  /** The file stands at the end of a walk that spells its path. */
  ghost predicate FoundFrom(tree: Tree, from: Key, prefix: string, o: Origin, f: File) {
    && ListsFile(tree, o)
    && exists steps ::
         End(tree, from, steps) == Some(o.folder) && f == FileOf(tree, o, Spell(tree, from, prefix, steps))
  }

  function FolderAt(tree: Tree, k: Key, i: nat): Key
    requires k in tree && i < |tree[k]|
  {
    ResolveTarget(tree[k][i], k.driveId)
  }

  lemma StepReaches(tree: Tree, from: Key, i: nat, k: Key)
    requires from in tree && i < |tree[from]| && tree[from][i].isFolder && Reachable(tree, FolderAt(tree, from, i), k)
    ensures Reachable(tree, from, k)
  {
    var steps :| End(tree, FolderAt(tree, from, i), steps) == Some(k);
    assert ([i] + steps)[1..] == steps;
    assert End(tree, from, [i] + steps) == Some(k);
  }

  lemma StepFinds(tree: Tree, from: Key, i: nat, prefix: string, o: Origin, f: File)
    requires from in tree && i < |tree[from]| && tree[from][i].isFolder
    requires FoundFrom(tree, FolderAt(tree, from, i), ChildPath(prefix, tree[from][i].name), o, f)
    ensures FoundFrom(tree, from, prefix, o, f)
  {
    var next, path := FolderAt(tree, from, i), ChildPath(prefix, tree[from][i].name);
    var steps :| End(tree, next, steps) == Some(o.folder) && f == FileOf(tree, o, Spell(tree, next, path, steps));
    assert ([i] + steps)[1..] == steps;
    assert End(tree, from, [i] + steps) == Some(o.folder);
  }

  /** Every folder that this one lists has been visited. */
  predicate Explored(tree: Tree, visited: set<Key>, k: Key, upTo: nat) {
    k in tree && forall i :: 0 <= i < upTo && i < |tree[k]| && tree[k][i].isFolder ==> FolderAt(tree, k, i) in visited
  }

  lemma {:induction false} ClosedIsEverything(tree: Tree, visited: set<Key>, from: Key, steps: seq<nat>)
    requires from in visited && forall k :: k in visited ==> k in tree && Explored(tree, visited, k, |tree[k]|)
    ensures End(tree, from, steps).Some? ==> End(tree, from, steps).value in visited
    decreases |steps|
  {
    if steps != [] && steps[0] < |tree[from]| && tree[from][steps[0]].isFolder {
      assert Explored(tree, visited, from, |tree[from]|);
      ClosedIsEverything(tree, visited, FolderAt(tree, from, steps[0]), steps[1..]);
    }
  }

  // ---- The state of a traversal ----

  /** origins says where each file was listed. */
  datatype State = State(visited: set<Key>, files: seq<File>, origins: seq<Origin>)

  ghost predicate Sound(tree: Tree, s: State) {
    && |s.files| == |s.origins|
    && (forall i, j :: 0 <= i < j < |s.origins| ==> s.origins[i] != s.origins[j])
    && forall n :: 0 <= n < |s.origins| ==> s.origins[n].folder in s.visited
  }

  ghost predicate Extends(s: State, next: State) {
    s.visited <= next.visited && s.files <= next.files && s.origins <= next.origins
  }

  /** The files of the folder before position upTo have been collected. */
  ghost predicate Collected(tree: Tree, s: State, k: Key, upTo: nat) {
    forall i: nat :: i < upTo && ListsFile(tree, Origin(k, i)) ==> Origin(k, i) in s.origins
  }

  ghost predicate Done(tree: Tree, s: State, k: Key) {
    k in tree && Explored(tree, s.visited, k, |tree[k]|) && Collected(tree, s, k, |tree[k]|)
  }

  /** The files added since s come from folders new since s, at the end of a walk from key. */
  ghost predicate NewFiles(tree: Tree, s: State, next: State, key: Key, prefix: string) {
    |s.files| <= |next.files| == |next.origins| &&
    forall n :: |s.files| <= n < |next.files| ==>
      next.origins[n].folder !in s.visited && FoundFrom(tree, key, prefix, next.origins[n], next.files[n])
  }

  ghost predicate NewFolders(tree: Tree, s: State, next: State, key: Key, pending: set<Key>) {
    forall k :: k in next.visited - s.visited - pending ==> Done(tree, next, k) && Reachable(tree, key, k)
  }

  /** What one whole call of visit does. */
  ghost predicate Visited(tree: Tree, s: State, next: State, key: Key, prefix: string) {
    && Sound(tree, next) && Extends(s, next) && key in next.visited
    && NewFolders(tree, s, next, key, {}) && NewFiles(tree, s, next, key, prefix)
  }

  /** The call on key has gone through its children before i. */
  ghost predicate InProgress(tree: Tree, s: State, next: State, key: Key, prefix: string, i: nat) {
    && Sound(tree, next) && Extends(s, next) && key in next.visited && key !in s.visited && key in tree
    && NewFolders(tree, s, next, key, {key}) && NewFiles(tree, s, next, key, prefix)
    && Explored(tree, next.visited, key, i) && Collected(tree, next, key, i)
    && forall n :: 0 <= n < |next.origins| && next.origins[n].folder == key ==> next.origins[n].position < i
  }

  lemma DoneStays(tree: Tree, s: State, next: State, k: Key)
    requires Extends(s, next) && Done(tree, s, k)
    ensures Done(tree, next, k)
  {
    forall i: nat | i < |tree[k]| && ListsFile(tree, Origin(k, i))
      ensures Origin(k, i) in next.origins
    {
      assert Origin(k, i) in s.origins;
    }
  }

  lemma SelfReaches(tree: Tree, key: Key)
    ensures Reachable(tree, key, key)
  {
    assert End(tree, key, []) == Some(key);
  }

  /** Nothing done yet but marking the folder. */
  lemma Marked(tree: Tree, s: State, key: Key, prefix: string)
    requires Sound(tree, s) && key in tree && key !in s.visited
    ensures InProgress(tree, s, s.(visited := s.visited + {key}), key, prefix, 0)
  {
  }

  lemma FileAdded(tree: Tree, s: State, now: State, key: Key, prefix: string, i: nat)
    requires InProgress(tree, s, now, key, prefix, i) && ListsFile(tree, Origin(key, i))
    ensures InProgress(tree, s, now.(files := now.files + [FileOf(tree, Origin(key, i), prefix)],
                                     origins := now.origins + [Origin(key, i)]), key, prefix, i + 1)
  {
    var next := now.(files := now.files + [FileOf(tree, Origin(key, i), prefix)],
                     origins := now.origins + [Origin(key, i)]);
    assert FoundFrom(tree, key, prefix, Origin(key, i), FileOf(tree, Origin(key, i), prefix)) by {
      assert End(tree, key, []) == Some(key) && Spell(tree, key, prefix, []) == prefix;
    }
    forall k | k in next.visited - s.visited - {key}
      ensures Done(tree, next, k)
    {
      DoneStays(tree, now, next, k);
    }
  }

  lemma FolderVisited(tree: Tree, s: State, now: State, next: State, key: Key, prefix: string, i: nat)
    requires InProgress(tree, s, now, key, prefix, i) && i < |tree[key]| && tree[key][i].isFolder
    requires Visited(tree, now, next, FolderAt(tree, key, i), ChildPath(prefix, tree[key][i].name))
    ensures InProgress(tree, s, next, key, prefix, i + 1)
  {
    forall k | k in next.visited - s.visited - {key}
      ensures Done(tree, next, k) && Reachable(tree, key, k)
    {
      if k in now.visited {
        DoneStays(tree, now, next, k);
      } else {
        StepReaches(tree, key, i, k);
      }
    }
    forall n | |s.files| <= n < |next.files|
      ensures next.origins[n].folder !in s.visited && FoundFrom(tree, key, prefix, next.origins[n], next.files[n])
    {
      if n < |now.files| {
        assert next.origins[n] == now.origins[n] && next.files[n] == now.files[n];
      } else {
        StepFinds(tree, key, i, prefix, next.origins[n], next.files[n]);
      }
    }
    assert Collected(tree, next, key, i + 1) by {
      assert forall j: nat :: j < i && ListsFile(tree, Origin(key, j)) ==> Origin(key, j) in now.origins;
    }
    forall n | 0 <= n < |next.origins| && next.origins[n].folder == key
      ensures next.origins[n].position < i + 1
    {
      assert n < |now.origins| ==> next.origins[n] == now.origins[n];
    }
  }

  lemma Finished(tree: Tree, s: State, next: State, key: Key, prefix: string)
    requires key in tree && InProgress(tree, s, next, key, prefix, |tree[key]|)
    ensures Visited(tree, s, next, key, prefix)
  {
    SelfReaches(tree, key);
  }

  // ---- The traversal ----

  class Traversal {
    const tree: Tree
    var visited: set<Key>
    var files: seq<File>
    ghost var origins: seq<Origin>

    constructor (tree: Tree)
      ensures this.tree == tree && View() == State({}, [], [])
    {
      this.tree := tree;
      visited, files, origins := {}, [], [];
    }

    ghost function View(): State
      reads this
    {
      State(visited, files, origins)
    }

    /** The recursive visit; false is a listing that failed. */
    method Visit(key: Key, prefix: string) returns (ok: bool)
      requires Sound(tree, View())
      modifies this
      ensures ok ==> Visited(tree, old(View()), View(), key, prefix)
      ensures !ok ==> exists k :: Reachable(tree, key, k) && k !in tree
      decreases tree.Keys - visited
    {
      ghost var before := View();
      if key in visited { return true; }
      visited := visited + {key};
      if key !in tree {
        SelfReaches(tree, key);
        return false;
      }
      Marked(tree, before, key, prefix);
      var children := tree[key];
      for i := 0 to |children|
        invariant InProgress(tree, before, View(), key, prefix, i)
      {
        var child := children[i];
        var childPath := ChildPath(prefix, child.name);
        ghost var now := View();
        if child.isFolder {
          var target := ResolveTarget(child, key.driveId);
          ok := Visit(target, childPath);
          if !ok {
            ghost var k :| Reachable(tree, target, k) && k !in tree;
            StepReaches(tree, key, i, k);
            return false;
          }
          FolderVisited(tree, before, now, View(), key, prefix, i);
          continue;
        }
        FileAdded(tree, before, now, key, prefix, i);
        files := files + [File(child, Or(child.driveId, key.driveId), childPath)];
        origins := origins + [Origin(key, i)];
      }
      Finished(tree, before, View(), key, prefix);
      return true;
    }
  }

  /** All reachable folders can be listed. */
  ghost predicate AllListable(tree: Tree, root: Key) {
    forall k :: Reachable(tree, root, k) ==> k in tree
  }

  /** files holds, once for each listing, every file listed by a reachable folder, and nothing else. */
  ghost predicate ExactlyTheFiles(tree: Tree, root: Key, files: seq<File>, origins: seq<Origin>) {
    && |files| == |origins|
    && (forall i, j :: 0 <= i < j < |origins| ==> origins[i] != origins[j])
    && (forall o :: o in origins <==> ListsFile(tree, o) && Reachable(tree, root, o.folder))
    && forall n :: 0 <= n < |files| ==> FoundFrom(tree, root, "", origins[n], files[n])
  }

  /** A visit that starts with nothing visited visits exactly the reachable folders. */
  lemma WholeTraversal(tree: Tree, root: Key, s: State)
    requires Visited(tree, State({}, [], []), s, root, "")
    ensures forall k :: k in s.visited <==> Reachable(tree, root, k)
    ensures AllListable(tree, root) && ExactlyTheFiles(tree, root, s.files, s.origins)
  {
    forall k
      ensures k in s.visited <==> Reachable(tree, root, k)
    {
      if Reachable(tree, root, k) {
        var steps :| End(tree, root, steps) == Some(k);
        assert forall v :: v in s.visited ==> Done(tree, s, v);
        ClosedIsEverything(tree, s.visited, root, steps);
      }
    }
    forall o | ListsFile(tree, o) && Reachable(tree, root, o.folder)
      ensures o in s.origins
    {
      assert Done(tree, s, o.folder) && o == Origin(o.folder, o.position);
    }
    forall n | 0 <= n < |s.files|
      ensures FoundFrom(tree, root, "", s.origins[n], s.files[n])
    {
    }
  }

  /** It ends on every finite tree, cyclic or not, and fails only when some reachable folder cannot be listed. */
  method ListFolderFilesRecursive(tree: Tree, root: Key) returns (r: Option<seq<File>>, ghost origins: seq<Origin>)
    ensures r.Some? <==> AllListable(tree, root)
    ensures r.Some? ==> ExactlyTheFiles(tree, root, r.value, origins)
  {
    var t := new Traversal(tree);
    var ok := t.Visit(root, "");
    origins := t.origins;
    if !ok { return None, origins; }
    WholeTraversal(tree, root, t.View());
    return Some(t.files), origins;
  }
}
