/**
 * Any number of concurrent syncs of one source, each cut at every await, src/catalog/onedrive-sync.ts
 * over the publications of src/catalog/store.ts. A cursor is the version of the remote folder its
 * feed reached.
 */
module CatalogSyncRuns {
  import opened Basics
  import opened CatalogItems
  import opened CatalogMeaning
  import opened CatalogStore
  import opened CatalogSync

  /** Where one run of syncOneDriveCatalogSource stands; retry is the attempt after a 410. */
  datatype Proc =
    | Fetching(revision: Revision, cursor: Option<Cursor>, retry: bool)
    | Clearing(revision: Revision)
    | Listing(revision: Revision)
    | Publishing(revision: Revision, cursor: Option<Cursor>, feed: seq<FeedItem>, link: Cursor)
    | PublishingList(revision: Revision, listed: seq<ItemInput>)
    | Stopped

  /** issued holds every revision the source has had. */
  datatype Sys = Sys(source: Source, items: Items, remote: seq<Folder>, issued: set<Revision>, procs: map<nat, Proc>)

  datatype Step =
    | RemoteChange(folder: Folder)
    | Start(proc: nat)
    | Fetched(proc: nat, feed: seq<FeedItem>, link: Cursor)
    | ResetError(proc: nat)
    | UnsupportedError(proc: nat)
    | Clear(proc: nat)
    | Listed(proc: nat, listed: seq<ItemInput>)
    | Publish(proc: nat, env: Env, at: Time, uuid: nat)
    | MarkFailure(expected: Revision, at: Time, code: string)
    | Stop(proc: nat)
    | Elsewhere(items: Items)

  ghost predicate Enabled(policy: Policy, s: Sys, step: Step) {
    match step
    case RemoteChange(folder) => true
    case Start(p) => p !in s.procs
    case Fetched(p, feed, link) =>
      && p in s.procs && s.procs[p].Fetching? && link < |s.remote|
      && (s.procs[p].cursor.Some? ==> s.procs[p].cursor.value <= link)
      && Faithful(if s.procs[p].cursor.Some? then s.remote[s.procs[p].cursor.value] else map[], s.remote[link], feed)
    case ResetError(p) => p in s.procs && s.procs[p].Fetching?
    case UnsupportedError(p) => p in s.procs && s.procs[p].Fetching?
    case Clear(p) => p in s.procs && s.procs[p].Clearing?
    case Listed(p, listed) => p in s.procs && s.procs[p].Listing?
    case Publish(p, env, at, uuid) =>
      && p in s.procs && Opaque(uuid) !in s.issued
      && ((s.procs[p].Publishing? && MintsFresh(env, s.items, Upserts(policy, s.procs[p].feed))) ||
          (s.procs[p].PublishingList? && MintsFresh(env, s.items, s.procs[p].listed)))
    case MarkFailure(_, _, _) => true
    case Stop(p) => p in s.procs
    case Elsewhere(items) =>
      OnePerIdentity(items) && forall r :: Look(items, policy.src, r) == Look(s.items, policy.src, r)
  }

  function Moved(s: Sys, p: nat, to: Proc): Sys {
    s.(procs := s.procs[p := to])
  }

  /** promoteSource and the new items. */
  ghost function Promote(s: Sys, items: Items, count: nat, cursor: Option<Cursor>, at: Time, uuid: nat): Sys {
    var source := Promoted(s.source, uuid, count, at, cursor);
    s.(source := source, items := items, issued := s.issued + {source.revision})
  }

  ghost function Next(policy: Policy, s: Sys, step: Step): Sys
    requires Enabled(policy, s, step)
  {
    match step
    case RemoteChange(folder) => s.(remote := s.remote + [folder])
    case Start(p) => Moved(s, p, Fetching(s.source.revision, s.source.syncCursor, false))
    case Fetched(p, feed, link) => Moved(s, p, Publishing(s.procs[p].revision, s.procs[p].cursor, feed, link))
    case ResetError(p) =>
      Moved(s, p, if s.procs[p].cursor.Some? then Clearing(s.procs[p].revision) else Stopped)
    case UnsupportedError(p) => Moved(s, p, if s.procs[p].retry then Stopped else Listing(s.procs[p].revision))
    case Clear(p) =>
      Moved(s.(source := s.source.(syncCursor := None)), p, Fetching(s.procs[p].revision, None, true))
    case Listed(p, listed) => Moved(s, p, PublishingList(s.procs[p].revision, listed))
    case Publish(p, env, at, uuid) => Moved(Published(policy, s, s.procs[p], env, at, uuid), p, Stopped)
    case MarkFailure(expected, at, code) =>
      if s.source.revision != expected then s
      else s.(source := s.source.(healthStatus := Unavailable, lastAttemptAt := Some(at), lastFailureAt := Some(at),
                                  lastErrorCode := Some(code)))
    case Stop(p) => Moved(s, p, Stopped)
    case Elsewhere(items) => s.(items := items)
  }

  /** The publication a sync ends with; a stale revision or an input out of scope changes nothing. */
  ghost function Published(policy: Policy, s: Sys, p: Proc, env: Env, at: Time, uuid: nat): Sys
    requires p.Publishing? || p.PublishingList?
  {
    var inputs := if p.Publishing? then Upserts(policy, p.feed) else p.listed;
    if s.source.revision != p.revision || !InScope(policy.src, inputs) then s
    else if p.Publishing? && p.cursor.Some? then
      var items := DeltaItems(env, s.items, policy.src, inputs, DeletedSet(p.feed), at);
      Promote(s, items, |ActiveIds(items, policy.src)|, Some(p.link), at, uuid)
    else
      Promote(s, SnapshotItems(env, s.items, policy.src, inputs, at), |inputs|,
              if p.Publishing? then Some(p.link) else None, at, uuid)
  }

  /** The premise on the folder: a file that was allowed is allowed as long as it exists. */
  ghost predicate NoCrossing(policy: Policy, remote: seq<Folder>) {
    forall i, j, r :: 0 <= i <= j < |remote| && r in remote[i] && r in remote[j] && Allowed(policy, remote[i][r]) ==>
      Allowed(policy, remote[j][r])
  }

  // ---- The invariant ----

  /** The items are what the cursor's version of the folder says. */
  ghost predicate InStep(policy: Policy, s: Sys, cursor: Option<Cursor>) {
    cursor.Some? ==> cursor.value < |s.remote| && Describes(policy, s.remote[cursor.value], s.items)
  }

  function CursorOf(p: Proc): Option<Cursor> {
    if p.Fetching? || p.Publishing? then p.cursor else None
  }

  /** A sync that still holds the current revision holds a cursor that is still right. */
  ghost predicate ProcKeeps(policy: Policy, s: Sys, p: Proc) {
    && (p != Stopped ==> p.revision in s.issued)
    && (CursorOf(p).Some? ==> CursorOf(p).value < |s.remote|)
    && (p != Stopped && p.revision == s.source.revision ==> InStep(policy, s, CursorOf(p)))
  }

  ghost predicate FeedKept(s: Sys, p: Proc) {
    p.Publishing? ==>
      && p.link < |s.remote|
      && (p.cursor.Some? ==> p.cursor.value <= p.link)
      && Faithful(if p.cursor.Some? then s.remote[p.cursor.value] else map[], s.remote[p.link], p.feed)
  }

  /** A revision that NextRevision will still produce has not been issued. */
  ghost predicate Issued(s: Sys) {
    && s.source.revision in s.issued
    && (forall r :: r in s.issued && r.Numeric? ==> s.source.revision.Numeric? ==> r.n <= s.source.revision.n)
  }

  ghost predicate Inv(policy: Policy, s: Sys) {
    && OnePerIdentity(s.items) && Issued(s)
    && InStep(policy, s, s.source.syncCursor)
    && (forall p :: p in s.procs ==> ProcKeeps(policy, s, s.procs[p]) && FeedKept(s, s.procs[p]))
  }

  // ---- Every step keeps it ----

  /** NextRevision never gives back a revision the source has had. */
  lemma RevisionIsNew(s: Sys, uuid: nat)
    requires Issued(s) && Opaque(uuid) !in s.issued
    ensures NextRevision(s.source.revision, uuid) !in s.issued
    ensures var next := NextRevision(s.source.revision, uuid);
            forall r :: r in s.issued + {next} && r.Numeric? && next.Numeric? ==> r.n <= next.n
  {
  }

  /** With no file crossing the filter, the delta path strands nothing. */
  lemma NothingStranded(policy: Policy, remote: seq<Folder>, items: Items, c: Cursor, link: Cursor, feed: seq<FeedItem>)
    requires NoCrossing(policy, remote) && c <= link < |remote|
    requires Describes(policy, remote[c], items) && Faithful(remote[c], remote[link], feed)
    ensures forall i :: 0 <= i < |feed| ==> !Stranded(policy, items, feed[i])
  {
    forall i | 0 <= i < |feed|
      ensures !Stranded(policy, items, feed[i])
    {
      var r := feed[i].storageRef;
      assert DescribesAt(policy, remote[c], items, r);
      if Look(items, policy.src, r).Some? && !feed[i].deleted {
        assert r in remote[c] && Allowed(policy, remote[c][r]);
        assert r in remote[link] && Allowed(policy, remote[link][r]);
      }
    }
  }

  /** What a publication with the current revision leaves behind. */
  lemma PublishedInStep(policy: Policy, s: Sys, p: Proc, env: Env, at: Time, uuid: nat)
    requires OnePerIdentity(s.items) && NoCrossing(policy, s.remote)
    requires (p.PublishingList? || p.Publishing?) && s.source.revision == p.revision
    requires FeedKept(s, p) && ProcKeeps(policy, s, p)
    requires MintsFresh(env, s.items, if p.Publishing? then Upserts(policy, p.feed) else p.listed)
    ensures var next := Published(policy, s, p, env, at, uuid);
            OnePerIdentity(next.items) && (next == s || InStep(policy, next, next.source.syncCursor))
  {
    var inputs := if p.Publishing? then Upserts(policy, p.feed) else p.listed;
    if InScope(policy.src, inputs) {
      if p.Publishing? && p.cursor.Some? {
        DeltaShows(env, s.items, policy.src, inputs, DeletedSet(p.feed), at, policy.src, Graph(0, 0));
        NothingStranded(policy, s.remote, s.items, p.cursor.value, p.link, p.feed);
        DeltaDescribesIff(env, policy, s.items, s.remote[p.cursor.value], s.remote[p.link], p.feed, at);
      } else {
        SnapshotShows(env, s.items, policy.src, inputs, at, policy.src, Graph(0, 0));
        if p.Publishing? {
          SnapshotDescribes(env, policy, s.items, s.remote[p.link], p.feed, at);
        }
      }
    }
  }

  /** Every other sync loses its hold on the revision. */
  lemma PromotedFences(policy: Policy, s: Sys, next: Sys, p: Proc)
    requires ProcKeeps(policy, s, p) && next.remote == s.remote
    requires next.source.revision !in s.issued && s.issued <= next.issued
    ensures ProcKeeps(policy, next, p)
  {
  }

  lemma PublishedIssues(policy: Policy, s: Sys, p: Proc, env: Env, at: Time, uuid: nat)
    requires Issued(s) && Opaque(uuid) !in s.issued && (p.Publishing? || p.PublishingList?)
    ensures var next := Published(policy, s, p, env, at, uuid);
            && next.remote == s.remote && next.procs == s.procs && s.issued <= next.issued && Issued(next)
            && (next == s || next.source.revision !in s.issued)
  {
    RevisionIsNew(s, uuid);
  }

  lemma PublishKeepsInv(policy: Policy, s: Sys, pid: nat, env: Env, at: Time, uuid: nat)
    requires Inv(policy, s) && NoCrossing(policy, s.remote) && Enabled(policy, s, Publish(pid, env, at, uuid))
    ensures Inv(policy, Next(policy, s, Publish(pid, env, at, uuid)))
  {
    var next := Published(policy, s, s.procs[pid], env, at, uuid);
    PublishedIssues(policy, s, s.procs[pid], env, at, uuid);
    if next != s {
      PublishedInStep(policy, s, s.procs[pid], env, at, uuid);
      forall p | p in s.procs
        ensures ProcKeeps(policy, next, s.procs[p])
      {
        PromotedFences(policy, s, next, s.procs[p]);
      }
      assert forall p :: p in s.procs ==> FeedKept(next, s.procs[p]);
    }
  }

  lemma LooksDescribe(policy: Policy, folder: Folder, items: Items, other: Items)
    requires forall r :: Look(other, policy.src, r) == Look(items, policy.src, r)
    requires Describes(policy, folder, items)
    ensures Describes(policy, folder, other)
  {
    forall r
      ensures DescribesAt(policy, folder, other, r)
    {
      assert DescribesAt(policy, folder, items, r);
    }
  }

  lemma ElsewhereKeepsInv(policy: Policy, s: Sys, items: Items)
    requires Inv(policy, s) && Enabled(policy, s, Elsewhere(items))
    ensures Inv(policy, Next(policy, s, Elsewhere(items)))
  {
    var next := s.(items := items);
    forall c: Option<Cursor> | InStep(policy, s, c)
      ensures InStep(policy, next, c)
    {
      if c.Some? {
        LooksDescribe(policy, s.remote[c.value], s.items, items);
      }
    }
    assert forall p :: p in s.procs ==> ProcKeeps(policy, next, s.procs[p]) && FeedKept(next, s.procs[p]);
  }

  lemma RemoteChangeKeepsInv(policy: Policy, s: Sys, folder: Folder)
    requires Inv(policy, s)
    ensures Inv(policy, Next(policy, s, RemoteChange(folder)))
  {
    var next := s.(remote := s.remote + [folder]);
    forall p | p in s.procs
      ensures ProcKeeps(policy, next, s.procs[p]) && FeedKept(next, s.procs[p])
    {
      assert ProcKeeps(policy, s, s.procs[p]) && FeedKept(s, s.procs[p]);
    }
  }

  /** A step that keeps the revision, and keeps the cursor or drops it. */
  lemma QuietKeepsInv(policy: Policy, s: Sys, next: Sys)
    requires Inv(policy, s)
    requires next.items == s.items && next.remote == s.remote && next.issued == s.issued
    requires next.source.revision == s.source.revision
    requires next.source.syncCursor == s.source.syncCursor || next.source.syncCursor == None
    requires forall p :: p in next.procs ==>
      (p in s.procs && next.procs[p] == s.procs[p]) ||
      (ProcKeeps(policy, s, next.procs[p]) && FeedKept(s, next.procs[p]))
    ensures Inv(policy, next)
  {
    forall p | p in next.procs
      ensures ProcKeeps(policy, next, next.procs[p]) && FeedKept(next, next.procs[p])
    {
      assert ProcKeeps(policy, s, next.procs[p]) && FeedKept(s, next.procs[p]);
    }
  }

  lemma MoveKeepsInv(policy: Policy, s: Sys, p: nat, to: Proc)
    requires Inv(policy, s) && ProcKeeps(policy, s, to) && FeedKept(s, to)
    ensures Inv(policy, Moved(s, p, to))
  {
    QuietKeepsInv(policy, s, Moved(s, p, to));
  }

  lemma StepKeepsInv(policy: Policy, s: Sys, step: Step)
    requires Inv(policy, s) && NoCrossing(policy, s.remote) && Enabled(policy, s, step)
    ensures Inv(policy, Next(policy, s, step))
  {
    match step
    case Publish(p, env, at, uuid) => PublishKeepsInv(policy, s, p, env, at, uuid);
    case Elsewhere(items) => ElsewhereKeepsInv(policy, s, items);
    case RemoteChange(folder) => RemoteChangeKeepsInv(policy, s, folder);
    case Start(p) => MoveKeepsInv(policy, s, p, Fetching(s.source.revision, s.source.syncCursor, false));
    case Stop(p) => MoveKeepsInv(policy, s, p, Stopped);
    case _ => HeldStepKeepsInv(policy, s, step);
  }

  /** The steps of one running sync short of its publication, and a failure mark. */
  lemma HeldStepKeepsInv(policy: Policy, s: Sys, step: Step)
    requires Inv(policy, s) && Enabled(policy, s, step)
    requires !step.Publish? && !step.Elsewhere? && !step.RemoteChange? && !step.Start? && !step.Stop?
    ensures Inv(policy, Next(policy, s, step))
  {
    if step.MarkFailure? || step.Clear? {
      QuietKeepsInv(policy, s, Next(policy, s, step));
    } else {
      MoveKeepsInv(policy, s, step.proc, Next(policy, s, step).procs[step.proc]);
    }
  }

  // ---- Whole runs ----

  ghost predicate Initial(policy: Policy, s: Sys) {
    && OnePerIdentity(s.items) && s.procs == map[]
    && s.source.id == policy.src && s.source.syncCursor.None? && s.issued == {s.source.revision}
  }

  ghost predicate Run(policy: Policy, states: seq<Sys>, steps: seq<Step>) {
    && |states| == |steps| + 1
    && Initial(policy, states[0])
    && forall i :: 0 <= i < |steps| ==> Enabled(policy, states[i], steps[i]) &&
                                        states[i + 1] == Next(policy, states[i], steps[i])
  }

  lemma StepGrows(policy: Policy, s: Sys, step: Step)
    requires Enabled(policy, s, step)
    ensures var next := Next(policy, s, step);
            && s.remote <= next.remote && s.issued <= next.issued
            && (next.source.revision == s.source.revision || next.source.revision in next.issued - s.issued ||
                !Issued(s))
  {
    if step.Publish? && Issued(s) {
      RevisionIsNew(s, step.uuid);
    }
  }

  lemma PrefixHasNoCrossing(policy: Policy, remote: seq<Folder>, longer: seq<Folder>)
    requires remote <= longer && NoCrossing(policy, longer)
    ensures NoCrossing(policy, remote)
  {
    forall i, j, r | 0 <= i <= j < |remote| && r in remote[i] && r in remote[j] && Allowed(policy, remote[i][r])
      ensures Allowed(policy, remote[j][r])
    {
      assert longer[i] == remote[i] && longer[j] == remote[j];
    }
  }

  ghost predicate Grows(s: Sys, t: Sys) {
    s.remote <= t.remote && s.issued <= t.issued
  }

  lemma {:induction false} GrowsChain(states: seq<Sys>, i: nat, j: nat)
    requires i <= j < |states| && forall k :: 0 <= k < |states| - 1 ==> Grows(states[k], states[k + 1])
    ensures Grows(states[i], states[j])
    decreases j - i
  {
    if i < j {
      GrowsChain(states, i, j - 1);
      assert Grows(states[j - 1], states[j]);
    }
  }

  lemma RemoteGrows(policy: Policy, states: seq<Sys>, steps: seq<Step>, i: nat, j: nat)
    requires Run(policy, states, steps) && i <= j < |states|
    ensures Grows(states[i], states[j])
  {
    forall k | 0 <= k < |states| - 1
      ensures Grows(states[k], states[k + 1])
    {
      StepGrows(policy, states[k], steps[k]);
    }
    GrowsChain(states, i, j);
  }

  lemma {:induction false} RunKeepsInv(policy: Policy, states: seq<Sys>, steps: seq<Step>, k: nat)
    requires Run(policy, states, steps) && NoCrossing(policy, states[|steps|].remote) && k < |states|
    ensures Inv(policy, states[k])
    decreases k
  {
    if k > 0 {
      RunKeepsInv(policy, states, steps, k - 1);
      RemoteGrows(policy, states, steps, k - 1, |steps|);
      PrefixHasNoCrossing(policy, states[k - 1].remote, states[|steps|].remote);
      StepKeepsInv(policy, states[k - 1], steps[k - 1]);
    }
  }

  /**
   * Whenever the source has a cursor, its visible items are exactly the allowed files of the folder
   * at that cursor: however first, incremental and reset syncs interleave, crash and lose races.
   */
  lemma CursorDescribesItems(policy: Policy, states: seq<Sys>, steps: seq<Step>, k: nat)
    requires Run(policy, states, steps) && NoCrossing(policy, states[|steps|].remote) && k < |states|
    requires states[k].source.syncCursor.Some?
    ensures var s := states[k];
            s.source.syncCursor.value < |s.remote| && Describes(policy, s.remote[s.source.syncCursor.value], s.items)
  {
    RunKeepsInv(policy, states, steps, k);
  }

  lemma StepIssues(policy: Policy, s: Sys, step: Step)
    requires Enabled(policy, s, step) && Issued(s)
    ensures Issued(Next(policy, s, step))
  {
    if step.Publish? {
      PublishedIssues(policy, s, s.procs[step.proc], step.env, step.at, step.uuid);
    }
  }

  lemma {:induction false} RevisionsStayIssued(policy: Policy, states: seq<Sys>, steps: seq<Step>, k: nat)
    requires Run(policy, states, steps) && k < |states|
    ensures Issued(states[k])
    decreases k
  {
    if k > 0 {
      RevisionsStayIssued(policy, states, steps, k - 1);
      StepIssues(policy, states[k - 1], steps[k - 1]);
    }
  }

  lemma StepNeverReturns(policy: Policy, s: Sys, step: Step, replaced: Revision)
    requires Enabled(policy, s, step) && Issued(s) && replaced in s.issued && s.source.revision != replaced
    ensures Next(policy, s, step).source.revision != replaced
  {
    StepGrows(policy, s, step);
  }

  /** A revision once replaced never comes back. */
  lemma {:induction false} RevisionNeverReturns(policy: Policy, states: seq<Sys>, steps: seq<Step>, i: nat, j: nat,
                                                k: nat)
    requires Run(policy, states, steps) && i <= j <= k < |states|
    requires states[j].source.revision != states[i].source.revision
    ensures states[k].source.revision != states[i].source.revision
    decreases k
  {
    if j < k {
      RevisionNeverReturns(policy, states, steps, i, j, k - 1);
      RevisionsStayIssued(policy, states, steps, i);
      RevisionsStayIssued(policy, states, steps, k - 1);
      RemoteGrows(policy, states, steps, i, k - 1);
      StepNeverReturns(policy, states[k - 1], steps[k - 1], states[i].source.revision);
    }
  }

  /** A sync that read the source before another publication cannot publish after it. */
  lemma LateSyncChangesNothing(policy: Policy, states: seq<Sys>, steps: seq<Step>, i: nat, j: nat, k: nat)
    requires Run(policy, states, steps) && i <= j <= k < |steps| && steps[k].Publish?
    requires states[k].procs[steps[k].proc].revision == states[i].source.revision
    requires states[j].source.revision != states[i].source.revision
    ensures states[k + 1].source == states[k].source && states[k + 1].items == states[k].items
  {
    RevisionNeverReturns(policy, states, steps, i, j, k);
  }

  // ---- A sync that is not disturbed brings the source up to date ----

  /** The source has reached this version of the folder, with a new revision, and says that it is ready. */
  ghost predicate CaughtUp(policy: Policy, s: Sys, t: Sys, link: Cursor) {
    && t.source.syncCursor == Some(link) && link < |t.remote| && Describes(policy, t.remote[link], t.items)
    && t.source.revision !in s.issued
    && t.source.healthStatus == Ready && t.source.lastErrorCode == None
  }

  lemma PublishCatchesUp(policy: Policy, s: Sys, p: nat, env: Env, at: Time, uuid: nat)
    requires Inv(policy, s) && NoCrossing(policy, s.remote) && Enabled(policy, s, Publish(p, env, at, uuid))
    requires s.procs[p].Publishing? && s.procs[p].revision == s.source.revision
    ensures CaughtUp(policy, s, Next(policy, s, Publish(p, env, at, uuid)), s.procs[p].link)
  {
    var proc := s.procs[p];
    PublishedIssues(policy, s, proc, env, at, uuid);
    PublishedInStep(policy, s, proc, env, at, uuid);
    CollectedUpserts(policy, proc.feed);
    RevisionIsNew(s, uuid);
  }

  /**
   * A sync starts from the source as it is. When its cursor has been reset it drops the cursor and
   * fetches once more under the same revision, and when the service has no delta it lists the folder,
   * unless it is fetching once more already.
   */
  lemma ErrorsLead(policy: Policy, s: Sys, p: nat)
    ensures p !in s.procs ==>
              Next(policy, s, Start(p)).procs[p] == Fetching(s.source.revision, s.source.syncCursor, false)
    ensures p in s.procs && s.procs[p].Fetching? ==>
              var reset := Next(policy, s, ResetError(p));
              if s.procs[p].cursor.None? then reset.procs[p] == Stopped
              else
                && Enabled(policy, reset, Clear(p))
                && var cleared := Next(policy, reset, Clear(p));
                   cleared.source == s.source.(syncCursor := None) && cleared.items == s.items &&
                   cleared.procs[p] == Fetching(s.procs[p].revision, None, true)
    ensures p in s.procs && s.procs[p].Fetching? ==>
              Next(policy, s, UnsupportedError(p)).procs[p] ==
              if s.procs[p].retry then Stopped else Listing(s.procs[p].revision)
  {
  }

  /** The steps of one sync; with a reset error the cursor is dropped and the whole folder fetched. */
  function SyncSteps(p: nat, reset: bool, feed: seq<FeedItem>, link: Cursor): seq<Step> {
    [Start(p)] + (if reset then [ResetError(p), Clear(p)] else []) + [Fetched(p, feed, link)]
  }

  ghost predicate Leads(policy: Policy, s: Sys, steps: seq<Step>, t: Sys)
    decreases |steps|
  {
    if steps == [] then t == s
    else Enabled(policy, s, steps[0]) && Leads(policy, Next(policy, s, steps[0]), steps[1..], t)
  }

  lemma {:induction false} LeadsKeepsInv(policy: Policy, s: Sys, steps: seq<Step>, t: Sys)
    requires Inv(policy, s) && Leads(policy, s, steps, t) && NoCrossing(policy, s.remote)
    requires forall i :: 0 <= i < |steps| ==> !steps[i].RemoteChange?
    ensures Inv(policy, t) && t.remote == s.remote
    decreases |steps|
  {
    if steps != [] {
      StepKeepsInv(policy, s, steps[0]);
      LeadsKeepsInv(policy, Next(policy, s, steps[0]), steps[1..], t);
    }
  }

  lemma SyncStands(policy: Policy, s: Sys, p: nat, reset: bool, feed: seq<FeedItem>, link: Cursor, t: Sys)
    requires p !in s.procs && Leads(policy, s, SyncSteps(p, reset, feed, link), t)
    ensures p in t.procs && t.source.revision == s.source.revision && t.issued == s.issued
    ensures t.procs[p] == Publishing(s.source.revision, if reset then None else s.source.syncCursor, feed, link)
  {
    var fetched := [Fetched(p, feed, link)];
    var a := Next(policy, s, Start(p));
    if reset {
      assert SyncSteps(p, reset, feed, link) == [Start(p)] + ([ResetError(p)] + ([Clear(p)] + fetched));
      LeadsOn(policy, s, Start(p), [ResetError(p)] + ([Clear(p)] + fetched), t);
      LeadsOn(policy, a, ResetError(p), [Clear(p)] + fetched, t);
      LeadsOn(policy, Next(policy, a, ResetError(p)), Clear(p), fetched, t);
    } else {
      assert SyncSteps(p, reset, feed, link) == [Start(p)] + fetched;
      LeadsOn(policy, s, Start(p), fetched, t);
    }
    LeadsOnce(policy, if reset then Next(policy, Next(policy, a, ResetError(p)), Clear(p)) else a, fetched[0], t);
  }

  lemma LeadsOn(policy: Policy, s: Sys, step: Step, rest: seq<Step>, t: Sys)
    requires Leads(policy, s, [step] + rest, t)
    ensures Enabled(policy, s, step) && Leads(policy, Next(policy, s, step), rest, t)
  {
    assert ([step] + rest)[1..] == rest;
  }

  lemma LeadsOnce(policy: Policy, s: Sys, step: Step, t: Sys)
    requires Leads(policy, s, [step], t)
    ensures Enabled(policy, s, step) && t == Next(policy, s, step)
  {
    LeadsOn(policy, s, step, [], t);
    assert [step] + [] == [step];
  }

  /**
   * From every reachable state a sync that nobody disturbs, after a reset error or without one, and
   * then publishes, leaves the source at the version its feed reached, with exactly the allowed files
   * of that version visible.
   */
  lemma UndisturbedSyncCatchesUp(policy: Policy, states: seq<Sys>, steps: seq<Step>, p: nat, reset: bool,
                                 feed: seq<FeedItem>, link: Cursor, t: Sys, env: Env, at: Time, uuid: nat)
    requires Run(policy, states, steps)
    requires var s := states[|steps|];
             NoCrossing(policy, s.remote) && p !in s.procs && Leads(policy, s, SyncSteps(p, reset, feed, link), t)
    requires Enabled(policy, t, Publish(p, env, at, uuid))
    ensures CaughtUp(policy, states[|steps|], Next(policy, t, Publish(p, env, at, uuid)), link)
  {
    var s := states[|steps|];
    RunKeepsInv(policy, states, steps, |steps|);
    LeadsKeepsInv(policy, s, SyncSteps(p, reset, feed, link), t);
    SyncStands(policy, s, p, reset, feed, link, t);
    PublishCatchesUp(policy, t, p, env, at, uuid);
  }

  // ---- The published count ----

  /** Either nothing was published since the source had this revision, or its count is what a reader sees. */
  ghost predicate CountKept(policy: Policy, s: Sys, first: Revision) {
    && OnePerIdentity(s.items)
    && (s.source.revision != first ==> s.source.publishedItemCount == |VisibleIdentities(s.items, policy.src)|)
  }

  lemma PublishedCount(policy: Policy, s: Sys, p: Proc, env: Env, at: Time, uuid: nat)
    requires OnePerIdentity(s.items) && (p.Publishing? || p.PublishingList?)
    requires MintsFresh(env, s.items, if p.Publishing? then Upserts(policy, p.feed) else p.listed)
    ensures var next := Published(policy, s, p, env, at, uuid);
            && OnePerIdentity(next.items)
            && (next == s || next.source.publishedItemCount == |VisibleIdentities(next.items, policy.src)|)
  {
    var inputs := if p.Publishing? then Upserts(policy, p.feed) else p.listed;
    if InScope(policy.src, inputs) {
      if p.Publishing? && p.cursor.Some? {
        DeltaShows(env, s.items, policy.src, inputs, DeletedSet(p.feed), at, policy.src, Graph(0, 0));
        ActiveCount(DeltaItems(env, s.items, policy.src, inputs, DeletedSet(p.feed), at), policy.src);
      } else {
        SnapshotShows(env, s.items, policy.src, inputs, at, policy.src, Graph(0, 0));
        SnapshotCount(env, s.items, policy.src, inputs, at);
      }
    }
  }

  lemma StepKeepsCount(policy: Policy, s: Sys, step: Step, first: Revision)
    requires CountKept(policy, s, first) && Enabled(policy, s, step)
    ensures CountKept(policy, Next(policy, s, step), first)
  {
    match step
    case Publish(p, env, at, uuid) => PublishedCount(policy, s, s.procs[p], env, at, uuid);
    case Elsewhere(items) => SameLooksSameView(s.items, items, policy.src);
    case _ =>
  }

  /**
   * From the first publication on, and whatever syncs, failures and uses of other sources follow, the
   * source's count is the number of its visible identities.
   */
  lemma {:induction false} CountIsWhatIsSeen(policy: Policy, states: seq<Sys>, steps: seq<Step>, k: nat)
    requires Run(policy, states, steps) && k < |states|
    ensures CountKept(policy, states[k], states[0].source.revision)
    decreases k
  {
    if k > 0 {
      CountIsWhatIsSeen(policy, states, steps, k - 1);
      StepKeepsCount(policy, states[k - 1], steps[k - 1], states[0].source.revision);
    }
  }

  /** A publication that is not turned away has just stored that number, made the source ready and cleared its error. */
  lemma PublicationStoresTheCount(policy: Policy, states: seq<Sys>, steps: seq<Step>, k: nat)
    requires Run(policy, states, steps) && k < |steps| && steps[k].Publish?
    requires states[k + 1].source != states[k].source
    ensures var s := states[k + 1];
            && s.source.publishedItemCount == |VisibleIdentities(s.items, policy.src)|
            && s.source.healthStatus == Ready && s.source.lastErrorCode == None
            && s.source.lastSuccessAt == Some(steps[k].at)
  {
    CountIsWhatIsSeen(policy, states, steps, k);
    PublishedCount(policy, states[k], states[k].procs[steps[k].proc], steps[k].env, steps[k].at, steps[k].uuid);
  }

  // ---- Where the premise matters ----

  const Pdf := Policy(0, "file", {".pdf"})
  const Renamed := Graph(1, 1)
  const NameBefore := RemoteEntry("a.pdf", None, false)
  const NameAfter := RemoteEntry("a.exe", None, false)

  lemma FilterSeesTheRename()
    ensures Allowed(Pdf, NameBefore) && !Allowed(Pdf, NameAfter)
  {
    LastDotIs("a.pdf", 1);
    LastDotIs("a.exe", 1);
    assert "a.pdf"[1..] == ".pdf" && Lower(".pdf") == ".pdf";
    assert Lower("a.exe"[1..])[1] == 'e';
  }

  /** A published a.pdf is renamed to a.exe: the next delta succeeds and leaves it visible. */
  lemma RenamedOutOfTheFilterStaysVisible(env: Env, at: Time)
    ensures var was, now := map[Renamed := NameBefore], map[Renamed := NameAfter];
            var feed := [FeedItem(Renamed, true, false, NameAfter)];
            var items := map[7 := Item(7, 0, Renamed, DetailOf(Pdf, NameBefore), env.normalize("a.pdf"), None)];
            && OnePerIdentity(items) && Describes(Pdf, was, items) && Faithful(was, now, feed)
            && MintsFresh(env, items, Upserts(Pdf, feed))
            && !Describes(Pdf, now, DeltaItems(env, items, 0, Upserts(Pdf, feed), DeletedSet(feed), at))
  {
    var was, now := map[Renamed := NameBefore], map[Renamed := NameAfter];
    var feed := [FeedItem(Renamed, true, false, NameAfter)];
    var items := map[7 := Item(7, 0, Renamed, DetailOf(Pdf, NameBefore), env.normalize("a.pdf"), None)];
    FilterSeesTheRename();
    assert Holds(items, 7, 0, Renamed);
    LookFinds(items, 0, Renamed, 7);
    forall q
      ensures DescribesAt(Pdf, was, items, q)
    {
      assert q != Renamed ==> forall id: ItemId :: !Holds(items, id, 0, q);
    }
    assert feed[0].storageRef == Renamed && Mentions(feed, Renamed);
    assert feed[..0] == [] && Upserts(Pdf, feed[..0]) == [] && Upserts(Pdf, feed) == [];
    DeltaDescribesIff(env, Pdf, items, was, now, feed, at);
    assert Stranded(Pdf, items, feed[0]);
  }
}
