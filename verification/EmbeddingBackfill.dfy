/**
 * Backfills running beside the writers of src/agent/memory-store.ts:
 * src/agent/text-memory-embedding-backfill.ts, cut at every await.
 */
module EmbeddingBackfill {
  import opened Basics
  import opened TextMemory

  function BatchLimit(batchSize: int): int {
    Max(1, Min(batchSize, 100))
  }

  function TextsOf(list: seq<Candidate>): seq<Text> {
    seq(|list|, k requires 0 <= k < |list| => list[k].text)
  }

  predicate Usable(vectors: seq<Vector>, k: nat) {
    k < |vectors| && vectors[k].values != []
  }

  function Filled(s: Store, list: seq<Candidate>, vectors: seq<Vector>, k: nat, at: Time): Store
    requires k < |list|
  {
    if Usable(vectors, k) then Embedded(s, list[k].id, vectors[k], Some(list[k].revision), at) else s
  }

  // ---- One backfill with nothing in between ----

  function UsableCount(vectors: seq<Vector>, k: nat): nat {
    if k == 0 then 0 else UsableCount(vectors, k - 1) + if Usable(vectors, k - 1) then 1 else 0
  }

  type Embeddings = map<MemoryId, Vector>

  /** The usable vectors before k are stored, each for its candidate, and nothing else has changed. */
  function Filling(before: Embeddings, list: seq<Candidate>, vectors: seq<Vector>, k: nat): Embeddings
    requires k <= |list|
  {
    if k == 0 then before
    else
      var front := Filling(before, list, vectors, k - 1);
      if Usable(vectors, k - 1) then front[list[k - 1].id := vectors[k - 1]] else front
  }

  predicate DistinctCandidates(list: seq<Candidate>) {
    forall i, j :: 0 <= i < j < |list| ==> list[i].id != list[j].id
  }

  lemma {:induction false} FillingAt(before: Embeddings, list: seq<Candidate>, vectors: seq<Vector>, k: nat,
                                     id: MemoryId)
    requires k <= |list| && DistinctCandidates(list)
    ensures (forall j :: 0 <= j < k && Usable(vectors, j) ==> list[j].id != id) ==>
              (id in Filling(before, list, vectors, k) <==> id in before) &&
              (id in before ==> Filling(before, list, vectors, k)[id] == before[id])
    ensures forall j :: 0 <= j < k && Usable(vectors, j) && list[j].id == id ==>
              id in Filling(before, list, vectors, k) && Filling(before, list, vectors, k)[id] == vectors[j]
    decreases k
  {
    if k > 0 {
      FillingAt(before, list, vectors, k - 1, id);
    }
  }

  /** The loop of writes. */
  method FillEach(store: InMemoryTextMemoryStore, list: seq<Candidate>, vectors: seq<Vector>, at: Time)
    returns (updated: nat)
    requires DistinctCandidates(list)
    requires forall k :: 0 <= k < |list| ==> Missing(store.View(), list[k].id, at) &&
                                             list[k].revision == store.records[list[k].id].revision
    modifies store`embeddings
    ensures store.embeddings == Filling(old(store.embeddings), list, vectors, |list|)
    ensures updated == UsableCount(vectors, |list|)
  {
    updated := 0;
    for k := 0 to |list|
      invariant updated == UsableCount(vectors, k)
      invariant store.embeddings == Filling(old(store.embeddings), list, vectors, k)
    {
      if k < |vectors| && vectors[k].values != [] {
        FillingAt(old(store.embeddings), list, vectors, k, list[k].id);
        var stored := store.UpdateTextMemoryEmbedding(list[k].id, vectors[k], Some(list[k].revision), at);
        if stored { updated := updated + 1; }
      }
    }
  }

  /** Undisturbed, a backfill stores every usable vector for the candidate it was computed for, and counts them. */
  method BackfillAgentTextMemoryEmbeddings(store: InMemoryTextMemoryStore, batchSize: int,
                                           embed: seq<Text> -> Option<seq<Vector>>, at: Time)
    returns (scanned: nat, updated: nat, failed: int, ghost list: seq<Candidate>)
    requires forall id :: id in store.records ==> store.records[id].id == id
    modifies store`embeddings
    ensures NewestMissing(old(store.View()), list, Max(1, Min(batchSize, 100)), at)
    ensures scanned == |list| && updated + failed == scanned
    ensures var vectors := embed(TextsOf(list));
            if list == [] || vectors.None? then updated == 0 && store.embeddings == old(store.embeddings)
            else updated == UsableCount(vectors.value, |list|) &&
                 store.embeddings == Filling(old(store.embeddings), list, vectors.value, |list|)
  {
    ghost var was := store.View();
    var candidates := store.ListTextMemoriesMissingEmbedding(BatchLimit(batchSize), at);
    list := candidates;
    if candidates == [] { return 0, 0, 0, list; }
    var vectors := embed(TextsOf(candidates));
    if vectors.None? { return |candidates|, 0, |candidates|, list; }
    MissingAreDistinct(was, candidates, BatchLimit(batchSize), at);
    updated := FillEach(store, candidates, vectors.value, at);
    scanned, failed := |candidates|, |candidates| - updated;
  }

  lemma MissingAreDistinct(s: Store, list: seq<Candidate>, limit: int, at: Time)
    requires NewestMissing(s, list, limit, at)
    ensures DistinctCandidates(list)
  {
    assert forall k :: 0 <= k < |list| ==> IdsOf(list)[k] == list[k].id;
  }

  // ---- Any number of backfills and writers ----

  datatype Backfill = Asked(list: seq<Candidate>)
                    | Writing(list: seq<Candidate>, vectors: seq<Vector>, next: nat)

  datatype Sys = Sys(store: Store, backfills: map<nat, Backfill>)

  datatype Step =
    | Save(input: NewText, at: Time, ttlMs: nat)
    | Update(ask: Ask, content: nat, embedding: Option<Vector>, at: Time)
    | ForgetText(ask: Ask, at: Time)
    | Purge(cutoff: Time)
    | List(b: nat, list: seq<Candidate>, batchSize: int, at: Time)
    | Answer(b: nat, vectors: seq<Vector>)
    | Write(b: nat, at: Time)
    | Give(b: nat)

  /** A vector answers for the text it comes with. */
  predicate ComputedFrom(v: Option<Vector>, text: Text) {
    NonEmpty(v) ==> v.value.computedFrom == text
  }

  ghost predicate Enabled(s: Sys, step: Step) {
    match step
    case Save(input, at, ttlMs) => ComputedFrom(input.embedding, input.text)
    case Update(ask, content, embedding, at) =>
      && ask.expectedRevision.Some?
      && (Permitted(s.store, ask, at) ==> ComputedFrom(embedding, Text(s.store.records[ask.id].text.title, content)))
    case List(b, list, batchSize, at) => NewestMissing(s.store, list, BatchLimit(batchSize), at)
    case Answer(b, vectors) =>
      && b in s.backfills && s.backfills[b].Asked?
      && forall k :: 0 <= k < |vectors| && k < |s.backfills[b].list| ==>
           vectors[k].computedFrom == s.backfills[b].list[k].text
    case Write(b, at) => b in s.backfills && s.backfills[b].Writing? && s.backfills[b].next < |s.backfills[b].list|
    case _ => true
  }

  ghost function Next(s: Sys, step: Step): Sys
    requires Enabled(s, step)
  {
    match step
    case Save(input, at, ttlMs) => s.(store := Saved(s.store, input, at, ttlMs))
    case Update(ask, content, embedding, at) =>
      if Permitted(s.store, ask, at) then s.(store := Updated(s.store, ask, content, embedding, at)) else s
    case ForgetText(ask, at) =>
      if Permitted(s.store, ask, at) then s.(store := Forgotten(s.store, ask.id, at)) else s
    case Purge(cutoff) => s.(store := Purged(s.store, cutoff))
    case List(b, list, batchSize, at) => s.(backfills := s.backfills[b := Asked(list)])
    case Answer(b, vectors) => s.(backfills := s.backfills[b := Writing(s.backfills[b].list, vectors, 0)])
    case Write(b, at) =>
      var w := s.backfills[b];
      Sys(Filled(s.store, w.list, w.vectors, w.next, at), s.backfills[b := w.(next := w.next + 1)])
    case Give(b) => s.(backfills := s.backfills - {b})
  }

  /** The stored embedding of a record was computed from the text it now has. */
  ghost predicate NoStaleEmbedding(s: Store) {
    forall id :: id in s.records && id in s.embeddings ==> s.embeddings[id].computedFrom == s.records[id].text
  }

  ghost predicate Drawn(s: Store) {
    && (forall id :: id in s.records ==> s.records[id].id == id < s.drawn)
    && (forall id :: id in s.embeddings ==> id < s.drawn)
  }

  /** What a candidate remembers: the record's text as long as its revision has not moved. */
  predicate Remembers(s: Store, c: Candidate) {
    && c.id < s.drawn
    && (c.id in s.records ==>
          s.records[c.id].revision >= c.revision &&
          (s.records[c.id].revision == c.revision ==> s.records[c.id].text == c.text))
  }

  predicate BackfillSound(s: Store, b: Backfill) {
    && (forall k :: 0 <= k < |b.list| ==> Remembers(s, b.list[k]))
    && (b.Writing? ==> forall k :: 0 <= k < |b.vectors| && k < |b.list| ==> b.vectors[k].computedFrom == b.list[k].text)
  }

  ghost predicate Inv(s: Sys) {
    && Drawn(s.store) && NoStaleEmbedding(s.store)
    && forall b :: b in s.backfills ==> BackfillSound(s.store, s.backfills[b])
  }

  /** What every change of the store lets a candidate keep. */
  ghost predicate Onward(s: Store, next: Store) {
    && s.drawn <= next.drawn
    && forall id :: id in next.records && id < s.drawn ==>
         && id in s.records
         && (next.records[id].text == s.records[id].text || next.records[id].revision > s.records[id].revision)
         && next.records[id].revision >= s.records[id].revision
  }

  lemma OnwardKeepsSound(s: Store, next: Store, b: Backfill)
    requires Onward(s, next) && BackfillSound(s, b)
    ensures BackfillSound(next, b)
  {
    forall k | 0 <= k < |b.list|
      ensures Remembers(next, b.list[k])
    {
      assert Remembers(s, b.list[k]);
    }
  }

  lemma StoreSteps(s: Sys, step: Step)
    requires Inv(s) && Enabled(s, step)
    ensures var next := Next(s, step).store;
            Onward(s.store, next) && Drawn(next) && NoStaleEmbedding(next)
  {
    if step.Write? {
      var w := s.backfills[step.b];
      assert BackfillSound(s.store, w) && Remembers(s.store, w.list[w.next]);
    }
  }

  lemma StepKeepsInv(s: Sys, step: Step)
    requires Inv(s) && Enabled(s, step)
    ensures Inv(Next(s, step))
  {
    StoreSteps(s, step);
    var next := Next(s, step);
    forall b | b in next.backfills
      ensures BackfillSound(next.store, next.backfills[b])
    {
      if b in s.backfills {
        OnwardKeepsSound(s.store, next.store, s.backfills[b]);
      }
    }
  }

  ghost predicate Run(states: seq<Sys>, steps: seq<Step>) {
    && |states| == |steps| + 1
    && states[0] == Sys(Store(map[], map[], 0), map[])
    && forall i :: 0 <= i < |steps| ==> Enabled(states[i], steps[i]) && states[i + 1] == Next(states[i], steps[i])
  }

  lemma {:induction false} RunKeepsInv(states: seq<Sys>, steps: seq<Step>, k: nat)
    requires Run(states, steps) && k < |states|
    ensures Inv(states[k])
    decreases k
  {
    if k > 0 {
      RunKeepsInv(states, steps, k - 1);
      StepKeepsInv(states[k - 1], steps[k - 1]);
    }
  }

  /** However backfills and writers interleave, no record ever carries the embedding of another text. */
  lemma EmbeddingsAreNeverStale(states: seq<Sys>, steps: seq<Step>, k: nat)
    requires Run(states, steps) && k < |states|
    ensures NoStaleEmbedding(states[k].store)
  {
    RunKeepsInv(states, steps, k);
  }

  // ---- Why the revision matters ----

  /** Listed, then rewritten, then filled: the revision refuses the old vector, and without it the vector is stale. */
  lemma RevisionRefusesTheOldText(s: Store, ask: Ask, content: nat, v: Vector, at: Time)
    requires NoStaleEmbedding(s) && Drawn(s) && Missing(s, ask.id, at) && Permitted(s, ask, at) && v.values != []
    requires v.computedFrom == s.records[ask.id].text && content != s.records[ask.id].text.content
    ensures var rewritten := Updated(s, ask, content, None, at);
            && Embedded(rewritten, ask.id, v, Some(s.records[ask.id].revision), at) == rewritten
            && !NoStaleEmbedding(Embedded(rewritten, ask.id, v, None, at))
  {
    var rewritten := Updated(s, ask, content, None, at);
    assert Embedded(rewritten, ask.id, v, None, at).embeddings[ask.id] == v;
  }
}
