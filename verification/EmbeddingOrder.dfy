/**
 * Putting the embeddings of one response back into the order of the inputs,
 * src/clients/azure-openai-embedding.ts.
 */
module EmbeddingOrder {
  import opened Basics

  /** A number of the response; what JSON gives that is no finite number is NotFinite. */
  datatype Value = Finite(n: int) | NotFinite

  type Vector = seq<Value>

  /** An element of the response, if it has the form of an embedding. */
  datatype Entry = Malformed | Entry(index: nat, embedding: Vector)

  datatype Outcome = Embedded(vectors: seq<Vector>) | ResponseInvalid | DimensionMismatch | SlotMissing

  predicate AllFinite(v: Vector) {
    forall i :: 0 <= i < |v| ==> v[i].Finite?
  }

  predicate OfForm(v: Vector, dimensions: nat) {
    |v| == dimensions && AllFinite(v)
  }

  /** Entry k names an input that no earlier entry of the response names. */
  predicate NamesAnother(data: seq<Entry>, k: nat)
    requires k < |data|
  {
    && data[k].Entry? && data[k].index < |data|
    && forall j :: 0 <= j < k && data[j].Entry? ==> data[j].index != data[k].index
  }

  /** What the loop asks of entry k, once the entries before it were accepted. */
  predicate Fits(data: seq<Entry>, k: nat, dimensions: nat)
    requires k < |data|
  {
    NamesAnother(data, k) && OfForm(data[k].embedding, dimensions)
  }

  predicate Accepted(data: seq<Entry>, k: nat, dimensions: nat) {
    k <= |data| && forall j :: 0 <= j < k ==> Fits(data, j, dimensions)
  }

  /** The slots hold exactly the entries before k. */
  ghost predicate Placed(data: seq<Entry>, k: nat, slots: seq<Option<Vector>>) {
    && k <= |data|
    && (forall j :: 0 <= j < k && data[j].Entry? && data[j].index < |slots| ==>
          slots[data[j].index] == Some(data[j].embedding))
    && (forall i :: 0 <= i < |slots| && slots[i].Some? ==>
          exists j :: 0 <= j < k && data[j].Entry? && data[j].index == i)
  }

  /** Distinct slots below n, as many as there are slots: all of them. */
  lemma {:induction false} Pigeonhole(used: set<nat>, n: nat)
    requires |used| == n && forall i :: i in used ==> i < n
    ensures forall i: nat :: i < n ==> i in used
    decreases n
  {
    if n > 0 {
      if n - 1 in used {
        Pigeonhole(used - {n - 1}, n - 1);
        assert used == (used - {n - 1}) + {n - 1};
      } else {
        var any :| any in used;
        SmallSet(used, n - 1);
      }
    }
  }

  lemma {:induction false} SmallSet(used: set<nat>, n: nat)
    requires forall i :: i in used ==> i < n
    ensures |used| <= n
    decreases n
  {
    if n == 0 {
      assert used == {};
    } else {
      SmallSet(used - {n - 1}, n - 1);
    }
  }

  function Indices(data: seq<Entry>, k: nat): set<nat>
    requires k <= |data|
  {
    set j | 0 <= j < k && data[j].Entry? :: data[j].index
  }

  lemma {:induction false} DistinctIndices(data: seq<Entry>, k: nat, dimensions: nat)
    requires Accepted(data, k, dimensions)
    ensures |Indices(data, k)| == k
    decreases k
  {
    if k > 0 {
      DistinctIndices(data, k - 1, dimensions);
      assert Fits(data, k - 1, dimensions);
      assert Indices(data, k) == Indices(data, k - 1) + {data[k - 1].index};
    }
  }

  /** Entries that were all accepted leave no slot empty. */
  lemma EverySlotFilled(data: seq<Entry>, dimensions: nat, slots: seq<Option<Vector>>)
    requires Accepted(data, |data|, dimensions) && Placed(data, |data|, slots) && |slots| == |data|
    ensures forall i :: 0 <= i < |slots| ==> slots[i].Some?
  {
    DistinctIndices(data, |data|, dimensions);
    assert forall j :: 0 <= j < |data| ==> Fits(data, j, dimensions);
    forall i | i in Indices(data, |data|)
      ensures i < |data|
    {
      var j :| 0 <= j < |data| && data[j].Entry? && data[j].index == i;
      assert Fits(data, j, dimensions);
    }
    Pigeonhole(Indices(data, |data|), |data|);
    forall i | 0 <= i < |slots|
      ensures slots[i].Some?
    {
      assert i in Indices(data, |data|);
    }
  }

  /** vectors lists, input by input, the embedding of the one entry that names the input. */
  predicate Reordered(data: seq<Entry>, vectors: seq<Vector>) {
    && |vectors| == |data|
    && (forall j, k :: 0 <= j < k < |data| && data[j].Entry? && data[k].Entry? ==> data[j].index != data[k].index)
    && (forall k :: 0 <= k < |data| ==> data[k].Entry? && data[k].index < |vectors| &&
                                        vectors[data[k].index] == data[k].embedding)
  }

  /** vectors are the response in the order of the inputs, each of the form that was asked for. */
  predicate Answers(data: seq<Entry>, vectors: seq<Vector>, dimensions: nat) {
    Reordered(data, vectors) && forall i :: 0 <= i < |vectors| ==> OfForm(vectors[i], dimensions)
  }

  /** A response that can be put in order is accepted entry by entry. */
  lemma OrderableIsAccepted(data: seq<Entry>, vectors: seq<Vector>, dimensions: nat)
    requires Answers(data, vectors, dimensions)
    ensures Accepted(data, |data|, dimensions)
  {
    forall k | 0 <= k < |data|
      ensures Fits(data, k, dimensions)
    {
      assert data[k].Entry? && OfForm(vectors[data[k].index], dimensions);
    }
  }

  /** Filled slots are the entries in the order of the inputs. */
  lemma FilledSlotsReorder(data: seq<Entry>, dimensions: nat, slots: seq<Option<Vector>>, vectors: seq<Vector>)
    requires Accepted(data, |data|, dimensions) && Placed(data, |data|, slots) && |slots| == |data| == |vectors|
    requires forall i :: 0 <= i < |slots| ==> slots[i] == Some(vectors[i])
    ensures Reordered(data, vectors)
    ensures forall i :: 0 <= i < |vectors| ==> OfForm(vectors[i], dimensions) && Entry(i, vectors[i]) in data
  {
    forall k | 0 <= k < |data|
      ensures data[k].Entry? && data[k].index < |data| && vectors[data[k].index] == data[k].embedding
      ensures OfForm(data[k].embedding, dimensions) && NamesAnother(data, k)
    {
      assert Fits(data, k, dimensions);
    }
    forall i | 0 <= i < |vectors|
      ensures OfForm(vectors[i], dimensions) && Entry(i, vectors[i]) in data
    {
      assert slots[i].Some?;
      var j :| 0 <= j < |data| && data[j].Entry? && data[j].index == i;
      assert data[j] == Entry(i, vectors[i]);
    }
  }

  /** The entries before k name different inputs in the form that was asked for; entry k does not, and decides. */
  predicate FirstAtFault(data: seq<Entry>, k: nat, dimensions: nat, r: Outcome) {
    && k < |data|
    && (forall j :: 0 <= j < k ==>
          data[j].Entry? && data[j].index < |data| && OfForm(data[j].embedding, dimensions))
    && (forall i, j :: 0 <= i < j < k ==> data[i].index != data[j].index)
    && if data[k].Malformed? || data[k].index >= |data| || exists j :: 0 <= j < k && data[j].index == data[k].index
       then r == ResponseInvalid
       else r == DimensionMismatch && !OfForm(data[k].embedding, dimensions)
  }

  lemma AcceptedThenFault(data: seq<Entry>, k: nat, dimensions: nat)
    requires k < |data| && Accepted(data, k, dimensions) && !Fits(data, k, dimensions)
    ensures FirstAtFault(data, k, dimensions, if NamesAnother(data, k) then DimensionMismatch else ResponseInvalid)
  {
    forall j | 0 <= j < k
      ensures NamesAnother(data, j) && OfForm(data[j].embedding, dimensions)
    {
      assert Fits(data, j, dimensions);
    }
    assert forall j :: 0 <= j < k ==> data[j].Entry? && OfForm(data[j].embedding, dimensions);
  }

  /** Exactly a response that can be put in order is; of any other, the first entry at fault decides the error. */
  method PlaceEmbeddings(data: seq<Entry>, inputs: nat, dimensions: nat) returns (r: Outcome)
    ensures r != SlotMissing
    ensures r.Embedded? <==> |data| == inputs && exists vectors :: Answers(data, vectors, dimensions)
    ensures r.Embedded? ==> Answers(data, r.vectors, dimensions)
    ensures r.Embedded? ==> forall i :: 0 <= i < inputs ==> Entry(i, r.vectors[i]) in data
    ensures !r.Embedded? && |data| == inputs ==> exists k :: FirstAtFault(data, k, dimensions, r)
    ensures |data| != inputs ==> r == ResponseInvalid
  {
    if |data| != inputs { return ResponseInvalid; }
    forall vectors | Answers(data, vectors, dimensions)
      ensures Accepted(data, inputs, dimensions)
    {
      OrderableIsAccepted(data, vectors, dimensions);
    }
    var vectors := new Option<Vector>[inputs](_ => None);
    for k := 0 to |data|
      invariant Accepted(data, k, dimensions) && Placed(data, k, vectors[..])
    {
      var entry := data[k];
      if entry.Malformed? || entry.index >= inputs || vectors[entry.index].Some? {
        assert !NamesAnother(data, k);
        AcceptedThenFault(data, k, dimensions);
        return ResponseInvalid;
      }
      assert NamesAnother(data, k);
      if |entry.embedding| != dimensions || !AllFinite(entry.embedding) {
        AcceptedThenFault(data, k, dimensions);
        return DimensionMismatch;
      }
      vectors[entry.index] := Some(entry.embedding);
    }
    EverySlotFilled(data, dimensions, vectors[..]);
    var out: seq<Vector> := [];
    for i := 0 to inputs
      invariant |out| == i && forall j :: 0 <= j < i ==> vectors[j] == Some(out[j])
    {
      if vectors[i].None? { return SlotMissing; }
      out := out + [vectors[i].value];
    }
    FilledSlotsReorder(data, dimensions, vectors[..], out);
    assert Answers(data, out, dimensions);
    return Embedded(out);
  }
}
