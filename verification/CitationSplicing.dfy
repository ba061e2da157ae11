/**
 * When the splicing loop is a simultaneous replacement: each step replaces one more range, the sort
 * keeps what matters, and an empty range spliced before the range it starts with loses part of its
 * marker.
 */
module CitationSplicing {
  import opened Basics
  import opened Citations

  // ---- One more range ----

  lemma {:induction false} FlattenPart(pieces: seq<Text>, text: Text, x: nat, q: nat)
    requires |pieces| == |text| + 1 && x <= q <= |text|
    requires forall p :: x <= p < q ==> pieces[p] == [text[p]]
    ensures Flatten(pieces, x) == text[x..q] + Flatten(pieces, q)
    decreases q - x
  {
    if x < q {
      FlattenPart(pieces, text, x + 1, q);
      JoinParts(text, x, x + 1, q, Flatten(pieces, q));
    }
  }

  lemma JoinParts(text: Text, a: nat, b: nat, c: nat, rest: Text)
    requires a <= b <= c <= |text|
    ensures text[a..b] + (text[b..c] + rest) == text[a..c] + rest
  {
    assert text[a..b] + text[b..c] == text[a..c];
  }

  lemma {:induction false} FlattenSkip(pieces: seq<Text>, x: nat, q: nat)
    requires x <= q <= |pieces| && forall p :: x <= p < q ==> pieces[p] == []
    ensures Flatten(pieces, x) == Flatten(pieces, q)
    decreases q - x
  {
    if x < q {
      FlattenSkip(pieces, x + 1, q);
    }
  }

  lemma {:induction false} FlattenAgree(pieces: seq<Text>, other: seq<Text>, x: nat)
    requires |pieces| == |other| && forall p :: x <= p < |pieces| ==> pieces[p] == other[p]
    ensures Flatten(pieces, x) == Flatten(other, x)
    decreases |pieces| - x
  {
    if x < |pieces| {
      FlattenAgree(pieces, other, x + 1);
    }
  }

  lemma {:induction false} Unmarked(list: seq<Citation>, sources: seq<Url>, p: int)
    requires forall c :: c in list ==> !StartsAt(c, p)
    ensures Mark(list, sources, p) == []
    decreases |list|
  {
    if list != [] {
      Unmarked(list[..|list| - 1], sources, p);
    }
  }

  /** c ends at or before the start of every range of the list. */
  predicate EndsBefore(list: seq<Citation>, c: Citation, length: nat) {
    Usable(c, length) && AllUsable(list, length) && forall d :: d in list ==> c.endIndex.value <= d.startIndex.value
  }

  function MarkOf(c: Citation, sources: seq<Url>): Text
    requires c.url.Some?
  {
    Marker(IndexOf(sources, c.url.value) + 1)
  }

  lemma MarkWith(list: seq<Citation>, c: Citation, sources: seq<Url>, p: int)
    ensures Mark(list + [c], sources, p) == MarkAt(c, sources, p) + Mark(list, sources, p)
  {
    assert (list + [c])[..|list|] == list;
  }

  lemma CoveredWith(list: seq<Citation>, c: Citation, p: int)
    ensures Covered(list + [c], p) <==> Covered(list, p) || Covers(c, p)
  {
    if i :| 0 <= i < |list| && Covers(list[i], p) {
      assert (list + [c])[i] == list[i];
    }
    assert (list + [c])[|list|] == c;
  }

  /** The pieces with c are those without it, but for its marker and the characters it covers. */
  lemma PieceWith(text: Text, list: seq<Citation>, c: Citation, sources: seq<Url>, p: nat)
    requires EndsBefore(list, c, |text|) && p <= |text|
    ensures var s, e := c.startIndex.value, c.endIndex.value;
            var before := Mark(list, sources, p) + Kept(text, list, p);
            && (p < e ==> before == [text[p]])
            && Mark(list + [c], sources, p) + Kept(text, list + [c], p) ==
               (if p == s then MarkOf(c, sources) else []) + if s <= p < e then [] else before
  {
    MarkWith(list, c, sources, p);
    assert MarkAt(c, sources, p) == if p == c.startIndex.value then MarkOf(c, sources) else [];
    CoveredWith(list, c, p);
    if p < c.endIndex.value {
      Unmarked(list, sources, p);
      assert !Covered(list, p);
    } else {
      Assoc(if p == c.startIndex.value then MarkOf(c, sources) else [], Mark(list, sources, p), Kept(text, list, p));
    }
  }

  lemma Assoc(a: Text, b: Text, c: Text)
    ensures (a + b) + c == a + (b + c)
  {
  }

  /** Splicing a range that ends before all the spliced ones replaces it as well. */
  lemma SpliceOne(text: Text, list: seq<Citation>, c: Citation, sources: seq<Url>)
    requires EndsBefore(list, c, |text|)
    ensures var current := Emit(text, list, sources);
            && Usable(c, |current|)
            && ReplacedBy(current, c, IndexOf(sources, c.url.value) + 1) == Emit(text, list + [c], sources)
  {
    PiecesSpliced(text, list, c, sources);
  }

  lemma PiecesSpliced(text: Text, list: seq<Citation>, c: Citation, sources: seq<Url>)
    requires EndsBefore(list, c, |text|)
    ensures var a, b := Flatten(Pieces(text, list, sources), 0), Flatten(Pieces(text, list + [c], sources), 0);
            c.endIndex.value <= |a| && a[..c.startIndex.value] + MarkOf(c, sources) + a[c.endIndex.value..] == b
  {
    PiecesBefore(text, list, c, sources);
    PiecesFrom(text, list, c, sources);
    FlattenSpliced(text, Pieces(text, list, sources), Pieces(text, list + [c], sources), MarkOf(c, sources),
                   c.startIndex.value, c.endIndex.value);
  }

  lemma FlattenSpliced(text: Text, a: seq<Text>, b: seq<Text>, marker: Text, s: nat, e: nat)
    requires |a| == |text| + 1 && Grown(a, b, marker, s, e)
    requires forall p :: 0 <= p < e ==> a[p] == [text[p]]
    requires forall p :: 0 <= p < s ==> b[p] == [text[p]]
    ensures e <= |Flatten(a, 0)|
    ensures Flatten(a, 0)[..s] + marker + Flatten(a, 0)[e..] == Flatten(b, 0)
  {
    FlattenPart(a, text, 0, e);
    FlattenPart(b, text, 0, s);
    FlattenReplaced(a, b, marker, s, e);
    Cut(text, s, e, Flatten(a, e), marker);
  }

  lemma PiecesBefore(text: Text, list: seq<Citation>, c: Citation, sources: seq<Url>)
    requires EndsBefore(list, c, |text|)
    ensures forall p :: 0 <= p < c.endIndex.value ==> Pieces(text, list, sources)[p] == [text[p]]
    ensures forall p :: 0 <= p < c.startIndex.value ==> Pieces(text, list + [c], sources)[p] == [text[p]]
  {
    forall p | 0 <= p < c.endIndex.value
      ensures Pieces(text, list, sources)[p] == [text[p]]
      ensures p < c.startIndex.value ==> Pieces(text, list + [c], sources)[p] == [text[p]]
    {
      PieceWith(text, list, c, sources, p);
    }
  }

  lemma PiecesFrom(text: Text, list: seq<Citation>, c: Citation, sources: seq<Url>)
    requires EndsBefore(list, c, |text|)
    ensures Grown(Pieces(text, list, sources), Pieces(text, list + [c], sources), MarkOf(c, sources),
                  c.startIndex.value, c.endIndex.value)
  {
    forall p | c.startIndex.value <= p <= |text|
      ensures Pieces(text, list + [c], sources)[p] ==
              (if p == c.startIndex.value then MarkOf(c, sources) else []) +
              if c.startIndex.value <= p < c.endIndex.value then [] else Pieces(text, list, sources)[p]
    {
      PieceWith(text, list, c, sources, p);
    }
  }

  /** b has the marker at s, nothing up to e, and what a has from there. */
  predicate Grown(a: seq<Text>, b: seq<Text>, marker: Text, s: nat, e: nat) {
    && |a| == |b| && s <= e < |a|
    && b[s] == marker + (if s < e then [] else a[s])
    && (forall p :: s < p < e ==> b[p] == [])
    && (forall p :: s < p && e <= p < |b| ==> b[p] == a[p])
  }

  lemma FlattenReplaced(a: seq<Text>, b: seq<Text>, marker: Text, s: nat, e: nat)
    requires Grown(a, b, marker, s, e)
    ensures Flatten(b, s) == marker + Flatten(a, e)
  {
    assert Flatten(b, s) == b[s] + Flatten(b, s + 1);
    if s < e {
      FlattenSkip(b, s + 1, e);
      FlattenAgree(a, b, e);
      assert b[s] == marker;
    } else {
      FlattenAgree(a, b, s + 1);
      Assoc(marker, a[s], Flatten(a, s + 1));
    }
  }

  lemma Cut(text: Text, s: nat, e: nat, rest: Text, marker: Text)
    requires s <= e <= |text|
    ensures (text[0..e] + rest)[..s] + marker + (text[0..e] + rest)[e..] == text[0..s] + (marker + rest)
  {
    assert (text[0..e] + rest)[..s] == text[0..s] && (text[0..e] + rest)[e..] == rest;
  }

  // ---- All ranges, in an order that is safe ----

  predicate NeverEarlier(list: seq<Citation>) {
    forall i, j :: 0 <= i < j < |list| ==> StartKey(list[i]) >= StartKey(list[j])
  }

  /** In a safe order the next range ends before all the spliced ones. */
  lemma NextEndsBefore(list: seq<Citation>, k: nat, length: nat)
    requires k < |list| && NeverEarlier(list) && NonOverlapping(list, length) && SafeOrder(list)
    ensures EndsBefore(list[..k], list[k], length)
  {
    assert list[k] in list;
    forall d | d in list[..k]
      ensures Usable(d, length) && list[k].endIndex.value <= d.startIndex.value
    {
      var i :| 0 <= i < k && list[i] == d;
      assert d in list && Apart(list[i], list[k]) && Harmless(list[i], list[k]);
      assert StartKey(list[i]) >= StartKey(list[k]);
    }
  }

  lemma SpliceFirst(current: Text, list: seq<Citation>, k: nat, sources: seq<Url>)
    requires k < |list| && list[k].url.Some?
    ensures CiteAll(sources, list[k..]) == CiteAll(Cite(sources, list[k].url.value), list[k + 1..])
    ensures Usable(list[k], |current|) ==>
              Splice(current, list[k..], sources) ==
              Splice(ReplacedBy(current, list[k], IndexOf(sources, list[k].url.value) + 1), list[k + 1..],
                     Cite(sources, list[k].url.value))
  {
    assert list[k..][0] == list[k] && list[k..][1..] == list[k + 1..];
  }

  lemma SpliceNext(text: Text, list: seq<Citation>, k: nat, sources: seq<Url>, final: seq<Url>)
    requires k < |list| && NeverEarlier(list) && NonOverlapping(list, |text|) && SafeOrder(list)
    requires list[k].url.Some? && Cite(sources, list[k].url.value) <= final
    ensures Splice(Emit(text, list[..k], final), list[k..], sources) ==
            Splice(Emit(text, list[..k + 1], final), list[k + 1..], Cite(sources, list[k].url.value))
  {
    NextEndsBefore(list, k, |text|);
    SpliceFirst(Emit(text, list[..k], final), list, k, sources);
    CitedNumber(sources, final, list[k].url.value);
    SpliceOne(text, list[..k], list[k], final);
    assert list[..k] + [list[k]] == list[..k + 1];
  }

  /** After k citations of a safe order the text is the simultaneous replacement of those k. */
  lemma {:induction false} SpliceSafe(text: Text, list: seq<Citation>, k: nat, sources: seq<Url>, final: seq<Url>)
    requires k <= |list| && NeverEarlier(list) && NonOverlapping(list, |text|) && SafeOrder(list)
    requires CiteAll(sources, list[k..]) <= final
    ensures Splice(Emit(text, list[..k], final), list[k..], sources) ==
            Spliced(Emit(text, list, final), CiteAll(sources, list[k..]))
    decreases |list| - k
  {
    if k == |list| {
      assert list[..k] == list && list[k..] == [];
      assert Splice(Emit(text, list, final), [], sources) == Spliced(Emit(text, list, final), sources);
    } else {
      assert list[k] in list;
      var next := Cite(sources, list[k].url.value);
      SpliceFirst([], list, k, sources);
      CiteAllGrows(next, list[k + 1..]);
      SpliceNext(text, list, k, sources, final);
      SpliceSafe(text, list, k + 1, next, final);
    }
  }

  lemma EmitNothing(text: Text, sources: seq<Url>)
    ensures Emit(text, [], sources) == text
  {
    var pieces := Pieces(text, [], sources);
    FlattenPart(pieces, text, 0, |text|);
    assert pieces[|text|] == [] && Flatten(pieces, |text| + 1) == [];
  }

  // ---- Nothing is rejected, in any order ----

  lemma {:induction false} NeverRejects(current: Text, list: seq<Citation>, sources: seq<Url>)
    requires NeverEarlier(list) && NonOverlapping(list, |current|)
    ensures Splice(current, list, sources).Spliced?
    ensures Splice(current, list, sources).sources == CiteAll(sources, list)
    decreases |list|
  {
    if list != [] {
      var c := list[0];
      assert c in list;
      var next := ReplacedBy(current, c, IndexOf(sources, c.url.value) + 1);
      RestFits(current, list, next);
      NeverRejects(next, list[1..], Cite(sources, c.url.value));
    }
  }

  lemma RestFits(current: Text, list: seq<Citation>, next: Text)
    requires list != [] && NeverEarlier(list) && NonOverlapping(list, |current|)
    requires Usable(list[0], |current|) && |next| >= |current| + list[0].startIndex.value - list[0].endIndex.value
    ensures NeverEarlier(list[1..]) && NonOverlapping(list[1..], |next|)
  {
    assert list[0] in list;
    forall d | d in list[1..]
      ensures Usable(d, |next|)
    {
      var j :| 0 <= j < |list| - 1 && list[1..][j] == d;
      assert list[j + 1] == d && d in list && Apart(list[0], list[j + 1]);
      assert StartKey(list[0]) >= StartKey(list[j + 1]);
    }
    forall i, j | 0 <= i < j < |list[1..]|
      ensures Apart(list[1..][i], list[1..][j]) && StartKey(list[1..][i]) >= StartKey(list[1..][j])
    {
      assert list[1..][i] == list[i + 1] && list[1..][j] == list[j + 1];
    }
  }

  // ---- The sort keeps what matters ----

  /** A relation that only the order of ranges with one start can upset. */
  ghost predicate OnlyTiesMatter(p: (Citation, Citation) -> bool) {
    forall c, d :: StartKey(c) != StartKey(d) ==> p(c, d) == p(d, c)
  }

  lemma PairsHead(c: Citation, list: seq<Citation>, p: (Citation, Citation) -> bool)
    ensures AllPairs([c] + list, p) <==> AllPairs(list, p) && forall d :: d in list ==> p(c, d)
  {
    var whole := [c] + list;
    assert whole[0] == c && forall i :: 0 <= i < |list| ==> whole[i + 1] == list[i];
    if AllPairs(whole, p) {
      forall i, j | 0 <= i < j < |list|
        ensures p(list[i], list[j])
      {
        assert p(whole[i + 1], whole[j + 1]);
      }
      forall d | d in list
        ensures p(c, d)
      {
        var i :| 0 <= i < |list| && list[i] == d;
        assert p(whole[0], whole[i + 1]);
      }
    }
    if AllPairs(list, p) && forall d :: d in list ==> p(c, d) {
      forall i, j | 0 <= i < j < |whole|
        ensures p(whole[i], whole[j])
      {
        if i == 0 {
          assert list[j - 1] in list;
        } else {
          assert p(list[i - 1], list[j - 1]);
        }
      }
    }
  }

  lemma {:induction false} PairsLast(list: seq<Citation>, c: Citation, p: (Citation, Citation) -> bool)
    ensures AllPairs(list + [c], p) <==> AllPairs(list, p) && forall d :: d in list ==> p(d, c)
    decreases |list|
  {
    if list == [] {
      assert AllPairs([c], p) && AllPairs([], p);
      assert [] + [c] == [c];
    } else {
      var rest := list[1..];
      assert list + [c] == [list[0]] + (rest + [c]) && list == [list[0]] + rest;
      PairsLast(rest, c, p);
      PairsHead(list[0], rest + [c], p);
      PairsHead(list[0], rest, p);
      assert forall d :: d in rest + [c] <==> d in rest || d == c;
    }
  }

  predicate FirstIsLatest(list: seq<Citation>) {
    forall c :: c in list ==> StartKey(c) <= StartKey(list[0])
  }

  lemma LaterHead(list: seq<Citation>)
    requires list != [] && NeverEarlier(list)
    ensures NeverEarlier(list[1..]) && FirstIsLatest(list)
  {
    forall i, j | 0 <= i < j < |list[1..]|
      ensures StartKey(list[1..][i]) >= StartKey(list[1..][j])
    {
      assert list[1..][i] == list[i + 1] && list[1..][j] == list[j + 1];
    }
    forall c | c in list
      ensures StartKey(c) <= StartKey(list[0])
    {
      var i :| 0 <= i < |list| && list[i] == c;
    }
  }

  lemma LaterWithHead(c: Citation, list: seq<Citation>)
    requires NeverEarlier(list) && forall d :: d in list ==> StartKey(d) <= StartKey(c)
    ensures NeverEarlier([c] + list)
  {
    forall i, j | 0 <= i < j < |[c] + list|
      ensures StartKey(([c] + list)[i]) >= StartKey(([c] + list)[j])
    {
      assert ([c] + list)[j] == list[j - 1] && list[j - 1] in list;
      if i > 0 {
        assert ([c] + list)[i] == list[i - 1];
      }
    }
  }

  lemma {:induction false} InsertMembers(c: Citation, list: seq<Citation>)
    ensures |Insert(c, list)| == |list| + 1 && forall d :: d in Insert(c, list) <==> d in list || d == c
    decreases |list|
  {
    if list != [] && !(StartKey(list[0]) < StartKey(c)) {
      InsertMembers(c, list[1..]);
      assert list == [list[0]] + list[1..];
    }
  }

  lemma {:induction false} InsertOrders(c: Citation, list: seq<Citation>)
    requires NeverEarlier(list)
    ensures NeverEarlier(Insert(c, list))
    decreases |list|
  {
    if list == [] {
      LaterWithHead(c, list);
    } else {
      LaterHead(list);
      if StartKey(list[0]) < StartKey(c) {
        LaterWithHead(c, list);
      } else {
        InsertOrders(c, list[1..]);
        InsertMembers(c, list[1..]);
        assert forall d :: d in list[1..] ==> d in list;
        LaterWithHead(list[0], Insert(c, list[1..]));
      }
    }
  }

  lemma {:induction false} InsertPairs(c: Citation, list: seq<Citation>, p: (Citation, Citation) -> bool)
    requires NeverEarlier(list) && OnlyTiesMatter(p)
    ensures AllPairs(Insert(c, list), p) <==> AllPairs(list, p) && forall d :: d in list ==> p(d, c)
    decreases |list|
  {
    if list != [] {
      LaterHead(list);
    }
    if list == [] || StartKey(list[0]) < StartKey(c) {
      PairsHead(c, list, p);
    } else {
      var rest := list[1..];
      assert list == [list[0]] + rest;
      InsertPairs(c, rest, p);
      InsertMembers(c, rest);
      PairsHead(list[0], Insert(c, rest), p);
      PairsHead(list[0], rest, p);
    }
  }

  lemma {:induction false} SortOrders(list: seq<Citation>)
    ensures NeverEarlier(Sorted(list)) && |Sorted(list)| == |list| && forall d :: d in Sorted(list) <==> d in list
    decreases |list|
  {
    if list != [] {
      var front, last := list[..|list| - 1], list[|list| - 1];
      SortOrders(front);
      InsertOrders(last, Sorted(front));
      InsertMembers(last, Sorted(front));
      assert list == front + [last];
    }
  }

  lemma {:induction false} SortPairs(list: seq<Citation>, p: (Citation, Citation) -> bool)
    requires OnlyTiesMatter(p)
    ensures AllPairs(Sorted(list), p) <==> AllPairs(list, p)
    decreases |list|
  {
    if list != [] {
      var front, last := list[..|list| - 1], list[|list| - 1];
      SortPairs(front, p);
      SortOrders(front);
      InsertPairs(last, Sorted(front), p);
      assert list == front + [last];
      PairsLast(front, last, p);
    }
  }

  lemma SortKeepsRanges(list: seq<Citation>, length: nat)
    ensures NonOverlapping(Sorted(list), length) <==> NonOverlapping(list, length)
    ensures SafeOrder(Sorted(list)) <==> SafeOrder(list)
  {
    SortOrders(list);
    SortPairs(list, Apart);
    SortPairs(list, Harmless);
  }

  lemma {:induction false} MarkHead(c: Citation, list: seq<Citation>, sources: seq<Url>, p: int)
    ensures Mark([c] + list, sources, p) == Mark(list, sources, p) + MarkAt(c, sources, p)
    decreases |list|
  {
    if list == [] {
      MarkWith([], c, sources, p);
      assert [c] + list == [] + [c];
    } else {
      var front, last := list[..|list| - 1], list[|list| - 1];
      assert list == front + [last] && [c] + list == ([c] + front) + [last];
      MarkHead(c, front, sources, p);
      MarkWith(front, last, sources, p);
      MarkWith([c] + front, last, sources, p);
      Assoc(MarkAt(last, sources, p), Mark(front, sources, p), MarkAt(c, sources, p));
    }
  }

  predicate Located(list: seq<Citation>) {
    forall d :: d in list ==> d.startIndex.Some? && d.url.Some?
  }

  lemma {:induction false} InsertMarks(c: Citation, list: seq<Citation>, sources: seq<Url>, p: int)
    requires NeverEarlier(list) && c.startIndex.Some? && c.url.Some? && Located(list)
    ensures Mark(Insert(c, list), sources, p) == MarkAt(c, sources, p) + Mark(list, sources, p)
    decreases |list|
  {
    if list == [] {
      MarkHead(c, [], sources, p);
      assert [c] + [] == [c];
    } else {
      LaterHead(list);
      if StartKey(list[0]) < StartKey(c) {
        MarkHead(c, list, sources, p);
        if StartsAt(c, p) {
          Unmarked(list, sources, p);
        }
      } else {
        var head, rest := list[0], list[1..];
        assert list == [head] + rest && forall d :: d in rest ==> d in list;
        InsertMarks(c, rest, sources, p);
        MarkHead(head, Insert(c, rest), sources, p);
        MarkHead(head, rest, sources, p);
        Assoc(MarkAt(c, sources, p), Mark(rest, sources, p), MarkAt(head, sources, p));
      }
    }
  }

  lemma {:induction false} SortMarks(list: seq<Citation>, sources: seq<Url>, p: int)
    requires Located(list)
    ensures Mark(Sorted(list), sources, p) == Mark(list, sources, p)
    decreases |list|
  {
    if list != [] {
      var front, last := list[..|list| - 1], list[|list| - 1];
      SortMarks(front, sources, p);
      SortOrders(front);
      InsertMarks(last, Sorted(front), sources, p);
    }
  }

  /** Sorting does not change what a simultaneous replacement emits. */
  lemma SortEmits(text: Text, list: seq<Citation>, sources: seq<Url>)
    requires AllUsable(list, |text|)
    ensures Emit(text, Sorted(list), sources) == Emit(text, list, sources)
  {
    forall p | 0 <= p <= |text|
      ensures Pieces(text, Sorted(list), sources)[p] == Pieces(text, list, sources)[p]
    {
      SortMarks(list, sources, p);
      SortCovers(list, p);
    }
    assert Pieces(text, Sorted(list), sources) == Pieces(text, list, sources);
  }

  lemma SortCovers(list: seq<Citation>, p: int)
    ensures Covered(Sorted(list), p) <==> Covered(list, p)
  {
    SortOrders(list);
    if i :| 0 <= i < |list| && Covers(list[i], p) {
      assert list[i] in Sorted(list);
    }
    if i :| 0 <= i < |Sorted(list)| && Covers(Sorted(list)[i], p) {
      assert Sorted(list)[i] in list;
    }
  }
}
