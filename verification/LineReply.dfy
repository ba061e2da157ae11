/** The reply splitter, src/line-reply.ts, on texts of UTF-16 code units. */
module LineReply {
  import opened Basics

  type Unit = u: int | 0 <= u < 0x10000
  type Text = seq<Unit>

  const NEWLINE: Unit := 10
  const PART_LIMIT: nat := 5000

  predicate IsHigh(u: Unit) { 0xD800 <= u <= 0xDBFF }
  predicate IsLow(u: Unit) { 0xDC00 <= u <= 0xDFFF }

  /** The code units of a text without supplementary characters. */
  function Units(s: string): (t: Text)
    ensures |t| == |s|
  {
    seq(|s|, i requires 0 <= i < |s| => if s[i] as int < 0x10000 then s[i] as int else 0xFFFD)
  }

  const TooLong: Text := Units("剩餘結果超過單次訊息上限，請縮小查詢範圍後取得完整內容。")
  const Nothing: Text := Units("目前沒有可顯示的內容。")

  /** lastIndexOf of a newline at or before an index. */
  function LastNewline(t: Text, upTo: int): (i: int)
    requires -1 <= upTo < |t|
    ensures -1 <= i <= upTo
    ensures i >= 0 ==> t[i] == NEWLINE
    ensures forall k :: i < k <= upTo ==> t[k] != NEWLINE
  {
    if upTo < 0 then -1 else if t[upTo] == NEWLINE then upTo else LastNewline(t, upTo - 1)
  }

  function CutEnd(t: Text): nat
    requires |t| > PART_LIMIT
  {
    var line := LastNewline(t, 4999) + 1;
    var end := if line < 2500 then 5000 else line;
    if IsHigh(t[end - 1]) then end - 1 else end
  }

  /** The parts cut off while more than one message remains, at most budget of them. */
  function Cuts(t: Text, budget: nat): seq<Text> {
    if |t| <= PART_LIMIT || budget == 0 then []
    else [t[..CutEnd(t)]] + Cuts(t[CutEnd(t)..], budget - 1)
  }

  function Rest(t: Text, budget: nat): Text {
    if |t| <= PART_LIMIT || budget == 0 then t else Rest(t[CutEnd(t)..], budget - 1)
  }

  function LastPart(rest: Text): Text {
    if |rest| > PART_LIMIT then TooLong else if rest == [] then Nothing else rest
  }

  function Parts(t: Text): seq<Text> {
    Cuts(t, 4) + [LastPart(Rest(t, 4))]
  }

  function Join(parts: seq<Text>): Text {
    if parts == [] then [] else parts[0] + Join(parts[1..])
  }

  /** The caption of a quick reply is unread; its action is carried along. */
  datatype QuickReplyItem = QuickReplyItem(caption: nat, action: nat)
  datatype Message = Message(text: Text, quickReply: Option<seq<nat>>)

  function Actions(items: seq<QuickReplyItem>): seq<nat> {
    seq(Min(13, |items|), k requires 0 <= k < Min(13, |items|) => items[k].action)
  }

  /** Quick replies go with the last message only. */
  function QuickReply(items: seq<QuickReplyItem>, isLast: bool): Option<seq<nat>> {
    if isLast && items != [] then Some(Actions(items)) else None
  }

  method SplitText(text: Text) returns (parts: seq<Text>)
    ensures parts == Parts(text)
  {
    parts := [];
    var remaining := text;
    while |remaining| > PART_LIMIT && |parts| < 4
      invariant |parts| <= 4
      invariant parts + Cuts(remaining, 4 - |parts|) == Cuts(text, 4)
      invariant Rest(remaining, 4 - |parts|) == Rest(text, 4)
      decreases 4 - |parts|
    {
      var end := LastNewline(remaining, 4999) + 1;
      if end < 2500 { end := 5000; }
      if IsHigh(remaining[end - 1]) { end := end - 1; }
      assert end == CutEnd(remaining);
      CutsMove(parts, remaining, 4 - |parts|);
      parts := parts + [remaining[..end]];
      remaining := remaining[end..];
    }
    assert Cuts(remaining, 4 - |parts|) == [];
    if |remaining| > PART_LIMIT { remaining := TooLong; }
    parts := parts + [if remaining == [] then Nothing else remaining];
  }

  lemma CutsMove(parts: seq<Text>, t: Text, budget: nat)
    requires |t| > PART_LIMIT && budget > 0
    ensures parts + Cuts(t, budget) == (parts + [t[..CutEnd(t)]]) + Cuts(t[CutEnd(t)..], budget - 1)
  {
  }

  method BuildLineTextMessages(text: Text, quickReplies: seq<QuickReplyItem>) returns (messages: seq<Message>)
    ensures |messages| == |Parts(text)|
    ensures forall k :: 0 <= k < |messages| ==>
              messages[k] == Message(Parts(text)[k], QuickReply(quickReplies, k == |messages| - 1))
    ensures forall k :: 0 <= k < |messages| - 1 ==> messages[k].quickReply == None
    ensures messages[|messages| - 1].quickReply.Some? <==> quickReplies != []
    ensures quickReplies != [] ==>
              var shown := messages[|messages| - 1].quickReply.value;
              && |shown| == (if |quickReplies| < 13 then |quickReplies| else 13)
              && forall k :: 0 <= k < |shown| ==> shown[k] == quickReplies[k].action
  {
    var parts := SplitText(text);
    messages := [];
    for index := 0 to |parts|
      invariant |messages| == index
      invariant forall k :: 0 <= k < index ==>
                  messages[k] == Message(parts[k], QuickReply(quickReplies, k == |parts| - 1))
    {
      messages := messages + [Message(parts[index], QuickReply(quickReplies, index == |parts| - 1))];
    }
  }

  predicate FitsCompleteWritePreview(text: Text) {
    |text| <= 24000 && Join(Parts(text)) == text
  }

  // ---- Sizes ----

  lemma {:induction false} LastNewlineIsLater(t: Text, upTo: int, k: nat)
    requires k <= upTo < |t| && t[k] == NEWLINE
    ensures LastNewline(t, upTo) >= k
  {
  }

  /** A cut falls behind the last newline that leaves 2500 units or more, and otherwise at the limit. */
  lemma CutFallsWell(t: Text)
    requires |t| > PART_LIMIT
    ensures 2500 <= CutEnd(t) <= PART_LIMIT
    ensures forall k :: 2499 <= k < PART_LIMIT && t[k] == NEWLINE ==> k < CutEnd(t) && t[CutEnd(t) - 1] == NEWLINE
    ensures t[CutEnd(t) - 1] == NEWLINE || CutEnd(t) == PART_LIMIT || (CutEnd(t) == 4999 && IsHigh(t[4999]))
  {
  }

  lemma {:induction false} CutSizes(t: Text, budget: nat)
    ensures |Cuts(t, budget)| <= budget
    ensures forall k :: 0 <= k < |Cuts(t, budget)| ==> 2500 <= |Cuts(t, budget)[k]| <= PART_LIMIT
    ensures Rest(t, budget) == [] ==> t == []
    ensures |Rest(t, budget)| > PART_LIMIT ==> |Cuts(t, budget)| == budget
    decreases budget
  {
    if |t| > PART_LIMIT && budget > 0 {
      CutFallsWell(t);
      CutSizes(t[CutEnd(t)..], budget - 1);
    }
  }

  /** At most five parts, none empty or too long, and every one but the last at least half full. */
  lemma PartSizes(t: Text)
    ensures 1 <= |Parts(t)| <= 5
    ensures forall k :: 0 <= k < |Parts(t)| ==> 1 <= |Parts(t)[k]| <= PART_LIMIT
    ensures forall k :: 0 <= k < |Parts(t)| - 1 ==> |Parts(t)[k]| >= 2500
  {
    CutSizes(t, 4);
  }

  // ---- Nothing is lost ----

  lemma {:induction false} JoinAppend(parts: seq<Text>, last: Text)
    ensures Join(parts + [last]) == Join(parts) + last
    decreases |parts|
  {
    if parts == [] {
      assert ([] + [last])[1..] == [];
    } else {
      assert (parts + [last])[1..] == parts[1..] + [last];
      JoinAppend(parts[1..], last);
    }
  }

  lemma JoinPrepend(t: Text, end: nat, tail: seq<Text>, rest: Text)
    requires end <= |t| && Join(tail) + rest == t[end..]
    ensures Join([t[..end]] + tail) + rest == t
  {
    assert ([t[..end]] + tail)[1..] == tail;
    assert t[..end] + (Join(tail) + rest) == t;
  }

  lemma {:induction false} CutsJoin(t: Text, budget: nat)
    ensures Join(Cuts(t, budget)) + Rest(t, budget) == t
    decreases budget
  {
    if |t| > PART_LIMIT && budget > 0 {
      var end := CutEnd(t);
      CutsJoin(t[end..], budget - 1);
      JoinPrepend(t, end, Cuts(t[end..], budget - 1), Rest(t[end..], budget - 1));
    }
  }

  /** The parts spell out the text exactly when it is not empty and four cuts leave one message. */
  lemma WholeIff(t: Text)
    ensures Join(Parts(t)) == t <==> t != [] && |Rest(t, 4)| <= PART_LIMIT
  {
    CutsJoin(t, 4);
    CutSizes(t, 4);
    JoinAppend(Cuts(t, 4), LastPart(Rest(t, 4)));
    assert |Join(Parts(t))| == |Join(Cuts(t, 4))| + |LastPart(Rest(t, 4))|;
    assert |t| == |Join(Cuts(t, 4))| + |Rest(t, 4)|;
  }

  /** What cannot be delivered says so: an empty text, and one of which too much is left after four cuts. */
  lemma NoticesStandIn(t: Text)
    ensures t == [] ==> Parts(t) == [Nothing]
    ensures t != [] && Join(Parts(t)) != t ==>
              |Parts(t)| == 5 && Parts(t)[4] == TooLong && Join(Parts(t)[..4]) <= t
  {
    WholeIff(t);
    CutSizes(t, 4);
    CutsJoin(t, 4);
    if |Rest(t, 4)| > PART_LIMIT {
      assert Parts(t)[..4] == Cuts(t, 4);
    }
  }

  /** Two consecutive cuts take more than one message together: the second line starts where no newline is near. */
  lemma TwoCuts(t: Text)
    requires |t| > PART_LIMIT && |t[CutEnd(t)..]| > PART_LIMIT
    ensures CutEnd(t) + CutEnd(t[CutEnd(t)..]) >= 5001
  {
    var first, tail := CutEnd(t), t[CutEnd(t)..];
    CutFallsWell(t);
    CutFallsWell(tail);
    if tail[CutEnd(tail) - 1] == NEWLINE && first < 4999 {
      assert tail[CutEnd(tail) - 1] == t[first + CutEnd(tail) - 1];
    }
  }

  lemma TwoCutsTake(t: Text, budget: nat)
    requires budget >= 2 && |Rest(t, budget)| > PART_LIMIT
    ensures |t| > PART_LIMIT && |t[CutEnd(t)..]| > PART_LIMIT
    ensures var tail := t[CutEnd(t)..][CutEnd(t[CutEnd(t)..])..];
            Rest(t, budget) == Rest(tail, budget - 2) && |tail| <= |t| - 5001
  {
    if |t| > PART_LIMIT && |t[CutEnd(t)..]| > PART_LIMIT {
      TwoCuts(t);
    }
  }

  /** Every text of at most 15002 units is delivered whole. */
  lemma WholeUpTo15002(t: Text)
    requires 0 < |t| <= 15002
    ensures Join(Parts(t)) == t
  {
    WholeIff(t);
    if |Rest(t, 4)| > PART_LIMIT {
      TwoCutsTake(t, 4);
      TwoCutsTake(t[CutEnd(t)..][CutEnd(t[CutEnd(t)..])..], 2);
    }
  }

  /** Newlines that make four cuts take as little as they can. */
  const UnluckyLines := {2499, 5000, 7500, 10001}

  predicate IsUnlucky(t: Text) {
    |t| == 15003 && forall k :: 0 <= k < |t| ==> (t[k] == NEWLINE <==> k in UnluckyLines)
  }

  lemma CutAt(t: Text, line: nat)
    requires |t| > PART_LIMIT && 2499 <= line < PART_LIMIT && t[line] == NEWLINE
    requires forall k :: line < k < PART_LIMIT ==> t[k] != NEWLINE
    ensures CutEnd(t) == line + 1
  {
    LastNewlineIsLater(t, 4999, line);
  }

  /** A part of the unlucky text that starts at from is cut behind this line. */
  predicate NextLine(from: nat, line: nat) {
    && from + PART_LIMIT < 15003 && line in UnluckyLines && 2499 <= line - from < PART_LIMIT
    && forall k :: line < k < from + PART_LIMIT ==> k !in UnluckyLines
  }

  lemma NextLines()
    ensures NextLine(0, 2499) && NextLine(2500, 5000) && NextLine(5001, 7500) && NextLine(7501, 10001)
  {
  }

  lemma UnluckyCut(t: Text, from: nat, line: nat, budget: nat)
    requires IsUnlucky(t) && NextLine(from, line)
    ensures Rest(t[from..], budget + 1) == Rest(t[line + 1..], budget)
  {
    CutAt(t[from..], line - from);
    assert t[from..][line + 1 - from..] == t[line + 1..];
  }

  lemma UnluckyRest(t: Text, budget: nat)
    requires IsUnlucky(t)
    ensures Rest(t, budget + 1 + 1) == Rest(t[5001..], budget)
    ensures Rest(t[5001..], budget + 1 + 1) == Rest(t[10002..], budget)
  {
    NextLines();
    UnluckyCut(t, 0, 2499, budget + 1);
    UnluckyCut(t, 2500, 5000, budget);
    UnluckyCut(t, 5001, 7500, budget + 1);
    UnluckyCut(t, 7501, 10001, budget);
    assert t[0..] == t;
  }

  lemma UnluckyLosesItsEnd(t: Text)
    requires IsUnlucky(t)
    ensures Join(Parts(t)) != t
  {
    UnluckyRest(t, 2);
    UnluckyRest(t, 0);
    WholeIff(t);
  }

  /** The bound is exact: some text of 15003 units loses its end. */
  lemma NotWholeAt15003()
    ensures exists t: Text :: |t| == 15003 && Join(Parts(t)) != t
  {
    var t: Text := seq(15003, i => if i in UnluckyLines then NEWLINE else 65);
    UnluckyLosesItsEnd(t);
  }

  lemma FitsIff(t: Text)
    ensures FitsCompleteWritePreview(t) <==> 0 < |t| <= 24000 && |Rest(t, 4)| <= PART_LIMIT
  {
    WholeIff(t);
  }

  // ---- Surrogate pairs ----

  /** Section 3.9 of the Unicode Standard: surrogates only in pairs. */
  predicate WellFormed(t: Text) {
    && (forall i :: 0 <= i < |t| && IsHigh(t[i]) ==> i + 1 < |t| && IsLow(t[i + 1]))
    && (forall i :: 0 <= i < |t| && IsLow(t[i]) ==> i > 0 && IsHigh(t[i - 1]))
  }

  lemma CutKeepsPairs(t: Text)
    requires |t| > PART_LIMIT && WellFormed(t)
    ensures WellFormed(t[..CutEnd(t)]) && WellFormed(t[CutEnd(t)..])
  {
    CutFallsWell(t);
    var end := CutEnd(t);
    assert !IsHigh(t[end - 1]);
    assert !IsLow(t[end]);
    forall i | 0 <= i < |t| - end
      ensures t[end..][i] == t[end + i]
    {
    }
  }

  lemma {:induction false} CutsKeepPairs(t: Text, budget: nat)
    requires WellFormed(t)
    ensures WellFormed(Rest(t, budget)) && forall k :: 0 <= k < |Cuts(t, budget)| ==> WellFormed(Cuts(t, budget)[k])
    decreases budget
  {
    if |t| > PART_LIMIT && budget > 0 {
      CutKeepsPairs(t);
      CutFallsWell(t);
      CutsKeepPairs(t[CutEnd(t)..], budget - 1);
    }
  }

  /** Splitting a well-formed text never cuts a pair. */
  lemma PartsKeepPairs(t: Text)
    requires WellFormed(t)
    ensures forall k :: 0 <= k < |Parts(t)| ==> WellFormed(Parts(t)[k])
  {
    CutsKeepPairs(t, 4);
    NoticesWellFormed();
  }

  lemma NoticesWellFormed()
    ensures WellFormed(TooLong) && WellFormed(Nothing)
  {
    assert forall i :: 0 <= i < |TooLong| ==> !IsHigh(TooLong[i]) && !IsLow(TooLong[i]);
    assert forall i :: 0 <= i < |Nothing| ==> !IsHigh(Nothing[i]) && !IsLow(Nothing[i]);
  }
}
