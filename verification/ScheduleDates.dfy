/**
 * What validateScheduleMemoryBatch accepts, src/agent/memory-store.ts: months, calendar dates and
 * keys that a batch names once.
 */
module ScheduleDates {
  import opened Basics

  type Name = nat

  /** expiresAt as a caller gives it; a time is what Date.parse made of a non-empty text. */
  datatype Expiry = Absent | EmptyText | NotADate | Until(at: Time)

  /** notes stands for the fields that are carried along unread. */
  datatype EntryInput = EntryInput(serviceDate: string, meetingName: string, assignee: string, notes: nat)

  datatype BatchInput = BatchInput(profile: Name, scheduleType: Name, periodKey: Option<string>, title: nat,
                                   createdBy: Option<Name>, entries: seq<EntryInput>, expiresAt: Expiry)

  datatype Key = Key(profile: Name, scheduleType: Name, period: string)

  datatype Verdict = Valid | InvalidBatch | InvalidExpiry | InvalidEntry

  predicate AllDigits(s: string) {
    forall i :: 0 <= i < |s| ==> IsDigit(s[i])
  }

  function Number(s: string): nat
    requires AllDigits(s)
  {
    if s == "" then 0 else 10 * Number(s[..|s| - 1]) + (s[|s| - 1] - '0') as nat
  }

  /** Two decimal digits of a number below one hundred. */
  function TwoDigits(n: nat): string {
    if n < 100 then ["0123456789"[n / 10], "0123456789"[n % 10]] else "??"
  }

  function FourDigits(n: nat): string {
    TwoDigits(n / 100) + TwoDigits(n % 100)
  }

  // ---- The calendar ----

  predicate IsLeap(year: nat) {
    year % 4 == 0 && (year % 100 != 0 || year % 400 == 0)
  }

  function DaysIn(year: nat, month: nat): nat {
    if month == 2 then (if IsLeap(year) then 29 else 28)
    else if month in {4, 6, 9, 11} then 30
    else 31
  }

  datatype Date = Date(year: nat, month: nat, day: nat)

  predicate InCalendar(d: Date) {
    1 <= d.month <= 12 && 1 <= d.day <= DaysIn(d.year, d.month)
  }

  /** The date parser takes any day up to 31 and rolls it into the next month. */
  function Rolled(d: Date): Option<Date> {
    if !(1 <= d.month <= 12) || !(1 <= d.day <= 31) then None
    else if d.day <= DaysIn(d.year, d.month) then Some(d)
    else Some(Date(d.year, d.month + 1, d.day - DaysIn(d.year, d.month)))
  }

  /** The first ten characters of toISOString. */
  function Render(d: Date): string {
    FourDigits(d.year) + "-" + TwoDigits(d.month) + "-" + TwoDigits(d.day)
  }

  /** \d{4}-\d{2}-\d{2}, the whole text. */
  predicate LooksLikeDate(s: string) {
    && |s| == 10 && s[4] == '-' && s[7] == '-'
    && AllDigits(s[..4]) && AllDigits(s[5..7]) && AllDigits(s[8..])
  }

  /** \d{4}-(0[1-9]|1[0-2]), the whole text. */
  predicate LooksLikeMonth(s: string) {
    && |s| == 7 && s[4] == '-' && AllDigits(s[..4])
    && ((s[5] == '0' && '1' <= s[6] <= '9') || (s[5] == '1' && '0' <= s[6] <= '2'))
  }

  function DateOf(s: string): Date
    requires LooksLikeDate(s)
  {
    Date(Number(s[..4]), Number(s[5..7]), Number(s[8..]))
  }

  /** The check on one serviceDate: its form, that it parses, and that the parsed date reads the same. */
  predicate AcceptsDate(s: string) {
    LooksLikeDate(s) && Rolled(DateOf(s)).Some? && Render(Rolled(DateOf(s)).value) == s
  }

  lemma DigitReadsBack(c: char)
    requires IsDigit(c)
    ensures "0123456789"[(c - '0') as nat] == c
  {
  }

  lemma NumberOfTwo(s: string)
    requires |s| == 2 && AllDigits(s)
    ensures Number(s) < 100 && TwoDigits(Number(s)) == s
  {
    DigitReadsBack(s[0]);
    DigitReadsBack(s[1]);
    var tens, ones := (s[0] - '0') as nat, (s[1] - '0') as nat;
    assert Number(s[..1]) == tens by {
      assert s[..1][..0] == "";
    }
    assert Number(s) == 10 * tens + ones;
    assert Number(s) / 10 == tens && Number(s) % 10 == ones;
  }

  lemma NumberOfFour(s: string)
    requires |s| == 4 && AllDigits(s)
    ensures Number(s) < 10000 && FourDigits(Number(s)) == s
  {
    NumberOfTwo(s[..2]);
    NumberOfTwo(s[2..]);
    var a, b := Number(s[..2]), Number(s[2..]);
    NumberSplits(s);
    assert Number(s) / 100 == a && Number(s) % 100 == b;
    assert s[..2] + s[2..] == s;
  }

  lemma NumberSplits(s: string)
    requires |s| == 4 && AllDigits(s)
    ensures Number(s) == 100 * Number(s[..2]) + Number(s[2..])
  {
    assert s[..3][..2] == s[..2];
    assert s[2..][..1] == [s[2]] && s[2..][1] == s[3] && [s[2]][..0] == "";
    assert Number([s[2]]) == (s[2] - '0') as nat;
  }

  lemma RenderReadsBack(s: string)
    requires LooksLikeDate(s)
    ensures Render(DateOf(s)) == s && DateOf(s).year < 10000 && DateOf(s).month < 100 && DateOf(s).day < 100
  {
    NumberOfFour(s[..4]);
    NumberOfTwo(s[5..7]);
    NumberOfTwo(s[8..]);
  }

  lemma TwoDigitsInjective(n: nat, m: nat)
    requires n < 100 && m < 100 && TwoDigits(n) == TwoDigits(m)
    ensures n == m
  {
    assert TwoDigits(n)[0] == TwoDigits(m)[0] && TwoDigits(n)[1] == TwoDigits(m)[1];
  }

  /** The render-and-compare check accepts exactly the days of the calendar. */
  lemma AcceptsCalendarDates(s: string)
    ensures AcceptsDate(s) <==> LooksLikeDate(s) && InCalendar(DateOf(s))
  {
    if LooksLikeDate(s) {
      RenderReadsBack(s);
      var d := DateOf(s);
      if Rolled(d).Some? && !InCalendar(d) {
        var r := Rolled(d).value;
        assert Render(r)[8..] == TwoDigits(r.day) && s[8..] == TwoDigits(d.day);
        if Render(r) == s {
          TwoDigitsInjective(r.day, d.day);
        }
      }
    }
  }

  // ---- The batch ----

  function Prefix(s: string, n: nat): string {
    s[..Min(n, |s|)]
  }

  function PeriodOf(input: BatchInput): Option<string> {
    if input.periodKey.Some? then input.periodKey
    else if input.entries == [] then None
    else Some(Prefix(input.entries[0].serviceDate, 7))
  }

  predicate HasPeriod(input: BatchInput) {
    PeriodOf(input).Some? && LooksLikeMonth(PeriodOf(input).value)
  }

  function KeyOf(input: BatchInput): Key
    requires HasPeriod(input)
  {
    Key(input.profile, input.scheduleType, PeriodOf(input).value)
  }

  predicate Named(inputs: seq<BatchInput>, i: nat, key: Key)
    requires i <= |inputs|
  {
    exists j :: 0 <= j < i && HasPeriod(inputs[j]) && KeyOf(inputs[j]) == key
  }

  predicate AcceptsEntry(e: EntryInput, period: string) {
    AcceptsDate(e.serviceDate) && period + "-" <= e.serviceDate && !IsBlank(e.meetingName) && !IsBlank(e.assignee)
  }

  predicate AcceptsAll(entries: seq<EntryInput>, period: string) {
    forall k :: 0 <= k < |entries| ==> AcceptsEntry(entries[k], period)
  }

  function Fault(inputs: seq<BatchInput>, i: nat): Verdict
    requires i < |inputs|
  {
    var input := inputs[i];
    if !HasPeriod(input) || Named(inputs, i, KeyOf(inputs[i])) || input.entries == [] then InvalidBatch
    else if input.expiresAt.NotADate? then InvalidExpiry
    else if !AcceptsAll(input.entries, PeriodOf(input).value) then InvalidEntry
    else Valid
  }

  /** Which error an input gets: its period and its entries before its expiry, its expiry before any entry. */
  lemma FaultOrder(inputs: seq<BatchInput>, i: nat)
    requires i < |inputs|
    ensures var input := inputs[i];
            var unique := HasPeriod(input) &&
              forall j :: 0 <= j < i && HasPeriod(inputs[j]) ==> KeyOf(inputs[j]) != KeyOf(input);
            && (Fault(inputs, i) == InvalidBatch <==> !unique || |input.entries| == 0)
            && (Fault(inputs, i) == InvalidExpiry <==> unique && |input.entries| > 0 && input.expiresAt == NotADate)
            && (Fault(inputs, i) == InvalidEntry <==>
                  unique && |input.entries| > 0 && input.expiresAt != NotADate && !ValidInput(input))
  {
    FaultlessInput(inputs, i);
    if j :| 0 <= j < i && HasPeriod(inputs[j]) && HasPeriod(inputs[i]) && KeyOf(inputs[j]) == KeyOf(inputs[i]) {
      assert Named(inputs, i, KeyOf(inputs[i]));
    }
  }

  method ValidateEntries(entries: seq<EntryInput>, period: string) returns (ok: bool)
    ensures ok <==> AcceptsAll(entries, period)
  {
    for k := 0 to |entries|
      invariant AcceptsAll(entries[..k], period)
    {
      var accepted := AcceptsEntry(entries[k], period);
      AcceptsOneMore(entries[..k], entries[k], period);
      assert entries[..k + 1] == entries[..k] + [entries[k]];
      if !accepted { return false; }
    }
    assert entries[..|entries|] == entries;
    return true;
  }

  lemma AcceptsOneMore(front: seq<EntryInput>, e: EntryInput, period: string)
    ensures AcceptsAll(front + [e], period) <==> AcceptsAll(front, period) && AcceptsEntry(e, period)
  {
    if AcceptsAll(front + [e], period) {
      forall k | 0 <= k < |front|
        ensures AcceptsEntry(front[k], period)
      {
        assert (front + [e])[k] == front[k];
      }
      assert (front + [e])[|front|] == e;
    }
  }

  /** The loops of the validation: the first input at fault decides, in the order of its checks. */
  method ValidateScheduleMemoryBatch(inputs: seq<BatchInput>) returns (v: Verdict)
    ensures v == Valid ==> forall i :: 0 <= i < |inputs| ==> Fault(inputs, i) == Valid
    ensures v != Valid ==> exists i :: 0 <= i < |inputs| && Fault(inputs, i) == v &&
                                       forall j :: 0 <= j < i ==> Fault(inputs, j) == Valid
  {
    var keys: set<Key> := {};
    for i := 0 to |inputs|
      invariant forall j :: 0 <= j < i ==> Fault(inputs, j) == Valid
      invariant forall key :: key in keys <==> Named(inputs, i, key)
    {
      var input := inputs[i];
      var period := PeriodOf(input);
      if period.None? || !LooksLikeMonth(period.value) || KeyOf(input) in keys || input.entries == [] {
        assert Fault(inputs, i) == InvalidBatch;
        return InvalidBatch;
      }
      keys := keys + {KeyOf(input)};
      if input.expiresAt.NotADate? {
        assert Fault(inputs, i) == InvalidExpiry;
        return InvalidExpiry;
      }
      var ok := ValidateEntries(input.entries, period.value);
      if !ok {
        assert Fault(inputs, i) == InvalidEntry;
        return InvalidEntry;
      }
      NamedNext(inputs, i);
    }
    return Valid;
  }

  lemma NamedNext(inputs: seq<BatchInput>, i: nat)
    requires i < |inputs| && HasPeriod(inputs[i])
    ensures forall key :: Named(inputs, i + 1, key) <==> Named(inputs, i, key) || key == KeyOf(inputs[i])
  {
    forall key
      ensures Named(inputs, i + 1, key) <==> Named(inputs, i, key) || key == KeyOf(inputs[i])
    {
      assert key == KeyOf(inputs[i]) ==> HasPeriod(inputs[i]) && KeyOf(inputs[i]) == key;
      if Named(inputs, i + 1, key) {
        var j :| 0 <= j < i + 1 && HasPeriod(inputs[j]) && KeyOf(inputs[j]) == key;
      }
    }
  }

  /** A batch a reader would call valid: distinct months of calendar days, nothing blank. */
  predicate ValidInput(input: BatchInput) {
    && HasPeriod(input) && input.entries != [] && !input.expiresAt.NotADate?
    && (forall e :: e in input.entries ==>
          && LooksLikeDate(e.serviceDate) && InCalendar(DateOf(e.serviceDate))
          && Prefix(e.serviceDate, 7) == PeriodOf(input).value
          && !IsBlank(e.meetingName) && !IsBlank(e.assignee))
  }

  predicate ValidBatch(inputs: seq<BatchInput>) {
    && (forall i :: 0 <= i < |inputs| ==> ValidInput(inputs[i]))
    && (forall i, j :: 0 <= i < j < |inputs| ==> KeyOf(inputs[i]) != KeyOf(inputs[j]))
  }

  lemma EntryAccepted(e: EntryInput, period: string)
    requires LooksLikeMonth(period)
    ensures AcceptsEntry(e, period) <==>
            LooksLikeDate(e.serviceDate) && InCalendar(DateOf(e.serviceDate)) && Prefix(e.serviceDate, 7) == period &&
            !IsBlank(e.meetingName) && !IsBlank(e.assignee)
  {
    AcceptsCalendarDates(e.serviceDate);
    if LooksLikeDate(e.serviceDate) {
      assert e.serviceDate == e.serviceDate[..7] + "-" + e.serviceDate[8..];
      assert period + "-" <= e.serviceDate ==> e.serviceDate[..8] == period + "-";
    }
  }

  lemma FaultlessInput(inputs: seq<BatchInput>, i: nat)
    requires i < |inputs|
    ensures Fault(inputs, i) == Valid <==> ValidInput(inputs[i]) && !Named(inputs, i, KeyOf(inputs[i]))
  {
    if HasPeriod(inputs[i]) {
      forall e
        ensures AcceptsEntry(e, PeriodOf(inputs[i]).value) <==>
                LooksLikeDate(e.serviceDate) && InCalendar(DateOf(e.serviceDate)) &&
                Prefix(e.serviceDate, 7) == PeriodOf(inputs[i]).value &&
                !IsBlank(e.meetingName) && !IsBlank(e.assignee)
      {
        EntryAccepted(e, PeriodOf(inputs[i]).value);
      }
    }
  }

  lemma AcceptedIffValid(inputs: seq<BatchInput>)
    ensures (forall i :: 0 <= i < |inputs| ==> Fault(inputs, i) == Valid) <==> ValidBatch(inputs)
  {
    forall i | 0 <= i < |inputs|
      ensures Fault(inputs, i) == Valid <==> ValidInput(inputs[i]) && !Named(inputs, i, KeyOf(inputs[i]))
    {
      FaultlessInput(inputs, i);
    }
  }
}
