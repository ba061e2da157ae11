/**
 * Whether the warm windows cover the meetings, and the rule suggested when they do not:
 * scripts/meeting-cron-drift.py. Instants are microseconds; Taipei is eight hours ahead of UTC.
 */
module CronCoverage {
  import opened Basics

  const MINUTE: int := 60000000
  const DAY: int := 1440 * MINUTE
  const LEAD: int := 5 * MINUTE
  const TAIL: int := 10 * MINUTE
  const TAIPEI: int := 480 * MINUTE

  // ---- parse_cron ----

  datatype Cron = Cron(minute: nat, days: set<nat>) | Unsupported | OutOfRange | DuplicateWeekday

  /** The white space that str.strip removes. */
  predicate IsPySpace(c: char) {
    || '\t' <= c <= '\r' || '\U{001C}' <= c <= ' '
    || c in {'\U{0085}', '\U{00A0}', '\U{1680}', '\U{2028}', '\U{2029}', '\U{202F}', '\U{205F}', '\U{3000}'}
    || '\U{2000}' <= c <= '\U{200A}'
  }

  function LeftTrimmed(s: string): string {
    if s != "" && IsPySpace(s[0]) then LeftTrimmed(s[1..]) else s
  }

  function RightTrimmed(s: string): string {
    if s != "" && IsPySpace(s[|s| - 1]) then RightTrimmed(s[..|s| - 1]) else s
  }

  /** The fields between separators. */
  function Split(s: string, sep: char): (r: seq<string>)
    ensures r != []
  {
    if s == "" then [""]
    else if s[0] == sep then [""] + Split(s[1..], sep)
    else var rest := Split(s[1..], sep); [[s[0]] + rest[0]] + rest[1..]
  }

  /** \d{1,2} */
  predicate IsNumber(s: string) {
    1 <= |s| <= 2 && forall i :: 0 <= i < |s| ==> IsDigit(s[i])
  }

  function DigitValue(c: char): nat {
    if IsDigit(c) then (c - '0') as nat else 0
  }

  function NumberOf(s: string): nat
    requires IsNumber(s)
  {
    if |s| == 1 then DigitValue(s[0]) else 10 * DigitValue(s[0]) + DigitValue(s[1])
  }

  predicate IsWeekday(s: string) {
    |s| == 1 && '0' <= s[0] <= '6'
  }

  function Weekdays(fields: seq<string>): set<nat> {
    set f | f in fields && IsWeekday(f) :: DigitValue(f[0])
  }

  function ParseCron(expression: string): Cron {
    ParseFields(Split(RightTrimmed(LeftTrimmed(expression)), ' '))
  }

  /** M H * * D[,D] */
  function ParseFields(fields: seq<string>): Cron {
    if |fields| != 5 || !IsNumber(fields[0]) || !IsNumber(fields[1]) || fields[2] != "*" || fields[3] != "*"
    then Unsupported
    else
      var days := Split(fields[4], ',');
      if exists i :: 0 <= i < |days| && !IsWeekday(days[i]) then Unsupported
      else if NumberOf(fields[0]) > 59 || NumberOf(fields[1]) > 23 then OutOfRange
      else if |Weekdays(days)| != |days| then DuplicateWeekday
      else Cron(NumberOf(fields[1]) * 60 + NumberOf(fields[0]), Weekdays(days))
  }

  // ---- Windows and occurrences ----

  datatype Window = Window(start: nat, end: nat, days: set<nat>)

  /** What cron_rules lets through of a start and an end expression. */
  function WindowOf(start: Cron, end: Cron): Option<Window> {
    if start.Cron? && end.Cron? && start.days == end.days && start.minute < end.minute
    then Some(Window(start.minute, end.minute, start.days))
    else None
  }

  predicate ValidWindow(w: Window) {
    w.start < w.end <= 1439
  }

  lemma ParsedWindowsAreValid(start: string, end: string)
    ensures var w := WindowOf(ParseCron(start), ParseCron(end)); w.Some? ==> ValidWindow(w.value)
  {
  }

  /** What is parsed is a minute of the day and weekdays from Sunday, 0, to Saturday, 6. */
  lemma ParsedDaysAreWeekdays(expression: string)
    requires ParseCron(expression).Cron?
    ensures ParseCron(expression).minute <= 1439
    ensures ParseCron(expression).days != {} && forall d :: d in ParseCron(expression).days ==> d <= 6
  {
    var fields := Split(RightTrimmed(LeftTrimmed(expression)), ' ');
    var days := Split(fields[4], ',');
    assert days[0] in days && IsWeekday(days[0]);
    assert DigitValue(days[0][0]) in Weekdays(days);
  }

  /** UTC instants; an occurrence that ends before it starts is refused before it gets here. */
  datatype Occurrence = Occurrence(startsAt: int, endsAt: int)

  predicate IsOccurrence(o: Occurrence) {
    o.startsAt < o.endsAt
  }

  /** Local instants: five minutes before the start to ten minutes after the end. */
  function RequiredStart(o: Occurrence): int {
    o.startsAt - LEAD + TAIPEI
  }

  function RequiredEnd(o: Occurrence): int {
    o.endsAt + TAIL + TAIPEI
  }

  function DateOf(local: int): int {
    local / DAY
  }

  function TimeOf(local: int): int {
    local % DAY
  }

  /** 0 is Sunday; the epoch was a Thursday. */
  function Weekday(local: int): nat {
    (DateOf(local) + 4) % 7
  }

  function MinuteOf(local: int): int {
    TimeOf(local) / MINUTE
  }

  function CeilingMinute(local: int): int {
    MinuteOf(local) + if TimeOf(local) % MINUTE != 0 then 1 else 0
  }

  predicate Covers(w: Window, o: Occurrence) {
    && DateOf(RequiredStart(o)) == DateOf(RequiredEnd(o))
    && Weekday(RequiredStart(o)) in w.days
    && w.start <= MinuteOf(RequiredStart(o)) && CeilingMinute(RequiredEnd(o)) <= w.end
  }

  method CoveringRule(o: Occurrence, windows: seq<Window>) returns (r: Option<Window>)
    ensures r.Some? ==> exists i :: 0 <= i < |windows| && windows[i] == r.value && Covers(r.value, o) &&
                                    forall j :: 0 <= j < i ==> !Covers(windows[j], o)
    ensures r.None? ==> forall i :: 0 <= i < |windows| ==> !Covers(windows[i], o)
  {
    var start, end := RequiredStart(o), RequiredEnd(o);
    if DateOf(start) != DateOf(end) { return None; }
    var weekday := Weekday(start);
    var startMinute, endMinute := MinuteOf(start), CeilingMinute(end);
    for i := 0 to |windows|
      invariant forall j :: 0 <= j < i ==> !Covers(windows[j], o)
    {
      if weekday in windows[i].days && windows[i].start <= startMinute && endMinute <= windows[i].end {
        return Some(windows[i]);
      }
    }
    return None;
  }

  // ---- Covering is what it should be ----

  /** The window is open at a local instant. */
  predicate OpenAt(w: Window, local: int) {
    Weekday(local) in w.days && w.start * MINUTE <= TimeOf(local) <= w.end * MINUTE
  }

  lemma DateAndTime(local: int)
    ensures local == DateOf(local) * DAY + TimeOf(local) && 0 <= TimeOf(local) < DAY
  {
  }

  lemma MinuteBounds(time: int, bound: nat)
    requires 0 <= time
    ensures bound * MINUTE <= time <==> bound <= time / MINUTE
    ensures time <= bound * MINUTE <==> time / MINUTE + (if time % MINUTE != 0 then 1 else 0) <= bound
  {
    var q, r := time / MINUTE, time % MINUTE;
    assert time == q * MINUTE + r && 0 <= r < MINUTE;
  }

  lemma TimeWithin(local: int, w: Window)
    ensures w.start * MINUTE <= TimeOf(local) <==> w.start <= MinuteOf(local)
    ensures TimeOf(local) <= w.end * MINUTE <==> CeilingMinute(local) <= w.end
  {
    DateAndTime(local);
    MinuteBounds(TimeOf(local), w.start);
    MinuteBounds(TimeOf(local), w.end);
  }

  lemma SameDate(s: int, t: int, e: int)
    requires s <= t <= e && DateOf(s) == DateOf(e)
    ensures DateOf(t) == DateOf(s) && TimeOf(s) <= TimeOf(t) <= TimeOf(e)
  {
    DateAndTime(s);
    DateAndTime(t);
    DateAndTime(e);
  }

  /** The last instant of a day, when every valid window is closed. */
  function Midnight(local: int): int {
    (DateOf(local) + 1) * DAY - 1
  }

  lemma ClosedBeforeMidnight(local: int, w: Window)
    requires ValidWindow(w)
    ensures local <= Midnight(local) && !OpenAt(w, Midnight(local))
    ensures forall later :: DateOf(later) > DateOf(local) ==> Midnight(local) <= later
  {
    DateAndTime(local);
    DateAndTime(Midnight(local));
    assert DateOf(Midnight(local)) == DateOf(local);
    assert TimeOf(Midnight(local)) == DAY - 1;
    forall later | DateOf(later) > DateOf(local)
      ensures Midnight(local) <= later
    {
      DateAndTime(later);
    }
  }

  /** From five minutes before the start to ten minutes after the end, in Taipei time, the window is open. */
  predicate OpenThroughout(w: Window, o: Occurrence) {
    forall t: int :: o.startsAt - 5 * 60_000_000 <= t - 8 * 3_600_000_000 <= o.endsAt + 10 * 60_000_000 ==> OpenAt(w, t)
  }

  /** A day lasts from midnight to midnight and is followed by the next weekday; 1 January 2024 was a Monday. */
  lemma WeekdaysGoRound(local: int, day: int)
    ensures day * 86_400_000_000 <= local < (day + 1) * 86_400_000_000 ==> Weekday(local) == (day - 19723 + 1) % 7
    ensures Weekday(local + 86_400_000_000) == if Weekday(local) == 6 then 0 else Weekday(local) + 1
  {
    DateAndTime(local);
    DateAndTime(local + DAY);
    assert day * DAY <= local < (day + 1) * DAY ==> DateOf(local) == day;
    assert DateOf(local + DAY) == DateOf(local) + 1;
  }

  /** A rule covers an occurrence exactly when its window is open at every instant that is required. */
  lemma CoversIffOpenThroughout(w: Window, o: Occurrence)
    requires ValidWindow(w) && IsOccurrence(o)
    ensures Covers(w, o) <==> OpenThroughout(w, o)
  {
    var s, e := RequiredStart(o), RequiredEnd(o);
    TimeWithin(s, w);
    TimeWithin(e, w);
    if DateOf(s) == DateOf(e) {
      assert Covers(w, o) <==> OpenAt(w, s) && OpenAt(w, e);
      forall t | s <= t <= e
        ensures DateOf(t) == DateOf(s) && TimeOf(s) <= TimeOf(t) <= TimeOf(e)
      {
        SameDate(s, t, e);
      }
    } else {
      ClosedBeforeMidnight(s, w);
      DateAndTime(s);
      DateAndTime(e);
      assert DateOf(e) > DateOf(s);
      assert s <= Midnight(s) <= e && !OpenAt(w, Midnight(s));
    }
  }

  // ---- The suggested rule ----

  function Decimal(n: nat): string {
    if n < 10 then ["0123456789"[n]] else Decimal(n / 10) + ["0123456789"[n % 10]]
  }

  /** A field, a blank and the rest. */
  function Field(field: string, rest: string): string {
    field + [' '] + rest
  }

  function CronText(minuteOfDay: nat, weekday: nat): string {
    Field(Decimal(minuteOfDay % 60), Field(Decimal(minuteOfDay / 60), Field("*", Field("*", Decimal(weekday)))))
  }

  /** The end, moved on by a minute when it is not on one. */
  function CeilingEnd(o: Occurrence): int {
    RequiredEnd(o) + if TimeOf(RequiredEnd(o)) % MINUTE != 0 then MINUTE else 0
  }

  datatype Rule = Rule(start: string, end: string)

  function SuggestedRule(o: Occurrence): Rule {
    var weekday := Weekday(RequiredStart(o));
    DateAndTime(RequiredStart(o));
    DateAndTime(CeilingEnd(o));
    Rule(CronText(MinuteOf(RequiredStart(o)), weekday), CronText(MinuteOf(CeilingEnd(o)), weekday))
  }

  // ---- It parses to what it says ----

  predicate Free(s: string, sep: char) {
    forall i :: 0 <= i < |s| ==> s[i] != sep
  }

  lemma {:induction false} SplitField(a: string, sep: char, b: string)
    requires Free(a, sep)
    ensures Split(a + [sep] + b, sep) == [a] + Split(b, sep)
    decreases |a|
  {
    var s := a + [sep] + b;
    if a == "" {
      assert s[1..] == b;
    } else {
      assert s[1..] == a[1..] + [sep] + b;
      SplitField(a[1..], sep, b);
      assert [a[0]] + a[1..] == a;
    }
  }

  lemma {:induction false} SplitLast(a: string, sep: char)
    requires Free(a, sep)
    ensures Split(a, sep) == [a]
    decreases |a|
  {
    if a != "" {
      SplitLast(a[1..], sep);
      assert [a[0]] + a[1..] == a;
    }
  }

  /** Numbers below sixty print as one or two digits and read back. */
  lemma DecimalReads(n: nat)
    requires n < 60
    ensures IsNumber(Decimal(n)) && NumberOf(Decimal(n)) == n && Free(Decimal(n), ' ')
    ensures n < 7 ==> IsWeekday(Decimal(n)) && DigitValue(Decimal(n)[0]) == n && Free(Decimal(n), ',')
  {
    DigitPrints(n % 10);
    if n >= 10 {
      DigitPrints(n / 10);
      assert Decimal(n) == ["0123456789"[n / 10], "0123456789"[n % 10]];
    }
  }

  lemma DigitPrints(d: nat)
    requires d < 10
    ensures var c := "0123456789"[d]; IsDigit(c) && DigitValue(c) == d && c != ' ' && c != ',' && !IsPySpace(c)
    ensures d < 7 ==> "0123456789"[d] <= '6'
  {
  }

  lemma CronTextIsTrimmed(minuteOfDay: nat, weekday: nat)
    requires minuteOfDay <= 1439 && weekday < 7
    ensures var t := CronText(minuteOfDay, weekday); RightTrimmed(LeftTrimmed(t)) == t
  {
    DecimalReads(minuteOfDay % 60);
    DecimalReads(weekday);
    DigitPrints(weekday);
    var t := CronText(minuteOfDay, weekday);
    assert t[0] == Decimal(minuteOfDay % 60)[0];
    assert t[|t| - 1] == Decimal(weekday)[0];
    assert IsDigit(t[0]) && IsDigit(t[|t| - 1]);
  }

  lemma SplitNext(field: string, rest: string)
    requires Free(field, ' ')
    ensures Split(Field(field, rest), ' ') == [field] + Split(rest, ' ')
  {
    SplitField(field, ' ', rest);
  }

  lemma FiveInARow(a: string, b: string, c: string, d: string, e: string)
    ensures [a] + ([b] + ([c] + ([d] + [e]))) == [a, b, c, d, e]
  {
  }

  lemma FiveFields(a: string, b: string, c: string, d: string, e: string)
    requires Free(a, ' ') && Free(b, ' ') && Free(c, ' ') && Free(d, ' ') && Free(e, ' ')
    ensures Split(Field(a, Field(b, Field(c, Field(d, e)))), ' ') == [a, b, c, d, e]
  {
    var fromD := Field(d, e);
    var fromC := Field(c, fromD);
    var fromB := Field(b, fromC);
    SplitLast(e, ' ');
    SplitNext(d, e);
    SplitNext(c, fromD);
    SplitNext(b, fromC);
    SplitNext(a, fromB);
    FiveInARow(a, b, c, d, e);
  }

  lemma FieldsParse(minute: string, hour: string, weekday: string)
    requires IsNumber(minute) && IsNumber(hour) && IsWeekday(weekday) && Split(weekday, ',') == [weekday]
    requires NumberOf(minute) <= 59 && NumberOf(hour) <= 23
    ensures ParseFields([minute, hour, "*", "*", weekday]) ==
            Cron(NumberOf(hour) * 60 + NumberOf(minute), {DigitValue(weekday[0])})
  {
    assert Weekdays([weekday]) == {DigitValue(weekday[0])};
  }

  /** parse_cron reads back what suggested_rule prints. */
  lemma CronTextParses(minuteOfDay: nat, weekday: nat)
    requires minuteOfDay <= 1439 && weekday < 7
    ensures ParseCron(CronText(minuteOfDay, weekday)) == Cron(minuteOfDay, {weekday})
  {
    var m, h, d := Decimal(minuteOfDay % 60), Decimal(minuteOfDay / 60), Decimal(weekday);
    CronTextIsTrimmed(minuteOfDay, weekday);
    DecimalReads(minuteOfDay % 60);
    DecimalReads(minuteOfDay / 60);
    DecimalReads(weekday);
    TrimmedParses(m, h, d, CronText(minuteOfDay, weekday));
  }

  lemma TrimmedParses(m: string, h: string, d: string, text: string)
    requires text == Field(m, Field(h, Field("*", Field("*", d)))) && RightTrimmed(LeftTrimmed(text)) == text
    requires IsNumber(m) && IsNumber(h) && IsWeekday(d) && NumberOf(m) <= 59 && NumberOf(h) <= 23
    ensures ParseCron(text) == Cron(NumberOf(h) * 60 + NumberOf(m), {DigitValue(d[0])})
  {
    FiveFields(m, h, "*", "*", d);
    SplitLast(d, ',');
    FieldsParse(m, h, d);
  }

  // ---- It closes the gap whenever a rule can ----

  /** The required window ends, rounded up to a minute, by 23:59 of the day it starts on. */
  predicate Coverable(o: Occurrence) {
    DateOf(RequiredStart(o)) == DateOf(RequiredEnd(o)) && CeilingMinute(RequiredEnd(o)) <= 1439
  }

  lemma CeilingEndMinute(o: Occurrence)
    requires CeilingMinute(RequiredEnd(o)) <= 1439
    ensures MinuteOf(CeilingEnd(o)) == CeilingMinute(RequiredEnd(o))
  {
    var e := RequiredEnd(o);
    DateAndTime(e);
    if TimeOf(e) % MINUTE != 0 {
      NextMinute(TimeOf(e));
      SameDayLater(e, MINUTE);
    }
  }

  lemma NextMinute(time: int)
    requires 0 <= time
    ensures (time + MINUTE) / MINUTE == time / MINUTE + 1
    ensures time / MINUTE <= 1438 ==> time + MINUTE < DAY
  {
  }

  lemma SameDayLater(local: int, more: int)
    requires 0 <= more && TimeOf(local) + more < DAY
    ensures TimeOf(local + more) == TimeOf(local) + more
  {
    DateAndTime(local);
    DateAndTime(local + more);
  }

  /** The window of an occurrence is at least fifteen minutes long, so start and end differ. */
  lemma StartsBeforeItEnds(o: Occurrence)
    requires IsOccurrence(o) && DateOf(RequiredStart(o)) == DateOf(RequiredEnd(o))
    ensures MinuteOf(RequiredStart(o)) < CeilingMinute(RequiredEnd(o))
  {
    var s, e := RequiredStart(o), RequiredEnd(o);
    DateAndTime(s);
    DateAndTime(e);
    MinuteBounds(TimeOf(s), MinuteOf(s));
    MinuteBounds(TimeOf(e), CeilingMinute(e));
  }

  function SuggestedWindow(o: Occurrence): Option<Window> {
    WindowOf(ParseCron(SuggestedRule(o).start), ParseCron(SuggestedRule(o).end))
  }

  /** The suggestion re-parses to a rule that covers the occurrence exactly when any rule at all can. */
  lemma SuggestionClosesTheGap(o: Occurrence)
    requires IsOccurrence(o)
    ensures SuggestedWindow(o).Some? && Covers(SuggestedWindow(o).value, o) <==> Coverable(o)
    ensures Coverable(o) <==> exists w :: ValidWindow(w) && Covers(w, o)
  {
    DateAndTime(RequiredStart(o));
    DateAndTime(CeilingEnd(o));
    var weekday := Weekday(RequiredStart(o));
    CronTextParses(MinuteOf(RequiredStart(o)), weekday);
    CronTextParses(MinuteOf(CeilingEnd(o)), weekday);
    ParsedWindowsAreValid(SuggestedRule(o).start, SuggestedRule(o).end);
    if Coverable(o) {
      CeilingEndMinute(o);
      StartsBeforeItEnds(o);
      assert SuggestedWindow(o) == Some(Window(MinuteOf(RequiredStart(o)), CeilingMinute(RequiredEnd(o)), {weekday}));
      assert ValidWindow(SuggestedWindow(o).value) && Covers(SuggestedWindow(o).value, o);
    }
  }

  /** Adding the suggestion to any rules makes the occurrence covered; without it nothing could. */
  lemma AddingTheSuggestion(o: Occurrence, windows: seq<Window>)
    requires IsOccurrence(o) && forall w :: w in windows ==> ValidWindow(w)
    ensures Coverable(o) ==>
              && SuggestedWindow(o).Some?
              && exists w :: w in windows + [SuggestedWindow(o).value] && ValidWindow(w) && OpenThroughout(w, o)
    ensures !Coverable(o) ==> forall w :: ValidWindow(w) ==> !OpenThroughout(w, o)
  {
    SuggestionClosesTheGap(o);
    ParsedWindowsAreValid(SuggestedRule(o).start, SuggestedRule(o).end);
    if Coverable(o) {
      var w := SuggestedWindow(o).value;
      CoversIffOpenThroughout(w, o);
      assert w in windows + [w];
    } else {
      forall w | ValidWindow(w)
        ensures !OpenThroughout(w, o)
      {
        CoversIffOpenThroughout(w, o);
      }
    }
  }
}
