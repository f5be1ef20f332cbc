/** Five-field cron expressions: parsing, matching, and the forward search for the next tick. */
module Cron {
  import opened Wrappers
  import opened Calendar
  import Text

  datatype Field = Star | Step(n: int) | List(values: seq<int>)

  datatype Fields = Fields(minute: Field, hour: Field, dom: Field, month: Field, dow: Field)

  /** JavaScript's Number() followed by Number.isInteger: the integer a text denotes, if any. */
  type NumberOf = string -> Option<int>

  const MINUTE_MS := 60_000
  const LIMIT := 366 * 24 * 60

  // ---------------------------------------------------------------------
  // Parsing
  // ---------------------------------------------------------------------

  function Trim(s: string): string {
    Text.Trim(s, Text.IsSpace)
  }

  /** The bounds a list part stands for; a single value is its own range. */
  function PartRange(part: string, number: NumberOf): (r: Option<(int, int)>)
    ensures r.Some? ==> r.value.0 <= r.value.1
  {
    var trimmed := Trim(part);
    if trimmed == "" then None
    else
      match Text.Find(trimmed, "-", 0)
      case Some(dash) =>
        (match (number(Trim(trimmed[..dash])), number(Trim(trimmed[dash + 1..])))
         case (Some(a), Some(b)) => if a > b then None else Some((a, b))
         case _ => None)
      case None =>
        match number(trimmed)
        case Some(v) => Some((v, v))
        case None => None
  }

  function Range(a: int, b: int): (r: seq<int>)
    ensures forall v :: v in r <==> a <= v <= b
    decreases b - a
  {
    if a > b then [] else Range(a, b - 1) + [b]
  }

  function Collect(parts: seq<string>, number: NumberOf): Option<seq<int>> {
    if parts == [] then Some([])
    else
      match (PartRange(parts[0], number), Collect(parts[1..], number))
      case (Some((a, b)), Some(rest)) => Some(Range(a, b) + rest)
      case _ => None
  }

  function FieldOf(s: string, number: NumberOf): Option<Field> {
    if s == "*" then Some(Star)
    else if "*/" <= s then
      match number(s[2..])
      case Some(n) => if n <= 0 then None else Some(Step(n))
      case None => None
    else
      match Collect(Text.Split(s, ","), number)
      case Some(values) => if values == [] then None else Some(List(values))
      case None => None
  }

  function FieldsOf(expr: string, number: NumberOf): Option<Fields> {
    var parts := Text.Words(expr);
    if |parts| != 5 then None
    else
      match (FieldOf(parts[0], number), FieldOf(parts[1], number), FieldOf(parts[2], number), FieldOf(parts[3], number),
             FieldOf(parts[4], number))
      case (Some(minute), Some(hour), Some(dom), Some(month), Some(dow)) => Some(Fields(minute, hour, dom, month, dow))
      case _ => None
  }

  function FieldMatches(f: Field, value: int): bool {
    match f
    case Star => true
    case Step(n) => n > 0 && value % n == 0
    case List(values) => value in values
  }

  lemma {:induction false} CollectMeaning(parts: seq<string>, number: NumberOf)
    ensures Collect(parts, number).None? <==> exists part :: part in parts && PartRange(part, number).None?
    ensures Collect(parts, number).Some? ==> forall v :: v in Collect(parts, number).value <==>
              exists part :: part in parts && PartRange(part, number).Some? &&
                PartRange(part, number).value.0 <= v <= PartRange(part, number).value.1
  {
    if parts != [] {
      CollectMeaning(parts[1..], number);
      assert forall part :: part in parts <==> part == parts[0] || part in parts[1..];
      hide PartRange, Range;
      var head, rest := PartRange(parts[0], number), Collect(parts[1..], number);
      if head.Some? && rest.Some? {
        assert Collect(parts, number).value == Range(head.value.0, head.value.1) + rest.value;
        assert parts[0] in parts;
      }
    }
  }

  /** The text that is neither a star nor a step is a list: each part a value or a range, and all must be well formed. */
  lemma ListFieldMeaning(s: string, number: NumberOf, v: int)
    requires s != "*" && !("*/" <= s)
    ensures FieldOf(s, number).None? <==> exists part :: part in Text.Split(s, ",") && PartRange(part, number).None?
    ensures FieldOf(s, number).Some? ==> (FieldMatches(FieldOf(s, number).value, v) <==>
              exists part :: part in Text.Split(s, ",") && PartRange(part, number).Some? &&
                PartRange(part, number).value.0 <= v <= PartRange(part, number).value.1)
  {
    var parts := Text.Split(s, ",");
    CollectMeaning(parts, number);
    hide PartRange, Text.Split, Collect;
    var values := Collect(parts, number);
    if values.Some? {
      var bounds := PartRange(parts[0], number);
      assert parts[0] in parts && bounds.Some?;
      assert bounds.value.0 in values.value;
    }
  }

  /** A star allows everything. */
  lemma StarFieldMeaning(number: NumberOf, v: int)
    ensures FieldOf("*", number).Some? && FieldMatches(FieldOf("*", number).value, v)
  {
  }

  /** A step allows exactly the multiples of its number, which must be positive. */
  lemma StepFieldMeaning(s: string, number: NumberOf, v: int)
    requires s != "*" && "*/" <= s
    ensures FieldOf(s, number).None? <==> number(s[2..]).None? || number(s[2..]).value <= 0
    ensures FieldOf(s, number).Some? ==>
              (FieldMatches(FieldOf(s, number).value, v) <==> exists k :: v == k * number(s[2..]).value)
  {
    var n := number(s[2..]);
    if n.Some? && n.value > 0 {
      MultipleIff(v, n.value);
    }
  }

  lemma MultipleIff(v: int, n: int)
    requires n > 0
    ensures v % n == 0 <==> exists k :: v == k * n
  {
    if v % n == 0 {
      assert v == v / n * n;
    } else if k :| v == k * n {
      MultipleRemainder(k, n);
    }
  }

  lemma FarFromZero(m: int, n: int)
    requires n > 0
    ensures m == 0 || m * n >= n || m * n <= -n
  {
    if m > 0 {
      assert (m - 1) * n >= 0;
    } else {
      assert (-m - 1) * n >= 0 || m == 0;
    }
  }

  lemma MultipleRemainder(k: int, n: int)
    requires n > 0
    ensures k * n % n == 0
  {
    var q, r := k * n / n, k * n % n;
    assert (k - q) * n == r;
    FarFromZero(k - q, n);
  }

  /** A part without a dash stands for its number alone. */
  lemma SinglePart(part: string, number: NumberOf, v: int)
    requires '-' !in Trim(part)
    ensures PartRange(part, number).None? <==> Trim(part) == "" || number(Trim(part)).None?
    ensures PartRange(part, number).Some? ==>
              (PartRange(part, number).value.0 <= v <= PartRange(part, number).value.1 <==> number(Trim(part)) == Some(v))
  {
    hide Trim, Text.Find;
    var text := Trim(part);
    forall k | 0 <= k < |text| ensures !Text.OccursAt(text, "-", k) {
      assert text[k..k + 1][0] == text[k] && text[k] in text;
    }
  }

  /** Cut at its first dash, a part stands for what lies between its two numbers, which must be in order. */
  lemma RangePart(part: string, from: string, to: string, number: NumberOf, v: int)
    requires Trim(part) == from + "-" + to && '-' !in from
    ensures var a, b := number(Trim(from)), number(Trim(to));
            && (PartRange(part, number).None? <==> a.None? || b.None? || a.value > b.value)
            && (PartRange(part, number).Some? ==>
                  (PartRange(part, number).value.0 <= v <= PartRange(part, number).value.1 <==> a.value <= v <= b.value))
  {
    hide Trim;
    var text := Trim(part);
    assert text[|from|..|from| + 1] == "-";
    assert Text.OccursAt(text, "-", |from|);
    var dash := Text.Find(text, "-", 0);
    assert text[dash.value..dash.value + 1][0] == text[dash.value];
    assert forall k :: 0 <= k < |from| ==> text[k] == from[k] != '-';
    assert text[..|from|] == from && text[|from| + 1..] == to;
  }

  method ParseField(s: string, number: NumberOf) returns (r: Option<Field>)
    ensures r == FieldOf(s, number)
  {
    if s == "*" {
      return Some(Star);
    }
    if "*/" <= s {
      var n := number(s[2..]);
      if n.None? || n.value <= 0 {
        return None;
      }
      return Some(Step(n.value));
    }
    hide Collect;
    var values := CollectParts(Text.Split(s, ","), number);
    if values.None? || values.value == [] {
      return None;
    }
    return Some(List(values.value));
  }

  function Prepend(values: seq<int>, rest: Option<seq<int>>): Option<seq<int>> {
    match rest
    case Some(more) => Some(values + more)
    case None => None
  }

  lemma PrependNothing(rest: Option<seq<int>>)
    ensures Prepend([], rest) == rest
  {
    if rest.Some? {
      assert [] + rest.value == rest.value;
    }
  }

  lemma CollectUnfolds(parts: seq<string>, number: NumberOf, i: nat, values: seq<int>)
    requires i < |parts|
    ensures Prepend(values, Collect(parts[i..], number)) ==
            match PartRange(parts[i], number)
            case Some((a, b)) => Prepend(values + Range(a, b), Collect(parts[i + 1..], number))
            case None => None
  {
    hide PartRange, Range;
    assert parts[i..][1..] == parts[i + 1..];
    var bounds, rest := PartRange(parts[i], number), Collect(parts[i + 1..], number);
    if bounds.Some? && rest.Some? {
      var range := Range(bounds.value.0, bounds.value.1);
      assert values + (range + rest.value) == values + range + rest.value;
    }
  }

  method CollectParts(parts: seq<string>, number: NumberOf) returns (r: Option<seq<int>>)
    ensures r == Collect(parts, number)
  {
    hide PartRange, Range;
    var values: seq<int> := [];
    assert parts[0..] == parts;
    PrependNothing(Collect(parts, number));
    for i := 0 to |parts|
      invariant Collect(parts, number) == Prepend(values, Collect(parts[i..], number))
    {
      CollectUnfolds(parts, number, i, values);
      var bounds := PartRange(parts[i], number);
      if bounds.None? {
        return None;
      }
      values := PushRange(values, bounds.value.0, bounds.value.1);
    }
    assert values + [] == values;
    return Some(values);
  }

  method PushRange(values: seq<int>, a: int, b: int) returns (r: seq<int>)
    requires a <= b
    ensures r == values + Range(a, b)
  {
    r := values;
    for v := a to b + 1
      invariant r == values + Range(a, v - 1)
    {
      r := r + [v];
    }
  }

  /** The word is well formed, and allows the value. */
  predicate Allows(word: string, number: NumberOf, value: int) {
    FieldOf(word, number).Some? && FieldMatches(FieldOf(word, number).value, value)
  }

  /** The words in order: minute, hour, day of the month, month, day of the week. */
  predicate WellFormed(words: seq<string>, number: NumberOf) {
    |words| == 5 && forall i :: 0 <= i < 5 ==> FieldOf(words[i], number).Some?
  }

  lemma FieldsByWord(expr: string, number: NumberOf)
    ensures var words, f := Text.Words(expr), FieldsOf(expr, number);
            && (f.Some? <==> WellFormed(words, number))
            && (f.Some? ==>
                  && Some(f.value.minute) == FieldOf(words[0], number) && Some(f.value.hour) == FieldOf(words[1], number)
                  && Some(f.value.dom) == FieldOf(words[2], number) && Some(f.value.month) == FieldOf(words[3], number)
                  && Some(f.value.dow) == FieldOf(words[4], number))
  {
    hide FieldOf, Text.Words;
  }

  /** The word at each place becomes the field of that place. */
  method ParseCronFields(expr: string, number: NumberOf) returns (r: Option<Fields>)
    ensures r == FieldsOf(expr, number)
    ensures var words := Text.Words(expr);
            && (r.Some? <==> WellFormed(words, number))
            && (r.Some? ==> forall v ::
                  && (FieldMatches(r.value.minute, v) <==> Allows(words[0], number, v))
                  && (FieldMatches(r.value.hour, v) <==> Allows(words[1], number, v))
                  && (FieldMatches(r.value.dom, v) <==> Allows(words[2], number, v))
                  && (FieldMatches(r.value.month, v) <==> Allows(words[3], number, v))
                  && (FieldMatches(r.value.dow, v) <==> Allows(words[4], number, v)))
  {
    FieldsByWord(expr, number);
    hide FieldOf;
    var parts := Text.Words(expr);
    if |parts| != 5 {
      return None;
    }
    var minute := ParseField(parts[0], number);
    if minute.None? { return None; }
    var hour := ParseField(parts[1], number);
    if hour.None? { return None; }
    var dom := ParseField(parts[2], number);
    if dom.None? { return None; }
    var month := ParseField(parts[3], number);
    if month.None? { return None; }
    var dow := ParseField(parts[4], number);
    if dow.None? { return None; }
    return Some(Fields(minute.value, hour.value, dom.value, month.value, dow.value));
  }

  // ---------------------------------------------------------------------
  // Searching
  // ---------------------------------------------------------------------

  /** The wall clock at local minute t, counted from 1970-01-01 00:00, satisfies all five fields. */
  predicate MatchesAt(f: Fields, t: int) {
    var day := t / 1440;
    && FieldMatches(f.minute, t % 60)
    && FieldMatches(f.hour, t / 60 % 24)
    && FieldMatches(f.dom, DateOf(day).day)
    && FieldMatches(f.month, DateOf(day).month)
    && FieldMatches(f.dow, Weekday(day))
  }

  /** No minute of the search window after local minute `base` matches. */
  ghost predicate NoneInWindow(f: Fields, base: int) {
    forall t :: base < t <= base + LIMIT ==> !MatchesAt(f, t)
  }

  /** `t` is the least matching minute after `base`, and lies in the window. */
  ghost predicate IsNext(f: Fields, base: int, t: int) {
    base < t <= base + LIMIT && MatchesAt(f, t) && forall u :: base < u < t ==> !MatchesAt(f, u)
  }

  /** Each word allows its part of the wall clock at local minute t. */
  predicate Ticks(words: seq<string>, number: NumberOf, t: int)
    requires |words| == 5
  {
    var date := DateOf(t / 1440);
    && Allows(words[0], number, t % 60)
    && Allows(words[1], number, t / 60 % 24)
    && Allows(words[2], number, date.day)
    && Allows(words[3], number, date.month)
    && Allows(words[4], number, Weekday(t / 1440))
  }

  lemma TicksAreMatches(expr: string, number: NumberOf, t: int)
    requires FieldsOf(expr, number).Some?
    ensures |Text.Words(expr)| == 5
    ensures Ticks(Text.Words(expr), number, t) <==> MatchesAt(FieldsOf(expr, number).value, t)
  {
    FieldsByWord(expr, number);
    hide FieldsOf, FieldOf, FieldMatches, Text.Words, DateOf, Weekday;
  }

  /** No minute of the search window after local minute `base` is allowed; the window is 366 days. */
  ghost predicate NoTick(words: seq<string>, number: NumberOf, base: int)
    requires |words| == 5
  {
    forall t :: base < t <= base + 527_040 ==> !Ticks(words, number, t)
  }

  /** `t` is the least allowed minute after `base`, and lies in the window. */
  ghost predicate FirstTick(words: seq<string>, number: NumberOf, base: int, t: int)
    requires |words| == 5
  {
    base < t <= base + 527_040 && Ticks(words, number, t) && forall u :: base < u < t ==> !Ticks(words, number, u)
  }

  lemma TicksOfWindow(expr: string, number: NumberOf, base: int, t: int)
    requires FieldsOf(expr, number).Some?
    ensures |Text.Words(expr)| == 5
    ensures NoneInWindow(FieldsOf(expr, number).value, base) <==> NoTick(Text.Words(expr), number, base)
    ensures IsNext(FieldsOf(expr, number).value, base, t) <==> FirstTick(Text.Words(expr), number, base, t)
  {
    forall u { TicksAreMatches(expr, number, u); }
    hide FieldsOf, Text.Words, Ticks, MatchesAt;
  }

  /**
   The delay to the next tick for a clock `offset` minutes ahead of UTC: to the
   least minute after the current one that all five words allow; null exactly
   when there are not five well-formed words or no minute of the window is allowed.
  */
  method NextCronTickMs(expr: string, now: int, offset: int, number: NumberOf) returns (r: Option<int>)
    ensures var words, base := Text.Words(expr), now / 60_000 + offset;
            && (r.None? <==> !WellFormed(words, number) || NoTick(words, number, base))
            && (r.Some? ==> r.value > 0 && (now + r.value) % 60_000 == 0 &&
                            FirstTick(words, number, base, (now + r.value) / 60_000 + offset))
  {
    FieldsByWord(expr, number);
    hide FieldsOf, FieldOf, Text.Words, NoneInWindow, IsNext, NoTick, FirstTick;
    var fields := ParseCronFields(expr, number);
    if fields.None? {
      return None;
    }
    r := Search(fields.value, now, offset);
    TicksOfWindow(expr, number, now / MINUTE_MS + offset, if r.Some? then (now + r.value) / MINUTE_MS + offset else 0);
  }

  method Search(f: Fields, now: int, offset: int) returns (r: Option<int>)
    ensures var base := now / MINUTE_MS + offset;
            && (r.None? <==> NoneInWindow(f, base))
            && (r.Some? ==> r.value > 0 && (now + r.value) % MINUTE_MS == 0 &&
                            IsNext(f, base, (now + r.value) / MINUTE_MS + offset))
  {
    hide FieldMatches, DateOf, Weekday;
    ghost var base := now / MINUTE_MS + offset;
    var candidate := now / MINUTE_MS * MINUTE_MS + MINUTE_MS;
    for i := 0 to LIMIT
      invariant candidate == (now / MINUTE_MS + 1 + i) * MINUTE_MS
      invariant forall u :: base < u <= base + i ==> !MatchesAt(f, u)
    {
      var t := candidate / MINUTE_MS + offset;
      assert t == base + 1 + i;
      var date := DateOf(t / 1440);
      if FieldMatches(f.minute, t % 60) && FieldMatches(f.hour, t / 60 % 24) && FieldMatches(f.dom, date.day) &&
         FieldMatches(f.month, date.month) && FieldMatches(f.dow, Weekday(t / 1440)) {
        assert MatchesAt(f, t);
        var delay := candidate - now;
        return Some(if delay < 0 then 0 else delay);
      }
      assert !MatchesAt(f, t);
      candidate := candidate + MINUTE_MS;
    }
    return None;
  }

  // ---------------------------------------------------------------------
  // When the search can fail
  // ---------------------------------------------------------------------

  /** Some minute of some date that exists in every year satisfies the first four fields. */
  ghost predicate MatchesCommonDate(f: Fields) {
    exists minute, hour, m, d :: Fits(f, minute, hour, m, d)
  }

  predicate Fits(f: Fields, minute: int, hour: int, m: int, d: int) {
    && 0 <= minute < 60 && 0 <= hour < 24 && CommonDate(m, d)
    && FieldMatches(f.minute, minute) && FieldMatches(f.hour, hour) && FieldMatches(f.dom, d) && FieldMatches(f.month, m)
  }

  predicate AnyWeekday(f: Fields) {
    forall w :: 0 <= w < 7 ==> FieldMatches(f.dow, w)
  }

  lemma MinuteOfDay(day: int, hour: int, minute: int)
    requires 0 <= minute < 60 && 0 <= hour < 24
    ensures var t := day * 1440 + hour * 60 + minute; t / 1440 == day && t / 60 % 24 == hour && t % 60 == minute
  {
    var t := day * 1440 + hour * 60 + minute;
    assert t / 60 == day * 24 + hour;
  }

  /** From any start a date that exists in every year is met within the window. */
  lemma FindsCommonDate(f: Fields, base: int, minute: int, hour: int, m: int, d: int) returns (t: int)
    requires AnyWeekday(f) && Fits(f, minute, hour, m, d)
    ensures base < t <= base + LIMIT && MatchesAt(f, t)
  {
    var day, time := base / 1440, hour * 60 + minute;
    var first := if base % 1440 < time then day else day + 1;
    var k := ComesWithinAYear(first, m, d);
    t := (first + k) * 1440 + time;
    MinuteOfDay(first + k, hour, minute);
    hide FieldMatches, DateOf, CommonDate;
    assert FieldMatches(f.dow, Weekday(first + k));
    assert MatchesAt(f, t);
  }

  /**
   With any day of the week allowed, the search succeeds from every start
   exactly when the fields allow a minute of a date that exists in every year.
  */
  lemma AlwaysFires(f: Fields)
    requires AnyWeekday(f)
    ensures (forall base :: !NoneInWindow(f, base)) <==> MatchesCommonDate(f)
  {
    if MatchesCommonDate(f) {
      var minute, hour, m, d :| Fits(f, minute, hour, m, d);
      forall base ensures !NoneInWindow(f, base) {
        var t := FindsCommonDate(f, base, minute, hour, m, d);
      }
    } else {
      var base := FailsAfterLeapDay(f);
      assert NoneInWindow(f, base);
    }
  }

  /** Otherwise it fails when started at the last minute of a 29th of February. */
  lemma FailsAfterLeapDay(f: Fields) returns (base: int)
    requires !MatchesCommonDate(f)
    ensures NoneInWindow(f, base)
  {
    var n := LeapYearStart();
    base := (n + 60) * 1440 - 1;
    forall t | base < t <= base + LIMIT ensures !MatchesAt(f, t) {
      var day := t / 1440;
      NoLeapDay(n, day - (n + 60));
      assert !Fits(f, t % 60, t / 60 % 24, DateOf(day).month, DateOf(day).day);
    }
  }

  /** The window is no longer than needed: once a year, from a leap year's first minute, only its last minute matches. */
  lemma WindowIsTight() returns (f: Fields, base: int)
    ensures AnyWeekday(f) && MatchesCommonDate(f) && IsNext(f, base, base + LIMIT)
  {
    f := Fields(List([0]), List([0]), List([1]), List([1]), Star);
    var n := LeapYearStart();
    base := n * 1440;
    assert Fits(f, 0, 0, 1, 1);
    forall t | base < t <= base + LIMIT ensures MatchesAt(f, t) <==> t == base + LIMIT {
      LeapYearGap(n, t / 1440 - n);
      TimeOfDayZero(t);
    }
  }

  lemma TimeOfDayZero(t: int)
    ensures t % 60 == 0 && t / 60 % 24 == 0 <==> t % 1440 == 0
  {
  }

  // ---------------------------------------------------------------------
  // Restricted weekdays
  // ---------------------------------------------------------------------

  predicate AnyDate(f: Fields) {
    && (forall d :: 1 <= d <= 31 ==> FieldMatches(f.dom, d))
    && (forall m :: 1 <= m <= 12 ==> FieldMatches(f.month, m))
  }

  predicate FitsWeek(f: Fields, minute: int, hour: int, w: int) {
    0 <= minute < 60 && 0 <= hour < 24 && 0 <= w < 7
    && FieldMatches(f.minute, minute) && FieldMatches(f.hour, hour) && FieldMatches(f.dow, w)
  }

  ghost predicate MatchesWeek(f: Fields) {
    exists minute, hour, w :: FitsWeek(f, minute, hour, w)
  }

  lemma NextWeekday(day: int, w: int) returns (k: int)
    requires 0 <= w < 7
    ensures 0 <= k < 7 && Weekday(day + k) == w
  {
    k := (w - Weekday(day)) % 7;
  }

  lemma AnyDateMatches(f: Fields, day: int, hour: int, minute: int)
    requires AnyDate(f) && FitsWeek(f, minute, hour, Weekday(day))
    ensures MatchesAt(f, day * 1440 + hour * 60 + minute)
  {
    MinuteOfDay(day, hour, minute);
    hide FieldMatches, DateOf, Weekday;
    assert FieldMatches(f.dom, DateOf(day).day) && FieldMatches(f.month, DateOf(day).month);
  }

  /** From any start a weekday comes within a week. */
  lemma FindsWeekday(f: Fields, base: int, minute: int, hour: int, w: int) returns (t: int)
    requires AnyDate(f) && FitsWeek(f, minute, hour, w)
    ensures base < t <= base + LIMIT && MatchesAt(f, t)
  {
    hide AnyDate, MatchesAt, Weekday, FieldMatches;
    var day, time := base / 1440, hour * 60 + minute;
    var first := if base % 1440 < time then day else day + 1;
    var k := NextWeekday(first, w);
    t := (first + k) * 1440 + time;
    AnyDateMatches(f, first + k, hour, minute);
  }

  /** With any date allowed, the search succeeds from every start exactly when the fields allow a minute of some weekday. */
  lemma AlwaysFiresByWeekday(f: Fields)
    requires AnyDate(f)
    ensures (forall base :: !NoneInWindow(f, base)) <==> MatchesWeek(f)
  {
    if MatchesWeek(f) {
      var minute, hour, w :| FitsWeek(f, minute, hour, w);
      forall base ensures !NoneInWindow(f, base) {
        var t := FindsWeekday(f, base, minute, hour, w);
      }
    } else {
      forall t | 0 < t <= LIMIT ensures !MatchesAt(f, t) {
        hide FieldMatches, DateOf;
        assert !FitsWeek(f, t % 60, t / 60 % 24, Weekday(t / 1440));
      }
      assert NoneInWindow(f, 0);
    }
  }

  /** With both restricted it can fail although date and weekday exist: a year in which the day falls on another weekday. */
  lemma WeekdayCanMiss() returns (f: Fields, base: int)
    ensures MatchesCommonDate(f) && (exists w :: 0 <= w < 7 && FieldMatches(f.dow, w)) && NoneInWindow(f, base)
  {
    var n := LeapYearStart();
    var w := (Weekday(n + 366) + 1) % 7;
    f := Fields(List([0]), List([0]), List([1]), List([1]), List([w]));
    base := n * 1440;
    assert Fits(f, 0, 0, 1, 1) && FieldMatches(f.dow, w);
    forall t | base < t <= base + LIMIT ensures !MatchesAt(f, t) {
      LeapYearGap(n, t / 1440 - n);
      TimeOfDayZero(t);
    }
  }

  // ---------------------------------------------------------------------
  // All fields
  // ---------------------------------------------------------------------

  predicate DayMatches(f: Fields, day: int) {
    FieldMatches(f.dom, DateOf(day).day) && FieldMatches(f.month, DateOf(day).month) && FieldMatches(f.dow, Weekday(day))
  }

  predicate FitsTime(f: Fields, minute: int, hour: int) {
    0 <= minute < 60 && 0 <= hour < 24 && FieldMatches(f.minute, minute) && FieldMatches(f.hour, hour)
  }

  ghost predicate MatchesTime(f: Fields) {
    exists minute, hour :: FitsTime(f, minute, hour)
  }

  /** One of the 366 days from `first` on matches. */
  predicate MatchesWithin(f: Fields, first: int) {
    exists day :: first <= day < first + 366 && DayMatches(f, day)
  }

  lemma CycleOfDays(f: Fields, first: int)
    requires MatchesWithin(f, first % CYCLE)
    ensures MatchesWithin(f, first)
  {
    hide DayMatches;
    var day :| first % CYCLE <= day < first % CYCLE + 366 && DayMatches(f, day);
    CycleOfOneDay(f, day, first / CYCLE);
    assert first <= day + first / CYCLE * CYCLE < first + 366;
  }

  lemma CycleOfOneDay(f: Fields, day: int, q: int)
    requires DayMatches(f, day)
    ensures DayMatches(f, day + q * CYCLE)
  {
    hide FieldMatches, DateOf, Weekday;
    CyclesOfDates(day, q);
  }

  lemma FindsWithinDays(f: Fields, base: int, minute: int, hour: int) returns (t: int)
    requires FitsTime(f, minute, hour) && forall first :: 0 <= first < CYCLE ==> MatchesWithin(f, first)
    ensures base < t <= base + LIMIT && MatchesAt(f, t)
  {
    hide DateOf, FieldMatches, Weekday;
    var day, time := base / 1440, hour * 60 + minute;
    var first := if base % 1440 < time then day else day + 1;
    CycleOfDays(f, first);
    var found :| first <= found < first + 366 && DayMatches(f, found);
    t := found * 1440 + time;
    MinuteOfDay(found, hour, minute);
  }

  lemma FailsWithoutDay(f: Fields, first: int) returns (base: int)
    requires !MatchesWithin(f, first)
    ensures NoneInWindow(f, base)
  {
    hide DateOf, FieldMatches, Weekday;
    base := first * 1440 - 1;
    forall t | base < t <= base + LIMIT ensures !MatchesAt(f, t) {
      assert first <= t / 1440 < first + 366;
      assert !DayMatches(f, t / 1440);
    }
  }

  lemma FailsWithoutTime(f: Fields)
    requires !MatchesTime(f)
    ensures NoneInWindow(f, 0)
  {
    hide DateOf, FieldMatches, Weekday;
    forall t | 0 < t <= LIMIT ensures !MatchesAt(f, t) {
      assert !FitsTime(f, t % 60, t / 60 % 24);
    }
  }

  /**
   For all fields: the search succeeds from every start exactly when they allow
   a minute of the day and, throughout one 400-year cycle of the calendar, a day
   among any 366 in a row.
  */
  lemma AlwaysFiresIff(f: Fields)
    ensures (forall base :: !NoneInWindow(f, base)) <==>
            MatchesTime(f) && forall first :: 0 <= first < CYCLE ==> MatchesWithin(f, first)
  {
    hide MatchesWithin, NoneInWindow, MatchesAt, FitsTime;
    if !MatchesTime(f) {
      FailsWithoutTime(f);
    } else if first :| 0 <= first < CYCLE && !MatchesWithin(f, first) {
      var base := FailsWithoutDay(f, first);
    } else {
      var minute, hour :| FitsTime(f, minute, hour);
      forall base ensures !NoneInWindow(f, base) {
        var t := FindsWithinDays(f, base, minute, hour);
        FoundInWindow(f, base, t);
      }
    }
  }

  lemma FoundInWindow(f: Fields, base: int, t: int)
    requires base < t <= base + LIMIT && MatchesAt(f, t)
    ensures !NoneInWindow(f, base)
  {
  }
}
