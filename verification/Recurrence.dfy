module Recurrence {
  // Recurrence rules of cards: filling in a rule from a due date, and the next occurrence.

  import opened Arithmetic
  import opened Bytes
  import opened Calendar

  datatype Rule =
    | Daily
    | Every(days: nat)
    | Weekly(mask: seq<bool>)  // Monday first
    | Monthly(day: nat)
    | Yearly(month: nat, mday: nat)
  {
    predicate Valid() {
      match this
      case Daily => true
      case Every(n) => 1 <= n <= 365
      case Weekly(mask) => |mask| == 7 && true in mask
      case Monthly(d) => 1 <= d <= 31
      case Yearly(m, d) => 1 <= m <= 12 && 1 <= d <= DaysIn(0, m)  // year 0 is a leap year
    }
  }

  /** A due date with an optional time of day, which is carried along. */
  datatype Due = Due(date: Date, clock: string)

  datatype RecurError = BadRule | NoRule | BadDue | NeedsDue | NoNext

  // ---------------------------------------------------------------------- filling in

  datatype BareKind = BareWeekly | BareMonthly | BareYearly

  /** A rule as entered: nothing, complete, or a bare kind to be filled in from the due date. */
  datatype Entered = Nothing | Complete(rule: Rule) | Bare(kind: BareKind)

  /** Only the weekday w. */
  function OnlyDay(w: nat): (mask: seq<bool>)
    requires w < 7
    ensures |mask| == 7 && forall i :: 0 <= i < 7 ==> mask[i] == (i == w)
  {
    [w == 0, w == 1, w == 2, w == 3, w == 4, w == 5, w == 6]
  }

  function Expand(e: Entered, due: Option<Due>): (r: Result<Option<Rule>, RecurError>)
    ensures r.Ok? && r.value.Some? ==> r.value.value.Valid()
  {
    match e
    case Nothing => Ok(None)
    case Complete(rule) => if rule.Valid() then Ok(Some(rule)) else Err(BadRule)
    case Bare(kind) =>
      if due == None then Err(NeedsDue)
      else
        var d := due.value.date;
        if !d.Valid() then Err(BadDue)
        else match kind
          case BareWeekly =>
            assert OnlyDay(Weekday(d))[Weekday(d)];
            Ok(Some(Weekly(OnlyDay(Weekday(d)))))
          case BareMonthly => Ok(Some(Monthly(d.day)))
          case BareYearly => Ok(Some(Yearly(d.month, d.day)))
  }

  // ---------------------------------------------------------------------- what a rule means

  function Min(a: nat, b: nat): nat { if a < b then a else b }

  predicate Multiple(k: nat, n: nat)
    requires n > 0
  {
    k % n == 0
  }

  lemma FirstMultiple(n: nat, k: nat)
    requires 1 <= k <= n
    ensures Multiple(k, n) <==> k == n
  {
    if k < n { DivModUnique(k, n, 0, k); } else { DivModUnique(n, n, 1, 0); }
  }

  /** The date x is an occurrence of the rule; `every` counts from the base date. */
  predicate Occurs(rule: Rule, base: Date, x: Date)
    requires rule.Valid() && base.Valid() && x.Valid()
  {
    match rule
    case Daily => true
    case Every(n) => DayNumber(x) >= DayNumber(base) && Multiple(DayNumber(x) - DayNumber(base), n)
    case Weekly(mask) => mask[Weekday(x)]
    case Monthly(d) => x.day == Min(d, DaysIn(x.year, x.month))
    case Yearly(m, d) => x.month == m && x.day == Min(d, DaysIn(x.year, m))
  }

  /** x is the first occurrence after the base date. */
  ghost predicate IsNext(rule: Rule, base: Date, x: Date)
    requires rule.Valid() && base.Valid()
  {
    && x.Valid() && Before(base, x) && Occurs(rule, base, x)
    && forall y: Date :: y.Valid() && Before(base, y) && Before(y, x) ==> !Occurs(rule, base, y)
  }

  // ---------------------------------------------------------------------- the next occurrence

  /** The wanted day of a month, or its last day; month 13 is January of the next year. */
  function ClampDay(year: nat, month: nat, day: nat): (r: Date)
    requires 1 <= month <= 13 && day >= 1
    ensures r.Valid()
  {
    var y, m := if month == 13 then year + 1 else year, if month == 13 then 1 else month;
    Date(y, m, Min(day, DaysIn(y, m)))
  }

  /** The k-th day after d is on a weekday of the mask. */
  predicate Marked(mask: seq<bool>, d: Date, k: nat)
    requires d.Valid() && |mask| == 7
  {
    mask[Weekday(AddDays(d, k))]
  }

  /** The first day from d+i on, within the week, whose weekday is in the mask. */
  function FirstMarked(mask: seq<bool>, d: Date, i: nat): (r: Option<nat>)
    requires d.Valid() && |mask| == 7 && 1 <= i <= 8
    ensures r.Some? ==> i <= r.value <= 7
    decreases 8 - i
  {
    if i == 8 then None
    else if Marked(mask, d, i) then Some(i)
    else FirstMarked(mask, d, i + 1)
  }

  lemma {:induction false} FirstMarkedIs(mask: seq<bool>, d: Date, i: nat)
    requires d.Valid() && |mask| == 7 && 1 <= i <= 8
    ensures var r := FirstMarked(mask, d, i);
            && (r.Some? ==> Marked(mask, d, r.value))
            && forall k :: i <= k <= 7 && (r.Some? ==> k < r.value) ==> !Marked(mask, d, k)
    decreases 8 - i
  {
    hide Marked;
    if i < 8 { FirstMarkedIs(mask, d, i + 1); }
  }

  /** Within seven days every weekday comes round. */
  lemma {:induction false} SomeDayMarked(mask: seq<bool>, d: Date)
    requires d.Valid() && |mask| == 7 && true in mask
    ensures FirstMarked(mask, d, 1).Some?
  {
    var w :| 0 <= w < 7 && mask[w];
    var k := DaysUntil(d, w);
    hide AddDays, Weekday;
    assert Marked(mask, d, k);
    FirstMarkedIs(mask, d, 1);
  }

  lemma {:induction false} DaysUntil(d: Date, w: nat) returns (k: nat)
    requires d.Valid() && w < 7
    ensures 1 <= k <= 7 && Weekday(AddDays(d, k)) == w
  {
    hide DayNumber, AddDays;
    k := if w > Weekday(d) then w - Weekday(d) else w + 7 - Weekday(d);
    AddDaysNumber(d, k);
    var n := DayNumber(d) + 5;
    DivModUnique(n + k, 7, if w > Weekday(d) then n / 7 else n / 7 + 1, w);
  }

  function Next(rule: Rule, d: Date): (r: Date)
    requires rule.Valid() && d.Valid()
    ensures r.Valid()
  {
    match rule
    case Daily => AddDays(d, 1)
    case Every(n) => AddDays(d, n)
    case Weekly(mask) =>
      SomeDayMarked(mask, d);
      AddDays(d, FirstMarked(mask, d, 1).value)
    case Monthly(want) => ClampDay(d.year, d.month + 1, want)
    case Yearly(m, want) =>
      if Before(d, ClampDay(d.year, m, want)) then ClampDay(d.year, m, want) else ClampDay(d.year + 1, m, want)
  }

  /** The date that the source's time type takes for the lack of one. */
  const ZERO_DATE := Date(1, 1, 1)

  /** The next occurrence after a due date, at the same time of day; the zero date is not found. */
  method NextOccurrence(rule: Rule, from: Due) returns (r: Result<Due, RecurError>)
    ensures !rule.Valid() ==> r == Err(BadRule)
    ensures rule.Valid() && !from.date.Valid() ==> r == Err(BadDue)
    ensures rule.Valid() && from.date.Valid() ==>
              r == if Next(rule, from.date) == ZERO_DATE then Err(NoNext) else Ok(Due(Next(rule, from.date), from.clock))
  {
    hide AddDays, DaysIn, DayNumber;
    if !rule.Valid() { return Err(BadRule); }
    if !from.date.Valid() { return Err(BadDue); }
    var d := from.date;
    var next: Option<Date> := None;
    match rule {
      case Daily => next := Some(AddDays(d, 1));
      case Every(n) => next := Some(AddDays(d, n));
      case Weekly(mask) =>
        SomeDayMarked(mask, d);
        var i := 1;
        while i <= 7
          invariant 1 <= i <= 8 && next == None
          invariant FirstMarked(mask, d, i) == FirstMarked(mask, d, 1)
        {
          var c := AddDays(d, i);
          if mask[Weekday(c)] {
            next := Some(c);
            break;
          }
          i := i + 1;
        }
      case Monthly(want) =>
        // The source goes on month by month until the date is later; the next month always is.
        next := Some(ClampDay(d.year, d.month + 1, want));
        assert Before(d, next.value);
      case Yearly(m, want) =>
        var n := ClampDay(d.year, m, want);
        while !Before(d, n)
          invariant n.year >= d.year && n.Valid()
          invariant n == ClampDay(d.year, m, want) || n == Next(rule, d)
          decreases d.year + 1 - n.year
        {
          n := ClampDay(n.year + 1, m, want);
        }
        next := Some(n);
    }
    if next.value == ZERO_DATE { return Err(NoNext); }
    r := Ok(Due(next.value, from.clock));
  }

  // ---------------------------------------------------------------------- it is the least later occurrence

  lemma DayAfter(d: Date)
    requires d.Valid()
    ensures Before(d, AddDays(d, 1)) && forall y: Date :: y.Valid() && Before(d, y) ==> !Before(y, AddDays(d, 1))
  {
    hide DayNumber;
    AddDaysNumber(d, 1);
    BeforeIsLess(d, AddDays(d, 1));
    forall y: Date | y.Valid() && Before(d, y) ensures !Before(y, AddDays(d, 1)) {
      BeforeIsLess(d, y);
      BeforeIsLess(y, AddDays(d, 1));
    }
  }

  /** Dates between d and the day k days later are the days in between. */
  lemma Between(d: Date, k: nat, y: Date) returns (j: nat)
    requires d.Valid() && y.Valid() && Before(d, y) && Before(y, AddDays(d, k))
    ensures 1 <= j < k && y == AddDays(d, j) && DayNumber(y) == DayNumber(d) + j
  {
    hide DayNumber, AddDays;
    AddDaysNumber(d, k);
    BeforeIsLess(d, y);
    BeforeIsLess(y, AddDays(d, k));
    j := DayNumber(y) - DayNumber(d);
    ReachedByDays(d, y);
  }

  lemma {:induction false} EveryIsNext(n: nat, d: Date)
    requires 1 <= n <= 365 && d.Valid()
    ensures IsNext(Every(n), d, AddDays(d, n))
  {
    hide DayNumber, AddDays, DaysIn, Multiple;
    var rule, x := Every(n), AddDays(d, n);
    AddDaysNumber(d, n);
    BeforeIsLess(d, x);
    forall y: Date | y.Valid() && Before(d, y) && Before(y, x) ensures !Occurs(rule, d, y) {
      var j := Between(d, n, y);
      FirstMultiple(n, j);
    }
    FirstMultiple(n, n);
  }

  lemma {:induction false} WeeklyIsNext(mask: seq<bool>, d: Date)
    requires |mask| == 7 && true in mask && d.Valid()
    ensures IsNext(Weekly(mask), d, Next(Weekly(mask), d))
  {
    hide DayNumber, AddDays, DaysIn, Weekday;
    SomeDayMarked(mask, d);
    FirstMarkedIs(mask, d, 1);
    var k := FirstMarked(mask, d, 1).value;
    var x := AddDays(d, k);
    AddDaysNumber(d, k);
    BeforeIsLess(d, x);
    forall y: Date | y.Valid() && Before(d, y) && Before(y, x) ensures !Occurs(Weekly(mask), d, y) {
      var j := Between(d, k, y);
    }
  }

  /** For a monthly rule the code skips to the next month, so the current month must have no occurrence left. */
  predicate MonthDone(want: nat, d: Date) {
    Min(want, DaysIn(d.year, d.month)) <= d.day
  }

  lemma MonthlyIsNext(want: nat, d: Date)
    requires 1 <= want <= 31 && d.Valid()
    ensures IsNext(Monthly(want), d, Next(Monthly(want), d)) <==> MonthDone(want, d)
  {
    var x := Next(Monthly(want), d);
    if !MonthDone(want, d) {
      var missed := Date(d.year, d.month, Min(want, DaysIn(d.year, d.month)));
      assert missed.Valid() && Before(d, missed) && Before(missed, x) && Occurs(Monthly(want), d, missed);
    } else {
      forall y: Date | y.Valid() && Before(d, y) && Before(y, x) ensures !Occurs(Monthly(want), d, y) {
      }
    }
  }

  lemma YearlyIsNext(m: nat, want: nat, d: Date)
    requires Yearly(m, want).Valid() && d.Valid()
    ensures IsNext(Yearly(m, want), d, Next(Yearly(m, want), d))
  {
    var x := Next(Yearly(m, want), d);
    forall y: Date | y.Valid() && Before(d, y) && Before(y, x) ensures !Occurs(Yearly(m, want), d, y) {
    }
  }

  /**
   * The next occurrence is the least later date that satisfies the rule, for every rule and date,
   * except exactly for a monthly rule whose day is still to come in the current month.
   */
  lemma NextIsLeast(rule: Rule, d: Date)
    requires rule.Valid() && d.Valid()
    ensures IsNext(rule, d, Next(rule, d)) <==> (rule.Monthly? ==> MonthDone(rule.day, d))
  {
    hide AddDays, DayNumber, DaysIn;
    match rule
    case Daily => DayAfter(d);
    case Every(n) => EveryIsNext(n, d);
    case Weekly(mask) => WeeklyIsNext(mask, d);
    case Monthly(want) => MonthlyIsNext(want, d);
    case Yearly(m, want) => YearlyIsNext(m, want, d);
  }

  /** Monthly on the 15th, seen from the 10th of January: the 15th of January is left out. */
  lemma MonthSkipped()
    ensures var rule, d, skipped := Monthly(15), Date(2024, 1, 10), Date(2024, 1, 15);
            && Next(rule, d) == Date(2024, 2, 15)
            && skipped.Valid() && Before(d, skipped) && Before(skipped, Next(rule, d)) && Occurs(rule, d, skipped)
            && !IsNext(rule, d, Next(rule, d))
  {
    NextIsLeast(Monthly(15), Date(2024, 1, 10));
  }

  /** A rule filled in from a due date has that date as an occurrence, so the exception does not arise. */
  lemma {:induction false} ExpandedThenNext(kind: BareKind, due: Due)
    requires due.date.Valid()
    ensures var r := Expand(Bare(kind), Some(due));
            && r.Ok? && r.value.Some?
            && Occurs(r.value.value, due.date, due.date)
            && IsNext(r.value.value, due.date, Next(r.value.value, due.date))
  {
    hide AddDays, DayNumber, Weekday, IsNext, Next;
    var rule := Expand(Bare(kind), Some(due)).value.value;
    assert Occurs(rule, due.date, due.date);
    NextIsLeast(rule, due.date);
  }

  // ---------------------------------------------------------------------- no drift

  /** The date after k completions. */
  function Nth(rule: Rule, d: Date, k: nat): (r: Date)
    requires rule.Valid() && d.Valid()
    ensures r.Valid()
  {
    if k == 0 then d else Next(rule, Nth(rule, d, k - 1))
  }

  function MonthIndex(d: Date): nat
    requires d.Valid()
  {
    12 * d.year + d.month - 1
  }

  /** The wanted day, or the last one, of the month with this index. */
  function InMonth(index: nat, day: nat): (r: Date)
    requires day >= 1
    ensures r.Valid()
  {
    ClampDay(index / 12, index % 12 + 1, day)
  }

  /**
   * A monthly card stays on its day: after k completions it is due on the wanted day of the k-th
   * following month, clamped to that month alone. A short month on the way leaves no trace.
   */
  lemma {:induction false} MonthlyDoesNotDrift(want: nat, d: Date, k: nat)
    requires 1 <= want <= 31 && d.Valid() && k > 0
    ensures Nth(Monthly(want), d, k) == InMonth(MonthIndex(d) + k, want)
    decreases k
  {
    hide DaysIn;
    var before := Nth(Monthly(want), d, k - 1);
    if k > 1 { MonthlyDoesNotDrift(want, d, k - 1); }
    IndexOf(MonthIndex(d) + k - 1);
    assert MonthIndex(before) == MonthIndex(d) + k - 1 && before.Valid();
    NextMonthIndex(before.year, before.month);
  }

  lemma IndexOf(index: nat)
    ensures 12 * (index / 12) + index % 12 == index && index % 12 < 12
  {
  }

  lemma NextMonthIndex(y: nat, m: nat)
    requires 1 <= m <= 12
    ensures var next := 12 * y + m;
            next / 12 == (if m == 12 then y + 1 else y) && next % 12 == (if m == 12 then 0 else m)
  {
  }

  lemma DateIsRule(d: Date)
    requires d.Valid()
    ensures Yearly(d.month, d.day).Valid()
  {
  }

  /** Once due on the day of its rule, the next is the one of the year after. */
  lemma LaterYear(x: Date, m: nat, want: nat)
    requires Yearly(m, want).Valid() && x.Valid() && x.month == m && x.day == Min(want, DaysIn(x.year, m))
    ensures Next(Yearly(m, want), x) == Date(x.year + 1, m, Min(want, DaysIn(x.year + 1, m)))
  {
    hide DaysIn;
  }

  /** A yearly card on 29 February is due on the 28th of common years and on the 29th of leap years. */
  lemma {:induction false} YearlyDoesNotDrift(d: Date, k: nat)
    requires d.Valid()
    ensures var r := Nth(Yearly(d.month, d.day), d, k);
            r == Date(d.year + k, d.month, Min(d.day, DaysIn(d.year + k, d.month)))
    decreases k
  {
    hide DaysIn;
    DateIsRule(d);
    if k > 0 {
      YearlyDoesNotDrift(d, k - 1);
      LaterYear(Nth(Yearly(d.month, d.day), d, k - 1), d.month, d.day);
    }
  }

  /** Weekly on the weekday of d alone: k completions later it is exactly k weeks later. */
  lemma {:induction false} WeeklyDoesNotDrift(d: Date, k: nat)
    requires d.Valid()
    ensures Weekly(OnlyDay(Weekday(d))).Valid()
    ensures DayNumber(Nth(Weekly(OnlyDay(Weekday(d))), d, k)) == DayNumber(d) + 7 * k
    decreases k
  {
    hide DayNumber, AddDays, DaysIn, FirstMarked;
    assert OnlyDay(Weekday(d))[Weekday(d)];
    if k > 0 {
      WeeklyDoesNotDrift(d, k - 1);
      WeekLater(Nth(Weekly(OnlyDay(Weekday(d))), d, k - 1), Weekday(d), DayNumber(d), k - 1);
    }
  }

  /** From a day with weekday w the next day with it is a week away. */
  lemma WeekLater(x: Date, w: nat, start: nat, weeks: nat)
    requires x.Valid() && w < 7 && DayNumber(x) == start + 7 * weeks && (start + 5) % 7 == w
    ensures Weekly(OnlyDay(w)).Valid() && DayNumber(Next(Weekly(OnlyDay(w)), x)) == DayNumber(x) + 7
  {
    hide DayNumber, AddDays, DaysIn;
    var mask := OnlyDay(w);
    assert mask[w];
    SomeDayMarked(mask, x);
    FirstMarkedIs(mask, x, 1);
    var k := FirstMarked(mask, x, 1).value;
    AddDaysNumber(x, k);
    assert Weekday(AddDays(x, k)) == w;
  }

  /**
   * What a bare kind means for a card due on d, for any number of completions: weekly, the day k weeks later;
   * monthly, the same day of the k-th following month; yearly, of the k-th following year, both clamped.
   */
  lemma BareKinds(due: Due, k: nat)
    requires due.date.Valid()
    ensures var d := due.date;
            && Repeated(BareWeekly, due, k).Some? && DayNumber(Repeated(BareWeekly, due, k).value) == DayNumber(d) + 7 * k
            && Repeated(BareMonthly, due, k) == Some(InMonth(MonthIndex(d) + k, d.day))
            && Repeated(BareYearly, due, k) == Some(Date(d.year + k, d.month, Min(d.day, DaysIn(d.year + k, d.month))))
  {
    hide DayNumber, AddDays, DaysIn, Nth, InMonth;
    WeeklyDoesNotDrift(due.date, k);
    YearlyDoesNotDrift(due.date, k);
    if k > 0 { MonthlyDoesNotDrift(due.date.day, due.date, k); } else { NoneDone(due.date); }
  }

  lemma NoneDone(d: Date)
    requires d.Valid()
    ensures Nth(Monthly(d.day), d, 0) == d == InMonth(MonthIndex(d), d.day)
  {
    hide DaysIn;
    NextMonthIndex(d.year, d.month);
    IndexOf(MonthIndex(d));
  }

  /** The date after k completions of a card entered with a bare kind. */
  function Repeated(kind: BareKind, due: Due, k: nat): Option<Date>
    requires due.date.Valid()
  {
    var r := Expand(Bare(kind), Some(due));
    if r.Ok? && r.value.Some? then Some(Nth(r.value.value, due.date, k)) else None
  }
}
