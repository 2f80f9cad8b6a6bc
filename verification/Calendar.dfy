// Business days, month ends and the automatic calendar rules. A day is its
// number since 1970-01-01 in the calendar's own time zone.
module Calendar {
  import opened Problems

  datatype Kind = Ordinary | MonthEnd | HalfDay | Holiday

  function Rank(k: Kind): nat {
    match k case Ordinary => 0 case MonthEnd => 1 case HalfDay => 2 case Holiday => 3
  }

  // A special day, or a range of them.
  datatype SpecialDay = SpecialDay(from: int, to: Option<int>, kind: Kind)

  datatype Rules = Rules(mid15: bool, lastBusinessDay: bool, yearEnd: bool, preHoliday: bool)

  datatype Calendar = Calendar(
    days: seq<SpecialDay>, fixed: Option<int -> Kind>, monthEndAuto: bool, monthEndN: int, rules: Rules)

  // A month: its first day, its length and whether it is a December.
  datatype Month = Month(first: int, length: nat, december: bool)

  predicate In(day: int, m: Month) { m.first <= day < m.first + m.length }

  predicate Covers(d: SpecialDay, day: int) {
    d.from <= day <= if d.to.Some? then d.to.value else d.from
  }

  function Stronger(a: Kind, b: Kind): Kind { if Rank(b) > Rank(a) then b else a }

  function StrongestOf(days: seq<SpecialDay>, day: int): Kind {
    if days == [] then Ordinary
    else
      var best, d := StrongestOf(days[..|days| - 1], day), days[|days| - 1];
      if Covers(d, day) then Stronger(best, d.kind) else best
  }

  // The kind of a day: the strongest of its rows and the fixed holidays.
  function SpecialKind(cal: Calendar, day: int): Kind {
    var best := StrongestOf(cal.days, day);
    if cal.fixed.Some? then Stronger(best, cal.fixed.value(day)) else best
  }

  method SpecialKindOn(cal: Calendar, day: int) returns (best: Kind)
    ensures best == SpecialKind(cal, day)
  {
    best := Ordinary;
    for i := 0 to |cal.days|
      invariant best == StrongestOf(cal.days[..i], day)
    {
      var d := cal.days[i];
      assert cal.days[..i + 1][..i] == cal.days[..i];
      if Covers(d, day) && Rank(d.kind) > Rank(best) {
        best := d.kind;
      }
    }
    assert cal.days[..|cal.days|] == cal.days;
    if cal.fixed.Some? && Rank(cal.fixed.value(day)) > Rank(best) {
      best := cal.fixed.value(day);
    }
  }

  // A day is never weaker than any row that covers it.
  lemma {:induction false} NoRowIsStronger(cal: Calendar, day: int, i: nat)
    requires i < |cal.days| && Covers(cal.days[i], day)
    ensures Rank(SpecialKind(cal, day)) >= Rank(cal.days[i].kind)
  {
    StrongestGrows(cal.days, day, i);
  }

  lemma {:induction false} StrongestGrows(days: seq<SpecialDay>, day: int, i: nat)
    requires i < |days| && Covers(days[i], day)
    ensures Rank(StrongestOf(days, day)) >= Rank(days[i].kind)
  {
    if i < |days| - 1 {
      StrongestGrows(days[..|days| - 1], day, i);
    }
  }

  // Monday is 0; 1970-01-01 was a Thursday.
  function Weekday(day: int): int { (day + 3) % 7 }

  predicate IsBusinessDay(cal: Calendar, day: int) {
    Weekday(day) < 5 && SpecialKind(cal, day) != Holiday
  }

  ghost predicate HolidayRow(days: seq<SpecialDay>, day: int) {
    exists i :: 0 <= i < |days| && Covers(days[i], day) && days[i].kind == Holiday
  }

  lemma {:induction false} StrongestIff(days: seq<SpecialDay>, day: int)
    ensures StrongestOf(days, day) == Holiday <==> HolidayRow(days, day)
    ensures StrongestOf(days, day) != Ordinary ==>
              exists i :: 0 <= i < |days| && Covers(days[i], day) && days[i].kind == StrongestOf(days, day)
  {
    if days != [] {
      var init, last := days[..|days| - 1], days[|days| - 1];
      StrongestIff(init, day);
      hide Covers;
      assert forall i :: 0 <= i < |init| ==> init[i] == days[i];
    }
  }

  // Saturdays and Sundays, of which 1970-01-03 and 1970-01-04 were the first, and
  // days with a holiday among their rows or fixed holidays are no business days;
  // every other day is, half days too.
  lemma BusinessDayIff(cal: Calendar, day: int)
    ensures IsBusinessDay(cal, day)
       <==> day % 7 != 2 && day % 7 != 3 && !HolidayRow(cal.days, day)
            && !(cal.fixed.Some? && cal.fixed.value(day) == Holiday)
  {
    StrongestIff(cal.days, day);
    hide StrongestOf, HolidayRow;
  }

  // The kind of a day is that of one of its rows, its fixed holiday, or ordinary.
  lemma KindHasSource(cal: Calendar, day: int)
    ensures SpecialKind(cal, day) != Ordinary ==>
              || (exists i ::
                    0 <= i < |cal.days| && Covers(cal.days[i], day) && cal.days[i].kind == SpecialKind(cal, day))
              || (cal.fixed.Some? && cal.fixed.value(day) == SpecialKind(cal, day))
    ensures cal.fixed.Some? ==> Rank(SpecialKind(cal, day)) >= Rank(cal.fixed.value(day))
  {
    StrongestIff(cal.days, day);
    hide StrongestOf, HolidayRow, Covers;
  }

  // ----- the last business days of a month -----

  // How many business days lie in [from, to).
  function BusinessDays(cal: Calendar, from: int, to: int): nat
    decreases to - from
  {
    if from >= to then 0 else BusinessDays(cal, from, to - 1) + if IsBusinessDay(cal, to - 1) then 1 else 0
  }

  predicate AutoMonthEnd(cal: Calendar, m: Month, day: int, n: int) {
    IsBusinessDay(cal, day) && BusinessDays(cal, day + 1, m.first + m.length) < n
  }

  method IsAutoMonthEnd(cal: Calendar, m: Month, day: int, n: int) returns (r: bool)
    requires In(day, m)
    ensures r == AutoMonthEnd(cal, m, day, n)
  {
    if !IsBusinessDay(cal, day) {
      return false;
    }
    hide IsBusinessDay;
    var after := 0;
    var d := day + 1;
    while d < m.first + m.length
      invariant day + 1 <= d <= m.first + m.length
      invariant after == BusinessDays(cal, day + 1, d)
    {
      if IsBusinessDay(cal, d) {
        after := after + 1;
      }
      d := d + 1;
    }
    r := after < n;
  }

  lemma {:induction false} CountConcat(cal: Calendar, a: int, b: int, c: int)
    requires a <= b <= c
    ensures BusinessDays(cal, a, c) == BusinessDays(cal, a, b) + BusinessDays(cal, b, c)
    decreases c - b
  {
    hide IsBusinessDay;
    if b < c {
      CountConcat(cal, a, b, c - 1);
    }
  }

  // The days of [from, end of month) that the rule marks.
  ghost function Marked(cal: Calendar, m: Month, n: int, from: int): nat
    decreases m.first + m.length - from
  {
    if from >= m.first + m.length then 0
    else Marked(cal, m, n, from + 1) + if AutoMonthEnd(cal, m, from, n) then 1 else 0
  }

  function Least(a: int, b: int): int { if a < b then a else b }

  lemma {:induction false} MarkedIsLeast(cal: Calendar, m: Month, n: nat, from: int)
    ensures Marked(cal, m, n, from) == Least(n, BusinessDays(cal, from, m.first + m.length))
    decreases m.first + m.length - from
  {
    hide IsBusinessDay;
    if from < m.first + m.length {
      MarkedIsLeast(cal, m, n, from + 1);
      CountConcat(cal, from, from + 1, m.first + m.length);
      assert BusinessDays(cal, from, from) == 0;
    }
  }

  // The rule marks as many days as asked for or as the month has, all of them
  // business days, and with a day every later business day: exactly the last
  // ones of the month.
  lemma MonthEndMarksTheLast(cal: Calendar, m: Month, n: nat)
    ensures Marked(cal, m, n, m.first) == Least(n, BusinessDays(cal, m.first, m.first + m.length))
    ensures forall d, e :: In(d, m) && In(e, m) && d < e && AutoMonthEnd(cal, m, d, n) && IsBusinessDay(cal, e) ==>
              AutoMonthEnd(cal, m, e, n)
  {
    MarkedIsLeast(cal, m, n, m.first);
    hide IsBusinessDay;
    forall d, e | In(d, m) && In(e, m) && d < e && AutoMonthEnd(cal, m, d, n) && IsBusinessDay(cal, e)
      ensures AutoMonthEnd(cal, m, e, n)
    {
      CountConcat(cal, d + 1, e + 1, m.first + m.length);
    }
  }

  // ----- the automatic rules -----

  ghost predicate NoneIn(cal: Calendar, from: int, to: int) {
    forall d :: from <= d < to ==> !IsBusinessDay(cal, d)
  }

  // The first business day from d on; after fourteen days the search gives up
  // with the day behind them, which it has not looked at.
  method NextBusinessDayFrom(cal: Calendar, d0: int) returns (d: int)
    ensures d0 <= d <= d0 + 14 && NoneIn(cal, d0, d)
    ensures d < d0 + 14 ==> IsBusinessDay(cal, d)
  {
    d := d0;
    hide IsBusinessDay;
    for i := 0 to 14
      invariant d == d0 + i && NoneIn(cal, d0, d)
    {
      if IsBusinessDay(cal, d) {
        return;
      }
      d := d + 1;
    }
  }

  // The fifteenth, or the first business day after it, up to the 29th.
  ghost predicate MidMonth(cal: Calendar, m: Month, day: int) {
    && IsBusinessDay(cal, day)
    && m.first + 14 <= day <= m.first + 28
    && NoneIn(cal, m.first + 14, day)
  }

  // No holiday eve is further away than a fortnight, and none lies behind
  // another business day.
  ghost predicate BeforeHoliday(cal: Calendar, day: int) {
    exists d :: day < d <= day + 14 && Closing(SpecialKind(cal, d)) && NoneIn(cal, day + 1, d)
  }

  predicate Closing(k: Kind) { k == Holiday || k == HalfDay }

  ghost predicate RuleDay(cal: Calendar, m: Month, day: int) {
    && IsBusinessDay(cal, day)
    && (|| (cal.rules.mid15 && MidMonth(cal, m, day))
        || (cal.rules.lastBusinessDay && AutoMonthEnd(cal, m, day, 1))
        || (cal.rules.yearEnd && m.december && AutoMonthEnd(cal, m, day, 1))
        || (cal.rules.preHoliday && BeforeHoliday(cal, day)))
  }

  method HolidayAhead(cal: Calendar, day: int) returns (r: bool)
    ensures r == BeforeHoliday(cal, day)
  {
    var d := day + 1;
    hide IsBusinessDay;
    while d - day <= 14
      invariant day + 1 <= d <= day + 15 && NoneIn(cal, day + 1, d)
      invariant forall e :: day < e < d ==> !Closing(SpecialKind(cal, e))
    {
      var k := SpecialKindOn(cal, d);
      if k == Holiday || k == HalfDay {
        return true;
      }
      if IsBusinessDay(cal, d) {
        return false;
      }
      d := d + 1;
    }
    r := false;
  }

  method AutoRuleOn(cal: Calendar, m: Month, day: int) returns (r: bool)
    requires In(day, m)
    ensures r == RuleDay(cal, m, day)
  {
    var rules := cal.rules;
    if !rules.mid15 && !rules.lastBusinessDay && !rules.yearEnd && !rules.preHoliday {
      return false;
    }
    if !IsBusinessDay(cal, day) {
      return false;
    }
    hide BusinessDays, BeforeHoliday;
    if rules.mid15 {
      var next := NextBusinessDayFrom(cal, m.first + 14);
      if next == day {
        return true;
      }
      assert !MidMonth(cal, m, day);
    }
    var last := IsAutoMonthEnd(cal, m, day, 1);
    if rules.lastBusinessDay && last {
      return true;
    }
    if rules.yearEnd && m.december && last {
      return true;
    }
    r := false;
    if rules.preHoliday {
      r := HolidayAhead(cal, day);
    }
  }

  lemma {:induction false} NoneCounted(cal: Calendar, from: int, n: nat)
    ensures BusinessDays(cal, from, from + n) == 0 <==> NoneIn(cal, from, from + n)
    decreases n
  {
    hide IsBusinessDay;
    if n > 0 {
      NoneCounted(cal, from, n - 1);
    }
  }

  ghost predicate HolidayBehind(cal: Calendar, day: int, h: int) {
    && day < h <= day + 14 && NoneIn(cal, day + 1, h)
    && (SpecialKind(cal, h) == Holiday || SpecialKind(cal, h) == HalfDay)
  }

  // The days the automatic rules mark, with no business day between them and what
  // the rule looks for: the fifteenth before them, the end of the month, the end
  // of a December, or a holiday or half day within a fortnight.
  lemma RuleDayIff(cal: Calendar, m: Month, day: int)
    ensures RuleDay(cal, m, day)
       <==> IsBusinessDay(cal, day)
            && (|| (cal.rules.mid15 && m.first + 14 <= day <= m.first + 28 && NoneIn(cal, m.first + 14, day))
                || ((cal.rules.lastBusinessDay || (cal.rules.yearEnd && m.december))
                    && NoneIn(cal, day + 1, m.first + m.length))
                || (cal.rules.preHoliday
                    && exists h :: HolidayBehind(cal, day, h)))
  {
    if day < m.first + m.length {
      NoneCounted(cal, day + 1, m.first + m.length - (day + 1));
    } else {
      assert BusinessDays(cal, day + 1, m.first + m.length) == 0;
    }
    hide IsBusinessDay, SpecialKind, BusinessDays;
    if BeforeHoliday(cal, day) {
      var h :| day < h <= day + 14 && Closing(SpecialKind(cal, h)) && NoneIn(cal, day + 1, h);
      assert HolidayBehind(cal, day, h);
    }
    if h :| HolidayBehind(cal, day, h) {
      assert Closing(SpecialKind(cal, h));
    }
  }

  // At most one day of a month is its middle.
  lemma MidMonthIsUnique(cal: Calendar, m: Month, d: int, e: int)
    requires MidMonth(cal, m, d) && MidMonth(cal, m, e)
    ensures d == e
  {
    hide IsBusinessDay;
  }

  // A month has such a day exactly when one of its days from the 15th to the
  // 29th is a business day; a February of 28 days ends before the 29th.
  lemma {:induction false} MidMonthExists(cal: Calendar, m: Month)
    ensures (exists d :: In(d, m) && MidMonth(cal, m, d))
       <==> !NoneIn(cal, m.first + 14, m.first + Least(29, m.length))
  {
    hide IsBusinessDay;
    var to := m.first + Least(29, m.length);
    if !NoneIn(cal, m.first + 14, to) {
      var d := First(cal, m.first + 14, to);
      assert In(d, m) && MidMonth(cal, m, d);
    }
  }

  // February 2021 with its days from the 15th on closed: the search for the
  // middle ends on the first of March, and no day of the month is marked.
  lemma ClosedFebruary(cal: Calendar, m: Month)
    requires m == Month(18659, 28, false)
    requires cal.days == [SpecialDay(18673, Some(18686), Holiday)] && cal.fixed.None?
    requires cal.rules == Rules(true, false, false, false)
    ensures MidMonth(cal, m, m.first + 28) && !In(m.first + 28, m)
    ensures forall d :: In(d, m) ==> !MidMonth(cal, m, d) && !RuleDay(cal, m, d)
  {
    hide StrongestOf;
    forall d ensures SpecialKind(cal, d) == if 18673 <= d <= 18686 then Holiday else Ordinary {
      OneRow(SpecialDay(18673, Some(18686), Holiday), d);
    }
    assert NoneIn(cal, m.first + 14, m.first + 28);
  }

  lemma OneRow(row: SpecialDay, day: int)
    ensures StrongestOf([row], day) == if Covers(row, day) then Stronger(Ordinary, row.kind) else Ordinary
  {
    assert [row][..0] == [];
  }

  lemma First(cal: Calendar, from: int, to: int) returns (d: int)
    requires !NoneIn(cal, from, to)
    ensures from <= d < to && IsBusinessDay(cal, d) && NoneIn(cal, from, d)
  {
    var w :| from <= w < to && IsBusinessDay(cal, w);
    hide IsBusinessDay;
    d := from;
    while !IsBusinessDay(cal, d)
      invariant from <= d <= w && NoneIn(cal, from, d)
      decreases w - d
    {
      d := d + 1;
    }
  }

  // The kind that counts: a row of the calendar before the automatic rules.
  method CalendarDayKind(cal: Calendar, m: Month, day: int) returns (k: Kind)
    requires In(day, m)
    ensures k == if SpecialKind(cal, day) != Ordinary then SpecialKind(cal, day)
                 else if (cal.monthEndAuto && AutoMonthEnd(cal, m, day, cal.monthEndN)) || RuleDay(cal, m, day)
                 then MonthEnd
                 else Ordinary
  {
    k := SpecialKindOn(cal, day);
    if k != Ordinary {
      return;
    }
    hide RuleDay, AutoMonthEnd;
    var last := IsAutoMonthEnd(cal, m, day, cal.monthEndN);
    if cal.monthEndAuto && last {
      return MonthEnd;
    }
    var rule := AutoRuleOn(cal, m, day);
    k := if rule then MonthEnd else Ordinary;
  }
}
