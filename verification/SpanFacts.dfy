// The working/off facts of leave spans: the batched list-page read agrees with the read of one
// employee, although it computes from a superset of rows, in any row order, and merged dates.

module SpanFacts {
  import opened Basics
  import opened OffRows

  datatype FactKind = WorkingDay | WeeklyOff | Holiday

  datatype Fact = Fact(date: Date, isWorkingDay: bool, kind: FactKind)

  /** The tenant's calendar tables. */
  datatype Calendar = Calendar(overrides: seq<OffRow>, defaults: seq<OffRow>, holidays: set<Date>,
                               weekdayOf: Date -> nat)

  /** `valid && '[first,last]'`. */
  predicate Overlaps(r: OffRow, first: Date, last: Date) {
    r.from <= last && (r.to.None? || first < r.to.value) && (r.to.None? || r.from < r.to.value)
  }

  /** The exclusion constraints: one override per employee and date, one default per date. */
  ghost predicate Exclusive(cal: Calendar) {
    && (forall r, q, d: Date ::
          r in cal.overrides && q in cal.overrides && r.employee == q.employee && Covers(r, d) && Covers(q, d) ==> r == q)
    && forall r, q, d: Date :: r in cal.defaults && q in cal.defaults && Covers(r, d) && Covers(q, d) ==> r == q
  }

  // -------------------------------------------------------------- the pickers

  /** The override replaces the default while it covers the date; no row means all days worked. */
  function PickWeeklyOffDays(overrides: seq<OffRow>, defaults: seq<OffRow>, d: Date): set<nat> {
    var o, def := FindCovering(overrides, d), FindCovering(defaults, d);
    if o.Some? then o.value.days else if def.Some? then def.value.days else {}
  }

  /** A holiday wins over a weekly off. */
  function FactFrom(overrides: seq<OffRow>, defaults: seq<OffRow>, isHoliday: bool, weekdayOf: Date -> nat,
                    d: Date): Fact {
    var off := weekdayOf(d) in PickWeeklyOffDays(overrides, defaults, d);
    Fact(d, !off && !isHoliday, if isHoliday then Holiday else if off then WeeklyOff else WorkingDay)
  }

  // ---------------------------------------------------------- the definition

  function OfEmployee(rows: seq<OffRow>, employee: nat): (own: seq<OffRow>)
    ensures forall r :: r in own <==> r in rows && r.employee == employee
  {
    if rows == [] then []
    else (if rows[0].employee == employee then [rows[0]] else []) + OfEmployee(rows[1..], employee)
  }

  /** The fact of one date for one employee, read from the whole calendar. */
  function FactOn(cal: Calendar, employee: nat, d: Date): Fact {
    FactFrom(OfEmployee(cal.overrides, employee), cal.defaults, d in cal.holidays, cal.weekdayOf, d)
  }

  // ----------------------------------------------- what a fact is, on the rows

  /** The employee's own row, or with no employee any row, whose range holds the date. */
  predicate InForce(r: OffRow, employee: Option<nat>, d: Date) {
    (employee.Some? ==> r.employee == employee.value) && r.from <= d && (r.to.None? || d < r.to.value)
  }

  /** The first row in force (by the exclusion constraints: the only one). */
  ghost predicate FirstInForce(rows: seq<OffRow>, employee: Option<nat>, d: Date, i: nat) {
    i < |rows| && InForce(rows[i], employee, d) && forall j :: 0 <= j < i ==> !InForce(rows[j], employee, d)
  }

  /** The weekday is one of the override's in force or, without one, of the default's in force. */
  ghost predicate OffOn(cal: Calendar, employee: nat, d: Date) {
    if exists o :: o in cal.overrides && InForce(o, Some(employee), d)
    then exists i: nat :: FirstInForce(cal.overrides, Some(employee), d, i) && cal.weekdayOf(d) in cal.overrides[i].days
    else exists i: nat :: FirstInForce(cal.defaults, None, d, i) && cal.weekdayOf(d) in cal.defaults[i].days
  }

  /** The fact of a date: a holiday, else a weekly off, else a working day; only the last one is worked. */
  ghost predicate IsFact(cal: Calendar, employee: nat, d: Date, f: Fact) {
    && f.date == d
    && (f.isWorkingDay <==> d !in cal.holidays && !OffOn(cal, employee, d))
    && (f.kind == Holiday <==> d in cal.holidays)
    && (f.kind == WeeklyOff <==> d !in cal.holidays && OffOn(cal, employee, d))
    && (f.kind == WorkingDay <==> d !in cal.holidays && !OffOn(cal, employee, d))
  }

  /** The covering row of the employee's rows is the first in force of all of them. */
  lemma {:induction false} OwnFirst(all: seq<OffRow>, k: nat, rows: seq<OffRow>, employee: nat, d: Date)
    requires k <= |all| && rows == all[k..] && forall j :: 0 <= j < k ==> !InForce(all[j], Some(employee), d)
    ensures var r := FindCovering(OfEmployee(rows, employee), d);
            && (r.None? <==> forall j :: 0 <= j < |all| ==> !InForce(all[j], Some(employee), d))
            && (r.Some? ==> exists i: nat :: FirstInForce(all, Some(employee), d, i) && all[i] == r.value)
    decreases |rows|
  {
    if rows != [] {
      var rest := OfEmployee(rows[1..], employee);
      assert rows[0] == all[k];
      assert OfEmployee(rows, employee) == (if all[k].employee == employee then [all[k]] else []) + rest;
      if InForce(all[k], Some(employee), d) {
        assert ([all[k]] + rest)[0] == all[k];
        assert FirstInForce(all, Some(employee), d, k);
      } else {
        OwnFirst(all, k + 1, rows[1..], employee, d);
        if all[k].employee == employee {
          assert ([all[k]] + rest)[1..] == rest;
        } else {
          assert [] + rest == rest;
        }
      }
    }
  }

  lemma {:induction false} AnyFirst(all: seq<OffRow>, k: nat, rows: seq<OffRow>, d: Date)
    requires k <= |all| && rows == all[k..] && forall j :: 0 <= j < k ==> !InForce(all[j], None, d)
    ensures var r := FindCovering(rows, d);
            && (r.None? <==> forall j :: 0 <= j < |all| ==> !InForce(all[j], None, d))
            && (r.Some? ==> exists i: nat :: FirstInForce(all, None, d, i) && all[i] == r.value)
    decreases |rows|
  {
    if rows != [] {
      assert rows[0] == all[k];
      if InForce(all[k], None, d) {
        assert FirstInForce(all, None, d, k);
      } else {
        AnyFirst(all, k + 1, rows[1..], d);
      }
    }
  }

  lemma OneFirst(rows: seq<OffRow>, employee: Option<nat>, d: Date)
    ensures forall i: nat, j: nat :: FirstInForce(rows, employee, d, i) && FirstInForce(rows, employee, d, j) ==> i == j
  {
  }

  lemma OffIs(cal: Calendar, employee: nat, d: Date)
    ensures cal.weekdayOf(d) in PickWeeklyOffDays(OfEmployee(cal.overrides, employee), cal.defaults, d)
       <==> OffOn(cal, employee, d)
  {
    assert cal.overrides[0..] == cal.overrides && cal.defaults[0..] == cal.defaults;
    OwnFirst(cal.overrides, 0, cal.overrides, employee, d);
    AnyFirst(cal.defaults, 0, cal.defaults, d);
    OneFirst(cal.overrides, Some(employee), d);
    OneFirst(cal.defaults, None, d);
    SomeInForce(cal.overrides, Some(employee), d);
    hide InForce, FirstInForce, FindCovering, OfEmployee;
  }

  lemma SomeInForce(rows: seq<OffRow>, employee: Option<nat>, d: Date)
    ensures (exists o :: o in rows && InForce(o, employee, d)) <==>
              exists j :: 0 <= j < |rows| && InForce(rows[j], employee, d)
    ensures forall i: nat :: FirstInForce(rows, employee, d, i) ==> i < |rows| && InForce(rows[i], employee, d)
  {
    hide InForce;
    forall j | 0 <= j < |rows| && InForce(rows[j], employee, d)
      ensures rows[j] in rows
    {
    }
  }

  /** What the date's fact says, for every calendar, employee and date. */
  lemma FactIs(cal: Calendar, employee: nat, d: Date)
    ensures IsFact(cal, employee, d, FactOn(cal, employee, d))
  {
    OffIs(cal, employee, d);
    hide OffOn, PickWeeklyOffDays, OfEmployee;
  }

  lemma FactsAre(cal: Calendar)
    ensures forall employee: nat, d: Date :: IsFact(cal, employee, d, FactOn(cal, employee, d))
  {
    forall employee: nat, d: Date
      ensures IsFact(cal, employee, d, FactOn(cal, employee, d))
    {
      FactIs(cal, employee, d);
    }
  }

  /** Any rows that hold exactly the right covering one pick it. */
  lemma PickSame(all: seq<OffRow>, some: seq<OffRow>, d: Date)
    requires forall r, q :: r in all && q in all && Covers(r, d) && Covers(q, d) ==> r == q
    requires forall r :: r in some ==> r in all
    requires forall r :: r in all && Covers(r, d) ==> r in some
    ensures FindCovering(some, d) == FindCovering(all, d)
  {
  }

  /** What the three statements bring for one employee and a range of dates. */
  ghost predicate Fetched(cal: Calendar, employee: nat, overrides: seq<OffRow>, defaults: seq<OffRow>,
                          holidays: set<Date>, first: Date, last: Date) {
    && (forall r :: r in overrides <==> r in cal.overrides && r.employee == employee && Overlaps(r, first, last))
    && (forall r :: r in defaults <==> r in cal.defaults && Overlaps(r, first, last))
    && forall h :: h in holidays <==> h in cal.holidays && first <= h <= last
  }

  /** A superset of the rows around a date gives the date's own fact. */
  lemma FactSame(cal: Calendar, employee: nat, overrides: seq<OffRow>, defaults: seq<OffRow>, holidays: set<Date>,
                 first: Date, last: Date, d: Date)
    requires Exclusive(cal) && first <= d <= last
    requires Fetched(cal, employee, overrides, defaults, holidays, first, last)
    ensures FactFrom(overrides, defaults, d in holidays, cal.weekdayOf, d) == FactOn(cal, employee, d)
  {
    PickSame(OfEmployee(cal.overrides, employee), overrides, d);
    PickSame(cal.defaults, defaults, d);
  }

  // ---------------------------------------------------------------- the reads

  /** A query's rows come in any order: only which rows they are is promised. */
  method SelectOff(rows: seq<OffRow>, employees: Option<set<nat>>, first: Date, last: Date) returns (found: seq<OffRow>)
    ensures forall r :: r in found <==>
              r in rows && (employees.Some? ==> r.employee in employees.value) && Overlaps(r, first, last)
  {
    found := [];
    for i := 0 to |rows|
      invariant forall r :: r in found <==>
                  r in rows[..i] && (employees.Some? ==> r.employee in employees.value) && Overlaps(r, first, last)
    {
      assert rows[..i + 1] == rows[..i] + [rows[i]];
      if (employees.Some? ==> rows[i].employee in employees.value) && Overlaps(rows[i], first, last) {
        found := [rows[i]] + found;
      }
    }
    assert rows[..|rows|] == rows;
  }

  method ComputeSpanFacts(dates: seq<Date>, overrides: seq<OffRow>, defaults: seq<OffRow>, holidays: set<Date>,
                          weekdayOf: Date -> nat) returns (facts: map<Date, Fact>)
    ensures facts.Keys == SetOf(dates)
    ensures forall d :: d in dates ==> facts[d] == FactFrom(overrides, defaults, d in holidays, weekdayOf, d)
  {
    facts := map[];
    for i := 0 to |dates|
      invariant facts.Keys == SetOf(dates[..i])
      invariant forall d :: d in dates[..i] ==> facts[d] == FactFrom(overrides, defaults, d in holidays, weekdayOf, d)
    {
      assert dates[..i + 1] == dates[..i] + [dates[i]];
      facts := facts[dates[i] := FactFrom(overrides, defaults, dates[i] in holidays, weekdayOf, dates[i])];
    }
    assert dates[..|dates|] == dates;
  }

  /** The facts of one employee's dates from what was fetched. */
  method EmployeeFacts(cal: Calendar, employee: nat, dates: seq<Date>, overrides: seq<OffRow>, defaults: seq<OffRow>,
                       holidays: set<Date>, ghost first: Date, ghost last: Date) returns (facts: map<Date, Fact>)
    requires Exclusive(cal) && Fetched(cal, employee, overrides, defaults, holidays, first, last)
    requires forall d :: d in dates ==> first <= d <= last
    ensures facts.Keys == SetOf(dates)
    ensures forall d :: d in facts ==> facts[d] == FactOn(cal, employee, d)
  {
    hide FactFrom, FactOn, Exclusive, Fetched;
    facts := ComputeSpanFacts(dates, overrides, defaults, holidays, cal.weekdayOf);
    forall d | d in dates
      ensures facts[d] == FactOn(cal, employee, d)
    {
      FactSame(cal, employee, overrides, defaults, holidays, first, last, d);
    }
  }

  /** One employee's span; its dates come ascending. */
  method ReadSpanFacts(cal: Calendar, employee: nat, dates: seq<Date>) returns (facts: map<Date, Fact>)
    requires Exclusive(cal) && dates != [] && Ascends(dates)
    ensures facts.Keys == SetOf(dates)
    ensures forall d :: d in dates ==> facts[d] == FactOn(cal, employee, d) && IsFact(cal, employee, d, facts[d])
  {
    hide FactOn, Exclusive, IsFact;
    FactsAre(cal);
    var first, last := dates[0], dates[|dates| - 1];
    var overrides := SelectOff(cal.overrides, Some({employee}), first, last);
    var defaults := SelectOff(cal.defaults, None, first, last);
    var holidays := set h | h in cal.holidays && first <= h <= last;
    facts := EmployeeFacts(cal, employee, dates, overrides, defaults, holidays, first, last);
  }

  /** One request span of a list page: whose calendar, which dates, in any order. */
  datatype PageSpan = PageSpan(employee: nat, dates: seq<Date>)

  function DatesOfSpans(spans: seq<PageSpan>): (dates: set<Date>)
    ensures forall d :: d in dates <==> exists s :: s in spans && d in s.dates
  {
    if spans == [] then {} else SetOf(spans[0].dates) + DatesOfSpans(spans[1..])
  }

  /** The dates of an employee across the page. */
  ghost predicate Merged(spans: seq<PageSpan>, byEmployee: map<nat, seq<Date>>) {
    && (forall e :: e in byEmployee <==> exists s :: s in spans && s.employee == e && s.dates != [])
    && forall e, d: Date :: e in byEmployee ==>
         (d in byEmployee[e] <==> exists s :: s in spans && s.employee == e && d in s.dates)
  }

  method MergeDates(spans: seq<PageSpan>) returns (byEmployee: map<nat, seq<Date>>)
    ensures Merged(spans, byEmployee)
  {
    byEmployee := map[];
    for i := 0 to |spans|
      invariant Merged(spans[..i], byEmployee)
    {
      var span := spans[i];
      assert spans[..i + 1] == spans[..i] + [span];
      if span.dates != [] {
        if span.employee in byEmployee {
          var dates := byEmployee[span.employee];
          for j := 0 to |span.dates|
            invariant forall d :: d in dates <==> d in byEmployee[span.employee] || d in span.dates[..j]
          {
            assert span.dates[..j + 1] == span.dates[..j] + [span.dates[j]];
            if span.dates[j] !in dates {
              dates := dates + [span.dates[j]];
            }
          }
          assert span.dates[..|span.dates|] == span.dates;
          byEmployee := byEmployee[span.employee := dates];
        } else {
          byEmployee := byEmployee[span.employee := span.dates];
        }
      }
    }
    assert spans[..|spans|] == spans;
  }

  method GroupByEmployee(rows: seq<OffRow>) returns (byEmployee: map<nat, seq<OffRow>>)
    ensures forall r :: r in rows <==> r.employee in byEmployee && r in byEmployee[r.employee]
    ensures forall e, r :: e in byEmployee && r in byEmployee[e] ==> r.employee == e
  {
    byEmployee := map[];
    for i := 0 to |rows|
      invariant forall r :: r in rows[..i] <==> r.employee in byEmployee && r in byEmployee[r.employee]
      invariant forall e, r :: e in byEmployee && r in byEmployee[e] ==> r.employee == e
    {
      var row := rows[i];
      assert rows[..i + 1] == rows[..i] + [row];
      var list := if row.employee in byEmployee then byEmployee[row.employee] else [];
      byEmployee := byEmployee[row.employee := list + [row]];
    }
    assert rows[..|rows|] == rows;
  }

  /**
   * The whole page in three statements: for every span of the page and every date in it, the fact
   * is the one the read of that employee alone gives.
   */
  method ReadPageSpanFacts(cal: Calendar, spans: seq<PageSpan>) returns (facts: map<nat, map<Date, Fact>>)
    requires Exclusive(cal)
    ensures forall s, d :: s in spans && d in s.dates ==>
              && s.employee in facts && d in facts[s.employee] && facts[s.employee][d] == FactOn(cal, s.employee, d)
              && IsFact(cal, s.employee, d, facts[s.employee][d])
    ensures forall e, d :: e in facts && d in facts[e] ==> exists s :: s in spans && s.employee == e && d in s.dates
  {
    hide FactOn, Exclusive, Merged, Fetched, OwnRows, IsFact;
    var allDates := Ascending(DatesOfSpans(spans));
    facts := map[];
    if |allDates| == 0 {
      NoDates(spans);
      return;
    }
    var first, last := allDates[0], allDates[|allDates| - 1];
    var byEmployee := MergeDates(spans);
    var overrides := SelectOff(cal.overrides, Some(byEmployee.Keys), first, last);
    var defaults := SelectOff(cal.defaults, None, first, last);
    var holidays := set h | h in cal.holidays && first <= h <= last;
    var grouped := GroupByEmployee(overrides);
    forall e | e in byEmployee
      ensures Fetched(cal, e, OwnRows(grouped, e), defaults, holidays, first, last)
      ensures forall d :: d in byEmployee[e] ==> first <= d <= last
    {
      OwnAreFetched(cal, byEmployee.Keys, overrides, grouped, defaults, holidays, first, last, e);
      forall d | d in byEmployee[e]
        ensures first <= d <= last
      {
        InRange(spans, byEmployee, allDates, e, d);
      }
    }
    facts := ComputePage(cal, byEmployee, grouped, defaults, holidays, first, last);
    MergedIs(spans, byEmployee);
    FactsAre(cal);
  }

  function OwnRows(grouped: map<nat, seq<OffRow>>, e: nat): seq<OffRow> {
    if e in grouped then grouped[e] else []
  }

  /** Employee by employee, over their merged and re-sorted dates. */
  method ComputePage(cal: Calendar, byEmployee: map<nat, seq<Date>>, grouped: map<nat, seq<OffRow>>,
                     defaults: seq<OffRow>, holidays: set<Date>, ghost first: Date, ghost last: Date)
    returns (facts: map<nat, map<Date, Fact>>)
    requires Exclusive(cal)
    requires forall e :: e in byEmployee ==>
               && Fetched(cal, e, OwnRows(grouped, e), defaults, holidays, first, last)
               && forall d :: d in byEmployee[e] ==> first <= d <= last
    ensures facts.Keys == byEmployee.Keys
    ensures forall e :: e in facts ==> FactsFor(cal, e, byEmployee[e], facts[e])
  {
    hide FactOn, Exclusive, Fetched, OwnRows;
    facts := map[];
    var left := byEmployee.Keys;
    while left != {}
      invariant left <= byEmployee.Keys && facts.Keys == byEmployee.Keys - left
      invariant forall e :: e in facts ==> FactsFor(cal, e, byEmployee[e], facts[e])
      decreases left
    {
      var e :| e in left;
      var dates := Ascending(SetOf(byEmployee[e]));
      var computed := EmployeeFacts(cal, e, dates, OwnRows(grouped, e), defaults, holidays, first, last);
      assert FactsFor(cal, e, byEmployee[e], computed);
      facts := facts[e := computed];
      left := left - {e};
    }
  }

  ghost predicate FactsFor(cal: Calendar, e: nat, dates: seq<Date>, facts: map<Date, Fact>) {
    && (forall d :: d in facts <==> d in dates)
    && forall d :: d in facts ==> facts[d] == FactOn(cal, e, d)
  }

  lemma OwnAreFetched(cal: Calendar, employees: set<nat>, overrides: seq<OffRow>, grouped: map<nat, seq<OffRow>>,
                      defaults: seq<OffRow>, holidays: set<Date>, first: Date, last: Date, e: nat)
    requires e in employees
    requires forall r :: r in overrides <==> r in cal.overrides && r.employee in employees && Overlaps(r, first, last)
    requires forall r :: r in overrides <==> r.employee in grouped && r in grouped[r.employee]
    requires forall e, r :: e in grouped && r in grouped[e] ==> r.employee == e
    requires forall r :: r in defaults <==> r in cal.defaults && Overlaps(r, first, last)
    requires holidays == set h | h in cal.holidays && first <= h <= last
    ensures Fetched(cal, e, OwnRows(grouped, e), defaults, holidays, first, last)
  {
  }

  lemma MergedIs(spans: seq<PageSpan>, byEmployee: map<nat, seq<Date>>)
    requires Merged(spans, byEmployee)
    ensures forall s, d :: s in spans && d in s.dates ==> s.employee in byEmployee && d in byEmployee[s.employee]
    ensures forall e, d :: e in byEmployee && d in byEmployee[e] ==>
              exists s :: s in spans && s.employee == e && d in s.dates
  {
  }

  lemma NoDates(spans: seq<PageSpan>)
    requires |Ascending(DatesOfSpans(spans))| == 0
    ensures forall s, d :: s in spans ==> d !in s.dates
  {
    forall s, d | s in spans
      ensures d !in s.dates
    {
      assert d in DatesOfSpans(spans) <==> d in Ascending(DatesOfSpans(spans));
    }
  }

  lemma InRange(spans: seq<PageSpan>, byEmployee: map<nat, seq<Date>>, allDates: seq<Date>, e: nat, d: Date)
    requires Merged(spans, byEmployee) && allDates == Ascending(DatesOfSpans(spans)) && |allDates| > 0
    requires e in byEmployee && d in byEmployee[e]
    ensures allDates[0] <= d <= allDates[|allDates| - 1]
  {
    var s :| s in spans && s.employee == e && d in s.dates;
    assert d in allDates;
  }
}
