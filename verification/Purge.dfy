// The purge engine: a plan of deletes and clears run in one transaction, its backup, and the
// general theorem of what a run removes.

module Purge {
  import opened Basics
  import opened Relational

  datatype Step =
    | Delete(table: Table, cond: Cond)
    | Clear(table: Table, col: Col)

  /** The rows a delete step matches. */
  function Hit(s: Store, step: Step, u: nat): (rows: set<Ref>)
    ensures rows <= s.Keys
  {
    if step.Delete? then Matched(s, step.table, step.cond, u) else {}
  }

  /** The store so far and the row count each step reported. */
  datatype Progress = Progress(store: Store, counts: seq<nat>)

  /** One statement; `None` aborts the transaction. */
  function RunStep(edges: seq<Edge>, s: Store, step: Step, u: nat): Option<Store> {
    match step
    case Delete(_, _) => DeleteRows(edges, s, Hit(s, step, u))
    case Clear(table, col) => Some(ClearRows(s, table, col, u))
  }

  /** The first `n` statements. */
  function RunDeletes(edges: seq<Edge>, s: Store, plan: seq<Step>, u: nat, n: nat): (r: Option<Progress>)
    requires n <= |plan|
    ensures r.Some? ==> |r.value.counts| == n
  {
    if n == 0 then Some(Progress(s, []))
    else
      var before := RunDeletes(edges, s, plan, u, n - 1);
      if before.None? then None
      else
        var t := before.value.store;
        var after := RunStep(edges, t, plan[n - 1], u);
        if after.None? then None
        else Some(Progress(after.value, before.value.counts + [|Hit(t, plan[n - 1], u)|]))
  }

  // ------------------------------------------------------------------- shape

  /** Columns no plan condition and no cascade looks at; only these are ever cleared. */
  predicate Hard(c: Col) {
    c != UploadId && c != InvitedBy
  }

  predicate HardChild(e: Edge) {
    Hard(e.first.col) && (e.second.Some? ==> Hard(e.second.value.col))
  }

  predicate EdgeOk(e: Edge) {
    && Hard(e.first.ref) && (e.second.Some? ==> Hard(e.second.value.ref))
    && !Generated(e.first.ref) && (e.second.Some? ==> !Generated(e.second.value.ref))
    && !Generated(e.first.col) && (e.second.Some? ==> !Generated(e.second.value.col))
    && e.child != e.parent
    && (e.rule == Cascade ==> HardChild(e))
    && (e.rule == SetNull ==> !Hard(e.first.col) && e.second.None?)
  }

  predicate CondOk(c: Cond) {
    match c
    case Is(col) => Hard(col)
    case OneOf(col, _, inner) => Hard(col) && CondOk(inner)
    case Either(left, right) => CondOk(left) && CondOk(right)
  }

  /** Tables a condition selects from. */
  function Selected(c: Cond): set<Table> {
    match c
    case Is(_) => {}
    case OneOf(_, table, inner) => {table} + Selected(inner)
    case Either(left, right) => Selected(left) + Selected(right)
  }

  /** Tables the first `n` steps delete from. */
  function Emptied(plan: seq<Step>, n: nat): set<Table>
    requires n <= |plan|
  {
    if n == 0 then {} else Emptied(plan, n - 1) + if plan[n - 1].Delete? then {plan[n - 1].table} else {}
  }

  /** No cascading key leads out of the set. */
  predicate CascadesWithin(edges: seq<Edge>, tables: set<Table>) {
    forall e :: e in edges && e.rule == Cascade && e.parent in tables ==> e.child in tables
  }

  /** What step `n` selects from is still as it was. */
  predicate StepOk(edges: seq<Edge>, plan: seq<Step>, n: nat)
    requires n < |plan|
  {
    match plan[n]
    case Delete(_, cond) =>
      && CondOk(cond)
      && (Selected(cond) != {} ==> Selected(cond) !! Emptied(plan, n) && CascadesWithin(edges, Emptied(plan, n)))
    case Clear(_, col) => !Hard(col)
  }

  ghost predicate PlanOk(edges: seq<Edge>, plan: seq<Step>) {
    && (forall e :: e in edges ==> EdgeOk(e))
    && forall n :: 0 <= n < |plan| ==> StepOk(edges, plan, n)
  }

  // -------------------------------------------------------------- the meaning

  /** The rows the backup of the first `n` steps holds: each condition read on the untouched store. */
  function Doomed(s: Store, plan: seq<Step>, u: nat, n: nat): (rows: set<Ref>)
    requires n <= |plan|
    ensures rows <= s.Keys
  {
    if n == 0 then {} else Doomed(s, plan, u, n - 1) + Hit(s, plan[n - 1], u)
  }

  /** Those rows and what dies with them. */
  function Gone(edges: seq<Edge>, s: Store, plan: seq<Step>, u: nat, n: nat): (rows: set<Ref>)
    requires n <= |plan|
    ensures rows <= s.Keys
  {
    Closure(edges, s, Doomed(s, plan, u, n))
  }

  /** The two stores differ only by missing rows and cleared soft columns. */
  ghost predicate Remains(s: Store, t: Store, gone: set<Ref>) {
    && t.Keys == s.Keys - gone
    && forall r :: r in t ==> SameRow(s[r], t[r])
  }

  ghost predicate SameRow(x: Row, y: Row) {
    && (forall c :: c in y ==> c in x && y[c] == x[c])
    && (forall c :: c in x && Hard(c) ==> c in y)
  }

  /** Columns a clear step emptied hold the person no more. */
  ghost predicate Cleared(t: Store, plan: seq<Step>, u: nat, n: nat)
    requires n <= |plan|
  {
    forall j, r :: 0 <= j < n && plan[j].Clear? && r in t && r.table == plan[j].table && plan[j].col in t[r] ==>
      t[r][plan[j].col] != u
  }

  /** One of the first `n` steps clears the column because it holds the person. */
  predicate ClearedBy(s: Store, plan: seq<Step>, u: nat, n: nat, r: Ref, c: Col)
    requires n <= |plan|
  {
    && r in s && c in s[r] && s[r][c] == u
    && exists j :: 0 <= j < n && plan[j] == Clear(r.table, c)
  }

  /** What the first `n` steps leave of a row that survives them. */
  function Left(edges: seq<Edge>, s: Store, plan: seq<Step>, u: nat, n: nat, r: Ref): Row
    requires r in s && n <= |plan|
  {
    map c | c in s[r] && !Severed(edges, s, Gone(edges, s, plan, u, n), r, c) && !ClearedBy(s, plan, u, n, r, c) :: s[r][c]
  }

  ghost predicate AllLeft(edges: seq<Edge>, s: Store, t: Store, plan: seq<Step>, u: nat, n: nat)
    requires n <= |plan|
  {
    forall r :: r in t ==> r in s && t[r] == Left(edges, s, plan, u, n, r)
  }

  // ------------------------------------------------- reading an altered store

  lemma NamesSame(e: Edge, s: Store, t: Store, gone: set<Ref>, r: Ref, p: Ref)
    requires Remains(s, t, gone) && EdgeOk(e) && r in t && p in t
    ensures Names(e, t, r, p) ==> Names(e, s, r, p)
    ensures HardChild(e) && Names(e, s, r, p) ==> Names(e, t, r, p)
  {
    assert SameRow(s[r], t[r]) && SameRow(s[p], t[p]);
  }

  lemma {:induction false} HoldsSame(s: Store, t: Store, gone: set<Ref>, c: Cond, x: Row, y: Row, u: nat)
    requires Remains(s, t, gone) && SameRow(x, y) && CondOk(c)
    requires forall r :: r in s && r.table in Selected(c) ==> r !in gone
    ensures Holds(t, c, y, u) == Holds(s, c, x, u)
    decreases c
  {
    match c
    case Is(col) =>
    case OneOf(col, table, inner) =>
      forall p | p in s && p.table == table
        ensures p in t && Holds(t, inner, t[p], u) == Holds(s, inner, s[p], u)
        ensures SameRow(s[p], t[p])
      {
        assert SameRow(s[p], t[p]);
        HoldsSame(s, t, gone, inner, s[p], t[p], u);
      }
    case Either(left, right) =>
      HoldsSame(s, t, gone, left, x, y, u);
      HoldsSame(s, t, gone, right, x, y, u);
  }

  lemma {:induction false} DoomedTables(s: Store, plan: seq<Step>, u: nat, n: nat)
    requires n <= |plan|
    ensures forall r :: r in Doomed(s, plan, u, n) ==> r.table in Emptied(plan, n)
  {
    if n > 0 {
      DoomedTables(s, plan, u, n - 1);
    }
  }

  /** If no cascade leads out of the emptied tables, every other table is untouched. */
  lemma UntouchedTables(edges: seq<Edge>, s: Store, plan: seq<Step>, u: nat, n: nat)
    requires n <= |plan| && CascadesWithin(edges, Emptied(plan, n))
    ensures forall r :: r in Gone(edges, s, plan, u, n) ==> r.table in Emptied(plan, n)
  {
    var bound := set r | r in s && r.table in Emptied(plan, n);
    DoomedTables(s, plan, u, n);
    ClosureLeast(edges, s, Doomed(s, plan, u, n), bound);
  }

  /** A step matches what its backup section holds, less what is already gone. */
  lemma HitSame(edges: seq<Edge>, s: Store, t: Store, plan: seq<Step>, u: nat, n: nat)
    requires n < |plan| && StepOk(edges, plan, n) && Remains(s, t, Gone(edges, s, plan, u, n))
    ensures Hit(t, plan[n], u) == Hit(s, plan[n], u) - Gone(edges, s, plan, u, n)
  {
    var gone := Gone(edges, s, plan, u, n);
    if plan[n].Delete? {
      var c := plan[n].cond;
      if Selected(c) != {} {
        UntouchedTables(edges, s, plan, u, n);
      }
      forall r | r in t
        ensures Holds(t, c, t[r], u) == Holds(s, c, s[r], u)
      {
        HoldsSame(s, t, gone, c, s[r], t[r], u);
      }
    }
  }

  // ----------------------------------------------------------- one step's rows

  /** What a delete removes from the altered store, and what it should have removed from the first. */
  lemma GoneGrows(edges: seq<Edge>, s: Store, t: Store, plan: seq<Step>, u: nat, n: nat)
    requires n < |plan| && (forall e :: e in edges ==> EdgeOk(e)) && plan[n].Delete?
    requires Remains(s, t, Gone(edges, s, plan, u, n))
    requires Hit(t, plan[n], u) == Hit(s, plan[n], u) - Gone(edges, s, plan, u, n)
    ensures Gone(edges, s, plan, u, n + 1) == Gone(edges, s, plan, u, n) + Closure(edges, t, Hit(t, plan[n], u))
  {
    var earlier, hit := Gone(edges, s, plan, u, n), Hit(t, plan[n], u);
    var next, more := Gone(edges, s, plan, u, n + 1), Closure(edges, t, hit);
    forall r | r in s && DiesWith(edges, s, earlier + more, r)
      ensures r in earlier + more
    {
      var e, p :| e in edges && e.rule == Cascade && p in earlier + more && Names(e, s, r, p);
      if p in earlier {
        assert DiesWith(edges, s, earlier, r);
      } else if r !in earlier {
        NamesSame(e, s, t, earlier, r, p);
        assert DiesWith(edges, t, more, r);
      }
    }
    ClosureLeast(edges, s, Doomed(s, plan, u, n + 1), earlier + more);
    ClosureLeast(edges, s, Doomed(s, plan, u, n), next);
    forall r | r in t && DiesWith(edges, t, next, r)
      ensures r in next
    {
      var e, p :| e in edges && e.rule == Cascade && p in next && Names(e, t, r, p);
      NamesSame(e, s, t, earlier, r, p);
      assert DiesWith(edges, s, next, r);
    }
    ClosureLeast(edges, t, hit, next);
  }

  lemma DeleteRemains(edges: seq<Edge>, s: Store, t: Store, gone: set<Ref>, more: set<Ref>)
    requires Remains(s, t, gone) && forall e :: e in edges ==> EdgeOk(e)
    ensures Remains(s, Without(edges, t, more), gone + more)
  {
    var after := Without(edges, t, more);
    forall r | r in after
      ensures SameRow(s[r], after[r])
    {
      assert SameRow(s[r], t[r]);
      forall c | c in s[r] && Hard(c)
        ensures c in after[r]
      {
        NeverSevered(edges, t, more, r, c);
      }
    }
  }

  lemma NeverSevered(edges: seq<Edge>, t: Store, gone: set<Ref>, r: Ref, c: Col)
    requires Hard(c) && forall e :: e in edges ==> EdgeOk(e)
    ensures !Severed(edges, t, gone, r, c)
  {
  }

  lemma ClearRemains(s: Store, t: Store, gone: set<Ref>, table: Table, col: Col, u: nat)
    requires Remains(s, t, gone) && !Hard(col)
    ensures Remains(s, ClearRows(t, table, col, u), gone)
  {
    var after := ClearRows(t, table, col, u);
    forall r | r in after
      ensures SameRow(s[r], after[r])
    {
      assert SameRow(s[r], t[r]);
    }
  }

  lemma ClearedStays(t: Store, after: Store, plan: seq<Step>, u: nat, n: nat)
    requires n <= |plan| && Cleared(t, plan, u, n)
    requires forall r :: r in after ==> r in t && forall c :: c in after[r] ==> c in t[r] && after[r][c] == t[r][c]
    ensures Cleared(after, plan, u, n)
  {
  }

  lemma DeleteStep(edges: seq<Edge>, s: Store, t: Store, plan: seq<Step>, u: nat, n: nat)
    requires PlanOk(edges, plan) && n < |plan| && plan[n].Delete?
    requires Remains(s, t, Gone(edges, s, plan, u, n)) && Cleared(t, plan, u, n)
    ensures Hit(t, plan[n], u) == Hit(s, plan[n], u) - Gone(edges, s, plan, u, n)
    ensures var after := Without(edges, t, Closure(edges, t, Hit(t, plan[n], u)));
            Remains(s, after, Gone(edges, s, plan, u, n + 1)) && Cleared(after, plan, u, n + 1)
  {
    HitSame(edges, s, t, plan, u, n);
    hide StepOk, EdgeOk, Hit, Remains, Gone, Closure;
    GoneGrows(edges, s, t, plan, u, n);
    var more := Closure(edges, t, Hit(t, plan[n], u));
    DeleteRemains(edges, s, t, Gone(edges, s, plan, u, n), more);
    var after := Without(edges, t, more);
    ClearedStays(t, after, plan, u, n);
  }

  /** Deleting in the altered store severs what the untouched store would have severed. */
  lemma SeveredSame(edges: seq<Edge>, s: Store, t: Store, gone: set<Ref>, more: set<Ref>, r: Ref, c: Col)
    requires Remains(s, t, gone) && (forall e :: e in edges ==> EdgeOk(e)) && more <= t.Keys && r in t && c in t[r]
    ensures Severed(edges, t, more, r, c) <==> Severed(edges, s, more, r, c)
  {
    hide EdgeOk;
    if Severed(edges, s, more, r, c) {
      var e, p :| e in edges && e.rule == SetNull && Refers(e, c) && p in more && Names(e, s, r, p);
      LinkStands(e, s, t, gone, r, p, c);
    }
    if Severed(edges, t, more, r, c) {
      var e, p :| e in edges && e.rule == SetNull && Refers(e, c) && p in more && Names(e, t, r, p);
      NamesSame(e, s, t, gone, r, p);
    }
  }

  lemma LinkStands(e: Edge, s: Store, t: Store, gone: set<Ref>, r: Ref, p: Ref, c: Col)
    requires Remains(s, t, gone) && EdgeOk(e) && e.rule == SetNull && Refers(e, c) && Names(e, s, r, p)
    requires r in t && p in t && c in t[r]
    ensures Names(e, t, r, p)
  {
    assert SameRow(s[r], t[r]) && SameRow(s[p], t[p]);
  }

  lemma SeveredMore(edges: seq<Edge>, s: Store, a: set<Ref>, b: set<Ref>, r: Ref, c: Col)
    requires a <= b && Severed(edges, s, a, r, c)
    ensures Severed(edges, s, b, r, c)
  {
    hide Names, Refers;
    var e, p :| e in edges && e.rule == SetNull && Refers(e, c) && p in a && Names(e, s, r, p);
    assert p in b;
  }

  lemma SeveredUnion(edges: seq<Edge>, s: Store, a: set<Ref>, b: set<Ref>, r: Ref, c: Col)
    ensures Severed(edges, s, a + b, r, c) <==> Severed(edges, s, a, r, c) || Severed(edges, s, b, r, c)
  {
    hide Names, Refers;
    if Severed(edges, s, a, r, c) {
      SeveredMore(edges, s, a, a + b, r, c);
    } else if Severed(edges, s, b, r, c) {
      SeveredMore(edges, s, b, a + b, r, c);
    }
  }

  /** One column of one row through a delete. */
  lemma CellLeft(edges: seq<Edge>, s: Store, t: Store, plan: seq<Step>, u: nat, n: nat, more: set<Ref>, r: Ref, c: Col)
    requires n < |plan| && plan[n].Delete? && (forall e :: e in edges ==> EdgeOk(e)) && more <= t.Keys
    requires Remains(s, t, Gone(edges, s, plan, u, n)) && AllLeft(edges, s, t, plan, u, n)
    requires Gone(edges, s, plan, u, n + 1) == Gone(edges, s, plan, u, n) + more
    requires r in t && c in s[r]
    ensures c in Left(edges, s, plan, u, n + 1, r) <==> c in t[r] && !Severed(edges, t, more, r, c)
  {
    hide EdgeOk, Gone, Severed, Remains;
    SeveredUnion(edges, s, Gone(edges, s, plan, u, n), more, r, c);
    assert ClearedBy(s, plan, u, n + 1, r, c) == ClearedBy(s, plan, u, n, r, c);
    assert t[r] == Left(edges, s, plan, u, n, r);
    if c in t[r] {
      SeveredSame(edges, s, t, Gone(edges, s, plan, u, n), more, r, c);
    }
  }

  lemma RowLeft(edges: seq<Edge>, s: Store, t: Store, plan: seq<Step>, u: nat, n: nat, more: set<Ref>, r: Ref)
    requires n < |plan| && plan[n].Delete? && (forall e :: e in edges ==> EdgeOk(e)) && more <= t.Keys
    requires Remains(s, t, Gone(edges, s, plan, u, n)) && AllLeft(edges, s, t, plan, u, n)
    requires Gone(edges, s, plan, u, n + 1) == Gone(edges, s, plan, u, n) + more
    requires r in t && r !in more
    ensures r in s && Without(edges, t, more)[r] == Left(edges, s, plan, u, n + 1, r)
  {
    hide EdgeOk, Gone, Severed, ClearedBy;
    assert SameRow(s[r], t[r]);
    forall c | c in s[r]
      ensures c in Left(edges, s, plan, u, n + 1, r) <==> c in t[r] && !Severed(edges, t, more, r, c)
    {
      CellLeft(edges, s, t, plan, u, n, more, r, c);
    }
  }

  lemma DeleteLeaves(edges: seq<Edge>, s: Store, t: Store, plan: seq<Step>, u: nat, n: nat)
    requires PlanOk(edges, plan) && n < |plan| && plan[n].Delete?
    requires Remains(s, t, Gone(edges, s, plan, u, n)) && AllLeft(edges, s, t, plan, u, n)
    ensures AllLeft(edges, s, Without(edges, t, Closure(edges, t, Hit(t, plan[n], u))), plan, u, n + 1)
  {
    HitSame(edges, s, t, plan, u, n);
    hide StepOk, EdgeOk, Hit, Gone, Closure, Severed, Remains, Left;
    GoneGrows(edges, s, t, plan, u, n);
    var more := Closure(edges, t, Hit(t, plan[n], u));
    var after := Without(edges, t, more);
    forall r | r in after
      ensures r in s && after[r] == Left(edges, s, plan, u, n + 1, r)
    {
      RowLeft(edges, s, t, plan, u, n, more, r);
    }
  }

  lemma ClearLeaves(edges: seq<Edge>, s: Store, t: Store, plan: seq<Step>, u: nat, n: nat)
    requires n < |plan| && plan[n].Clear? && Gone(edges, s, plan, u, n + 1) == Gone(edges, s, plan, u, n)
    requires AllLeft(edges, s, t, plan, u, n)
    ensures AllLeft(edges, s, ClearRows(t, plan[n].table, plan[n].col, u), plan, u, n + 1)
  {
    hide Gone, Severed;
    var after := ClearRows(t, plan[n].table, plan[n].col, u);
    forall r | r in after
      ensures after[r] == Left(edges, s, plan, u, n + 1, r)
    {
      forall c | c in s[r]
        ensures c in after[r] <==> c in Left(edges, s, plan, u, n + 1, r)
      {
        assert ClearedBy(s, plan, u, n + 1, r, c)
           <==> ClearedBy(s, plan, u, n, r, c) || (s[r][c] == u && plan[n] == Clear(r.table, c));
      }
    }
  }

  lemma ClearCleared(t: Store, plan: seq<Step>, u: nat, n: nat)
    requires n < |plan| && plan[n].Clear? && Cleared(t, plan, u, n)
    ensures Cleared(ClearRows(t, plan[n].table, plan[n].col, u), plan, u, n + 1)
  {
    var after := ClearRows(t, plan[n].table, plan[n].col, u);
    ClearedStays(t, after, plan, u, n);
  }

  lemma ClearStep(edges: seq<Edge>, s: Store, t: Store, plan: seq<Step>, u: nat, n: nat)
    requires PlanOk(edges, plan) && n < |plan| && plan[n].Clear?
    requires Remains(s, t, Gone(edges, s, plan, u, n)) && Cleared(t, plan, u, n)
    ensures Gone(edges, s, plan, u, n + 1) == Gone(edges, s, plan, u, n)
    ensures var after := ClearRows(t, plan[n].table, plan[n].col, u);
            Remains(s, after, Gone(edges, s, plan, u, n + 1)) && Cleared(after, plan, u, n + 1)
  {
    hide EdgeOk, Cleared, ClearRows, Remains, Closure;
    assert StepOk(edges, plan, n);
    assert Doomed(s, plan, u, n + 1) == Doomed(s, plan, u, n);
    ClearRemains(s, t, Gone(edges, s, plan, u, n), plan[n].table, plan[n].col, u);
    ClearCleared(t, plan, u, n);
  }

  lemma StepLeaves(edges: seq<Edge>, s: Store, t: Store, plan: seq<Step>, u: nat, n: nat)
    requires PlanOk(edges, plan) && n < |plan|
    requires Remains(s, t, Gone(edges, s, plan, u, n)) && Cleared(t, plan, u, n) && AllLeft(edges, s, t, plan, u, n)
    ensures var r := RunStep(edges, t, plan[n], u);
            r.Some? ==> AllLeft(edges, s, r.value, plan, u, n + 1)
  {
    hide PlanOk, Remains, Cleared, Gone, Without, ClearRows, Closure, Blocks, AllLeft;
    if plan[n].Delete? {
      DeleteLeaves(edges, s, t, plan, u, n);
    } else {
      ClearStep(edges, s, t, plan, u, n);
      ClearLeaves(edges, s, t, plan, u, n);
    }
  }

  lemma StepRemains(edges: seq<Edge>, s: Store, t: Store, plan: seq<Step>, u: nat, n: nat)
    requires PlanOk(edges, plan) && n < |plan|
    requires Remains(s, t, Gone(edges, s, plan, u, n)) && Cleared(t, plan, u, n)
    ensures Hit(t, plan[n], u) == Hit(s, plan[n], u) - Gone(edges, s, plan, u, n)
    ensures var r := RunStep(edges, t, plan[n], u);
            r.Some? ==> && Remains(s, r.value, Gone(edges, s, plan, u, n + 1))
                        && Cleared(r.value, plan, u, n + 1)
  {
    hide PlanOk, Remains, Cleared, Gone, Without, ClearRows, Closure, Blocks;
    if plan[n].Delete? {
      DeleteStep(edges, s, t, plan, u, n);
    } else {
      ClearStep(edges, s, t, plan, u, n);
    }
  }

  /** Each reported count is the size of the step's backup section less what was gone already. */
  ghost predicate CountsTell(edges: seq<Edge>, s: Store, plan: seq<Step>, u: nat, counts: seq<nat>)
    requires |counts| <= |plan|
  {
    forall j :: 0 <= j < |counts| ==> counts[j] == |Hit(s, plan[j], u) - Gone(edges, s, plan, u, j)|
  }

  /**
   * What a run has done: its store is the first one less the rows gone, each row left less exactly its
   * severed and cleared columns, and each count is its backup section less what was gone already.
   */
  ghost predicate Tracks(edges: seq<Edge>, s: Store, plan: seq<Step>, u: nat, done: Progress)
    requires |done.counts| <= |plan|
  {
    && Remains(s, done.store, Gone(edges, s, plan, u, |done.counts|))
    && Cleared(done.store, plan, u, |done.counts|)
    && AllLeft(edges, s, done.store, plan, u, |done.counts|)
    && CountsTell(edges, s, plan, u, done.counts)
  }

  lemma StepTracks(edges: seq<Edge>, s: Store, plan: seq<Step>, u: nat, done: Progress)
    requires PlanOk(edges, plan) && |done.counts| < |plan| && Tracks(edges, s, plan, u, done)
    ensures var n := |done.counts|;
            var after := RunStep(edges, done.store, plan[n], u);
            after.Some? ==>
              Tracks(edges, s, plan, u, Progress(after.value, done.counts + [|Hit(done.store, plan[n], u)|]))
  {
    hide PlanOk, RunStep, Hit, Remains, Cleared, Gone, AllLeft;
    StepRemains(edges, s, done.store, plan, u, |done.counts|);
    StepLeaves(edges, s, done.store, plan, u, |done.counts|);
  }

  lemma {:induction false} RunTracks(edges: seq<Edge>, s: Store, plan: seq<Step>, u: nat, n: nat)
    requires PlanOk(edges, plan) && n <= |plan|
    requires RunDeletes(edges, s, plan, u, n).Some?
    ensures Tracks(edges, s, plan, u, RunDeletes(edges, s, plan, u, n).value)
  {
    hide PlanOk, RunStep, Hit, Tracks;
    if n == 0 {
      FirstTracks(edges, s, plan, u);
    } else {
      LastRun(edges, s, plan, u, n - 1);
      RunTracks(edges, s, plan, u, n - 1);
      StepTracks(edges, s, plan, u, RunDeletes(edges, s, plan, u, n - 1).value);
    }
  }

  lemma FirstTracks(edges: seq<Edge>, s: Store, plan: seq<Step>, u: nat)
    ensures Tracks(edges, s, plan, u, Progress(s, []))
  {
    NothingGone(edges, s, plan, u);
    NothingLeftOut(edges, s, plan, u);
  }

  lemma NothingLeftOut(edges: seq<Edge>, s: Store, plan: seq<Step>, u: nat)
    requires Gone(edges, s, plan, u, 0) == {}
    ensures AllLeft(edges, s, s, plan, u, 0)
  {
    hide Gone;
    forall r | r in s
      ensures s[r] == Left(edges, s, plan, u, 0, r)
    {
      forall c | c in s[r]
        ensures c in Left(edges, s, plan, u, 0, r)
      {
      }
    }
  }

  lemma LastRun(edges: seq<Edge>, s: Store, plan: seq<Step>, u: nat, n: nat)
    requires n < |plan|
    ensures var before, r := RunDeletes(edges, s, plan, u, n), RunDeletes(edges, s, plan, u, n + 1);
            && (before.None? ==> r.None?)
            && (before.Some? ==>
                  var t, counts := before.value.store, before.value.counts;
                  var after := RunStep(edges, t, plan[n], u);
                  r == if after.None? then None else Some(Progress(after.value, counts + [|Hit(t, plan[n], u)|])))
  {
    hide RunStep, Hit;
  }

  lemma NothingGone(edges: seq<Edge>, s: Store, plan: seq<Step>, u: nat)
    ensures Gone(edges, s, plan, u, 0) == {} && Remains(s, s, {})
  {
    ClosureLeast(edges, s, {}, {});
  }

  /** A step is refused exactly when a row that outlives it still names, under a restricting key, a row it removes. */
  lemma StepRefusedIff(edges: seq<Edge>, s: Store, t: Store, plan: seq<Step>, u: nat, n: nat)
    requires PlanOk(edges, plan) && n < |plan|
    requires Remains(s, t, Gone(edges, s, plan, u, n)) && Cleared(t, plan, u, n)
    ensures RunStep(edges, t, plan[n], u).None? <==>
              exists e, r, p :: e in edges && e.rule == Restrict && Names(e, t, r, p)
                && r !in Gone(edges, s, plan, u, n + 1) && p in Gone(edges, s, plan, u, n + 1)
  {
    hide StepOk, EdgeOk;
    StepRemains(edges, s, t, plan, u, n);
    var gone, next := Gone(edges, s, plan, u, n), Gone(edges, s, plan, u, n + 1);
    if plan[n].Delete? {
      GoneGrows(edges, s, t, plan, u, n);
    } else {
      assert Doomed(s, plan, u, n + 1) == Doomed(s, plan, u, n);
    }
  }
}
