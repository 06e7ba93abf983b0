// The purge and restore runs as the tool performs them: one loop of statements, one loop that
// writes the backup, and the nested loop that replays it.

module SuperCli {
  import opened Basics
  import opened Relational
  import opened Purge
  import opened PersonPurge
  import opened PurgeTheorems
  import opened Guards
  import opened Restore

  class Database {
    var rows: Store

    constructor (rows: Store)
      ensures this.rows == rows
    {
      this.rows := rows;
    }
  }

  function Sum(counts: seq<nat>): nat {
    if counts == [] then 0 else Sum(counts[..|counts| - 1]) + counts[|counts| - 1]
  }

  lemma {:induction false} RunStops(edges: seq<Edge>, s: Store, plan: seq<Step>, u: nat, m: nat, n: nat)
    requires m <= n <= |plan| && RunDeletes(edges, s, plan, u, m).None?
    ensures RunDeletes(edges, s, plan, u, n).None?
    decreases n
  {
    hide RunDeletes, RunStep, Hit;
    if m < n {
      RunStops(edges, s, plan, u, m, n - 1);
      LastRun(edges, s, plan, u, n - 1);
    }
  }

  lemma SumSnoc(counts: seq<nat>, n: nat)
    ensures Sum(counts + [n]) == Sum(counts) + n
  {
    assert (counts + [n])[..|counts|] == counts;
  }

  lemma NoStatements(edges: seq<Edge>, s: Store, plan: seq<Step>, u: nat)
    ensures RunDeletes(edges, s, plan, u, 0) == Some(Progress(s, []))
  {
  }

  /** The delete loop in one transaction: the total of the deleted rows, or nothing changed at all. */
  method ExecutePlan(db: Database, edges: seq<Edge>, plan: seq<Step>, u: nat) returns (total: Option<nat>)
    modifies db
    ensures match RunDeletes(edges, old(db.rows), plan, u, |plan|)
            case None => total.None? && db.rows == old(db.rows)
            case Some(done) => total == Some(Sum(done.counts)) && db.rows == done.store
  {
    hide RunDeletes, DeleteRows, ClearRows, Hit;
    var before, deleted := db.rows, 0;
    ghost var counts := [];
    NoStatements(edges, before, plan, u);
    for i := 0 to |plan|
      invariant RunDeletes(edges, before, plan, u, i) == Some(Progress(db.rows, counts))
      invariant deleted == Sum(counts)
    {
      LastRun(edges, before, plan, u, i);
      match plan[i] {
        case Delete(_, _) =>
          var hit := Hit(db.rows, plan[i], u);
          var after := DeleteRows(edges, db.rows, hit);
          if after.None? {
            RunStops(edges, before, plan, u, i + 1, |plan|);
            db.rows := before;
            return None;
          }
          SumSnoc(counts, |hit|);
          deleted, counts := deleted + |hit|, counts + [|hit|];
          db.rows := after.value;
        case Clear(table, col) =>
          NothingHit(db.rows, plan[i], u);
          SumSnoc(counts, 0);
          counts := counts + [0];
          db.rows := ClearRows(db.rows, table, col, u);
      }
    }
    total := Some(deleted);
  }

  lemma NothingHit(s: Store, step: Step, u: nat)
    requires step.Clear?
    ensures |Hit(s, step, u)| == 0
  {
  }

  /** The snapshot of every row the plan will delete. */
  method BackupPlan(db: Database, plan: seq<Step>, u: nat) returns (sections: seq<Store>, total: nat)
    ensures sections == Backup(db.rows, plan, u, |plan|)
    ensures total == Total(sections)
  {
    hide Hit, SectionOf;
    sections, total := [], 0;
    for i := 0 to |plan|
      invariant sections == Backup(db.rows, plan, u, i)
      invariant total == Total(sections)
    {
      var section := SectionOf(db.rows, plan[i], u);
      if |section| > 0 {
        assert (sections + [section])[..|sections|] == sections;
        sections, total := sections + [section], total + |section|;
      }
    }
  }

  ghost predicate OfOneTable(section: Store) {
    forall r, q :: r in section && q in section ==> r.table == q.table
  }

  /** Rows of the same table are no parents of each other, so inserting some anchors no other. */
  lemma AnchoredSame(edges: seq<Edge>, t: Store, more: Store, table: Table, x: Row)
    requires forall e :: e in edges ==> e.child != e.parent
    requires more.Keys !! t.Keys && forall r :: r in more ==> r.table == table
    ensures Anchored(edges, t + more, table, x) == Anchored(edges, t, table, x)
  {
    forall e | e in edges && e.child == table
      ensures HasParent(e, t + more, x) == HasParent(e, t, x)
    {
      if p :| p in t && p.table == e.parent && Matches(e, x, t[p]) {
        assert p in t + more;
      }
    }
  }

  lemma PutOne(t: Store, section: Store, refs: set<Ref>, r: Ref)
    requires r in section
    ensures (t + Put(section, refs))[r := Insertable(section[r])] == t + Put(section, refs + {r})
  {
    hide Insertable;
  }

  /** Users and memberships are no section whose actor is checked, so inserting rows changes no actor. */
  lemma ActorSame(t: Store, more: Store, table: Table, x: Row)
    requires more.Keys !! t.Keys && forall r :: r in more ==> r.table == table
    ensures ActorOk(t + more, table, x) == ActorOk(t, table, x)
  {
    var now, col := t + more, ActorCol(table);
    if col.Some? && col.value in x {
      forall p | p in t
        ensures p in now && now[p] == t[p]
      {
      }
      assert Staff(now, x[col.value]) == Staff(t, x[col.value]);
      assert TenantId in x ==>
          ActiveMember(now, x[col.value], x[TenantId]) == ActiveMember(t, x[col.value], x[TenantId]);
    }
  }

  /** What the j-th row needs, as far as the rows before its section can tell. */
  predicate Passes(edges: seq<Edge>, t: Store, section: Store, rows: seq<Ref>, j: nat)
    requires j < |rows| && rows[j] in section
  {
    var x := Insertable(section[rows[j]]);
    && ActorOk(t, rows[j].table, x) && RoomAt(t, section, rows, j)
    && (rows[j] !in t ==> Anchored(edges, t, rows[j].table, x))
  }

  lemma RowRefused(edges: seq<Edge>, t: Store, section: Store, rows: seq<Ref>, j: nat)
    requires j < |rows| && Lists(rows, section.Keys) && !Passes(edges, t, section, rows, j)
    ensures InsertSection(edges, t, section, rows).None?
  {
    hide Anchored, Insertable, ActorOk, RoomAt;
    assert rows[j] in section;
    assert rows[j] !in t ==> rows[j] in Missing(t, section);
  }

  lemma AllPass(edges: seq<Edge>, t: Store, section: Store, rows: seq<Ref>)
    requires Lists(rows, section.Keys)
    requires forall j :: 0 <= j < |rows| ==> Passes(edges, t, section, rows, j)
    ensures InsertSection(edges, t, section, rows)
         == Some(Restored(t + Put(section, InBefore(t, rows, |rows|)), |InBefore(t, rows, |rows|)|))
  {
    hide Put, InBefore, Missing, Refuses;
    AllBefore(t, section, rows);
    NoneRefused(edges, t, section, rows);
  }

  lemma AllBefore(t: Store, section: Store, rows: seq<Ref>)
    requires Lists(rows, section.Keys)
    ensures InBefore(t, rows, |rows|) == Missing(t, section)
  {
    assert rows[..|rows|] == rows;
  }

  lemma NoneRefused(edges: seq<Edge>, t: Store, section: Store, rows: seq<Ref>)
    requires Lists(rows, section.Keys)
    requires forall j :: 0 <= j < |rows| ==> Passes(edges, t, section, rows, j)
    ensures !Refuses(edges, t, section, rows)
  {
    hide Anchored, Insertable, ActorOk, RoomAt, Passes;
    forall j | 0 <= j < |rows|
      ensures RoomAt(t, section, rows, j)
    {
      PassesMeans(edges, t, section, rows, j);
    }
    forall r | r in section
      ensures ActorOk(t, r.table, Insertable(section[r]))
      ensures r in Missing(t, section) ==> Anchored(edges, t, r.table, Insertable(section[r]))
    {
      assert r in rows;
      var j :| 0 <= j < |rows| && rows[j] == r;
      PassesMeans(edges, t, section, rows, j);
    }
  }

  lemma PassesMeans(edges: seq<Edge>, t: Store, section: Store, rows: seq<Ref>, j: nat)
    requires j < |rows| && rows[j] in section && Passes(edges, t, section, rows, j)
    ensures RoomAt(t, section, rows, j) && ActorOk(t, rows[j].table, Insertable(section[rows[j]]))
    ensures rows[j] in Missing(t, section) ==> Anchored(edges, t, rows[j].table, Insertable(section[rows[j]]))
  {
    hide Anchored, Insertable, ActorOk, RoomAt;
  }

  /** The next row is judged as before its section, and is there exactly if it was there before. */
  lemma NextRow(edges: seq<Edge>, t: Store, section: Store, rows: seq<Ref>, i: nat)
    requires OfOneTable(section) && (forall e :: e in edges ==> e.child != e.parent)
    requires i < |rows| && Lists(rows, section.Keys)
    ensures var now, r := t + Put(section, InBefore(t, rows, i)), rows[i];
            var x := Insertable(section[r]);
            && ActorOk(now, r.table, x) == ActorOk(t, r.table, x)
            && Anchored(edges, now, r.table, x) == Anchored(edges, t, r.table, x)
            && (r in now <==> r in t)
  {
    hide Anchored, Insertable, ActorOk;
    var put, r := Put(section, InBefore(t, rows, i)), rows[i];
    assert r in section && forall q :: q in put ==> q in section;
    AnchoredSame(edges, t, put, r.table, Insertable(section[r]));
    ActorSame(t, put, r.table, Insertable(section[r]));
    assert r !in rows[..i];
  }

  lemma PrefixGrows(rows: seq<Ref>, i: nat, r: Ref)
    requires i < |rows|
    ensures r in rows[..i + 1] <==> r in rows[..i] || r == rows[i]
  {
    assert rows[..i + 1] == rows[..i] + [rows[i]];
  }

  lemma OneMoreIn(t: Store, rows: seq<Ref>, i: nat)
    requires i < |rows| && rows[i] !in rows[..i]
    ensures InBefore(t, rows, i + 1) == InBefore(t, rows, i) + if rows[i] in t then {} else {rows[i]}
    ensures |InBefore(t, rows, i + 1)| == |InBefore(t, rows, i)| + if rows[i] in t then 0 else 1
  {
    var now, next := InBefore(t, rows, i), InBefore(t, rows, i + 1);
    forall r: Ref
      ensures r in next <==> r in now || (r == rows[i] && r !in t)
    {
      PrefixGrows(rows, i, r);
    }
    hide InBefore;
    assert next == now + if rows[i] in t then {} else {rows[i]};
  }

  lemma NotListedBefore(rows: seq<Ref>, refs: set<Ref>, i: nat)
    requires i < |rows| && Lists(rows, refs)
    ensures rows[i] !in rows[..i]
  {
  }

  lemma NoneIn(t: Store, section: Store, rows: seq<Ref>)
    ensures InBefore(t, rows, 0) == {} && t + Put(section, {}) == t
  {
    assert Put(section, {}).Keys == {};
  }

  /**
   * One section, row by row in the file's order: the triggers judge every row, rows that exist are
   * skipped, a row without its parent aborts.
   */
  method InsertRows(db: Database, edges: seq<Edge>, section: Store, rows: seq<Ref>) returns (inserted: Option<nat>)
    requires OfOneTable(section) && (forall e :: e in edges ==> e.child != e.parent) && Lists(rows, section.Keys)
    modifies db
    ensures match InsertSection(edges, old(db.rows), section, rows)
            case None => inserted.None?
            case Some(done) => inserted == Some(done.inserted) && db.rows == done.store
  {
    hide Anchored, Insertable, InsertSection, OfOneTable, ActorOk, RoomFor, InBefore, Put;
    var before, n := db.rows, 0;
    NoneIn(before, section, rows);
    for i := 0 to |rows|
      invariant db.rows == before + Put(section, InBefore(before, rows, i)) && n == |InBefore(before, rows, i)|
      invariant forall j :: 0 <= j < i ==> Passes(edges, before, section, rows, j)
    {
      var r, x := rows[i], Insertable(section[rows[i]]);
      NextRow(edges, before, section, rows, i);
      NotListedBefore(rows, section.Keys, i);
      OneMoreIn(before, rows, i);
      if !ActorOk(db.rows, r.table, x) || !RoomFor(db.rows, r.table, x) {
        RowRefused(edges, before, section, rows, i);
        return None;
      }
      if r !in db.rows {
        if !Anchored(edges, db.rows, r.table, x) {
          RowRefused(edges, before, section, rows, i);
          return None;
        }
        PutOne(before, section, InBefore(before, rows, i), r);
        db.rows, n := db.rows[r := x], n + 1;
      }
    }
    AllPass(edges, before, section, rows);
    inserted := Some(n);
  }

  lemma RestoreLast(edges: seq<Edge>, t: Store, sections: seq<Store>, order: Order, k: nat)
    requires k < |sections|
    ensures InsertSections(edges, t, sections[..k + 1], order)
         == var one := InsertSection(edges, t, sections[k], order(sections[k]));
            if one.None? then None
            else
              var rest := InsertSections(edges, one.value.store, sections[..k], order);
              if rest.None? then None
              else Some(Restored(rest.value.store, one.value.inserted + rest.value.inserted))
  {
    hide InsertSections, InsertSection;
    assert sections[..k + 1] == sections[..k] + [sections[k]];
    RestoreSnoc(edges, t, sections[..k], sections[k], order);
  }

  /** What is left to restore, counted on top of what was inserted so far. */
  ghost function Onward(edges: seq<Edge>, t: Store, sections: seq<Store>, order: Order, n: nat): Option<Restored> {
    var rest := InsertSections(edges, t, sections, order);
    if rest.None? then None else Some(Restored(rest.value.store, n + rest.value.inserted))
  }

  /**
   * The restore: sections in reverse, in one transaction that the coverage trigger can still refuse
   * at commit; the backup is consumed only when every one of its rows went in.
   */
  method ApplyRestore(db: Database, edges: seq<Edge>, sections: seq<Store>, order: Order, today: nat -> Date)
    returns (inserted: Option<nat>, consumed: bool)
    requires IsOrder(order) && forall e :: e in edges ==> e.child != e.parent
    requires forall section :: section in sections ==> OfOneTable(section)
    modifies db
    ensures match RestoreRows(edges, old(db.rows), sections, order, today)
            case None => inserted.None? && db.rows == old(db.rows)
            case Some(done) => inserted == Some(done.inserted) && db.rows == done.store
    ensures consumed <==> inserted == Some(Total(sections))
  {
    hide InsertSections, InsertSection, OfOneTable, Commits, IsOrder, Lists;
    var before, n, total := db.rows, 0, 0;
    assert sections[..|sections|] == sections;
    for k := |sections| downto 0
      invariant Onward(edges, db.rows, sections[..k], order, n) == InsertSections(edges, before, sections, order)
      invariant total + Total(sections[..k]) == Total(sections)
    {
      RestoreLast(edges, db.rows, sections, order, k);
      assert sections[..k + 1][..k] == sections[..k];
      ListedBy(order, sections[k]);
      var one := InsertRows(db, edges, sections[k], order(sections[k]));
      if one.None? {
        db.rows := before;
        return None, false;
      }
      n, total := n + one.value, total + |sections[k]|;
    }
    NoSections(edges, db.rows, order);
    if !Commits(before, db.rows, today) {
      db.rows := before;
      return None, false;
    }
    inserted, consumed := Some(n), n == total;
  }

  lemma NoSections(edges: seq<Edge>, t: Store, order: Order)
    ensures InsertSections(edges, t, [], order) == Some(Restored(t, 0))
  {
  }

  lemma {:induction false} SectionsOfOneTable(s: Store, u: nat, n: nat)
    requires n <= STEPS
    ensures forall section :: section in Backup(s, Plan(), u, n) ==> OfOneTable(section)
  {
    hide Plan, Hit;
    if n > 0 {
      SectionsOfOneTable(s, u, n - 1);
      forall r | r in SectionOf(s, Plan()[n - 1], u)
        ensures r.table == Plan()[n - 1].table
      {
        HitTable(s, u, n - 1, r);
        StepTable(n - 1, r.table);
      }
    }
  }

  lemma StepTable(n: nat, t: Table)
    requires n < STEPS && StepOf(t) == Some(n)
    ensures Plan()[n].table == t
  {
    hide Plan;
    StepIsFor(t);
  }

  lemma NoSelfEdges()
    ensures forall e :: e in Edges() ==> e.child != e.parent
  {
    hide Edges;
    forall e | e in Edges()
      ensures e.child != e.parent
    {
      EdgesSane(e);
    }
  }

  lemma BackupGrows(s: Store, u: nat, n: nat)
    requires n < STEPS
    ensures Total(Backup(s, Plan(), u, n + 1)) == Total(Backup(s, Plan(), u, n)) + |Hit(s, Plan()[n], u)|
  {
    hide Plan, Hit, SectionOf, Backup, Total;
    var section, sections := SectionOf(s, Plan()[n], u), Backup(s, Plan(), u, n);
    BackupSnoc(s, u, n);
    SectionSize(s, u, n);
    TotalSnoc(sections, section);
    assert sections + [] == sections;
  }

  /** How many rows each step finds in the untouched store. */
  ghost function Sizes(s: Store, u: nat, n: nat): (sizes: seq<nat>)
    requires n <= STEPS
    ensures |sizes| == n
    ensures forall j :: 0 <= j < n ==> sizes[j] == |Hit(s, Plan()[j], u)|
  {
    hide Plan, Hit;
    seq(n, j requires 0 <= j < n => |Hit(s, Plan()[j], u)|)
  }

  lemma {:induction false} TotalIsSum(s: Store, u: nat, n: nat)
    requires n <= STEPS
    ensures Total(Backup(s, Plan(), u, n)) == Sum(Sizes(s, u, n))
  {
    hide Plan, Hit, Sizes;
    if n > 0 {
      hide Backup, Sum, Total;
      TotalIsSum(s, u, n - 1);
      BackupGrows(s, u, n - 1);
      SumSnoc(Sizes(s, u, n - 1), |Hit(s, Plan()[n - 1], u)|);
      assert Sizes(s, u, n) == Sizes(s, u, n - 1) + [|Hit(s, Plan()[n - 1], u)|];
    }
  }

  /** Of two lists, one nowhere above the other, the sums agree only when the lists do. */
  lemma {:induction false} SumsCompare(a: seq<nat>, b: seq<nat>)
    requires |a| == |b| && forall j :: 0 <= j < |a| ==> a[j] <= b[j]
    ensures Sum(a) <= Sum(b) && (Sum(a) == Sum(b) <==> a == b)
  {
    if a != [] {
      var n := |a| - 1;
      SumsCompare(a[..n], b[..n]);
      assert a == a[..n] + [a[n]] && b == b[..n] + [b[n]];
    }
  }

  lemma SectionSize(s: Store, u: nat, n: nat)
    requires n < STEPS
    ensures |SectionOf(s, Plan()[n], u)| == |Hit(s, Plan()[n], u)|
  {
    hide Plan, Hit;
    assert SectionOf(s, Plan()[n], u).Keys == Hit(s, Plan()[n], u);
  }

  lemma TotalSnoc(sections: seq<Store>, section: Store)
    ensures Total(sections + [section]) == Total(sections) + |section|
  {
    assert (sections + [section])[..|sections|] == sections;
  }

  lemma CountsAtMost(s: Store, u: nat)
    requires RunDeletes(Edges(), s, Plan(), u, STEPS).Some?
    ensures var counts := RunDeletes(Edges(), s, Plan(), u, STEPS).value.counts;
            forall j :: 0 <= j < STEPS ==> counts[j] <= |Hit(s, Plan()[j], u)|
  {
    hide Edges, Plan, Gone, RunDeletes, Hit, PlanOk;
    PlanIsOk();
    RunTracks(Edges(), s, Plan(), u, STEPS);
    forall j | 0 <= j < STEPS
      ensures |Hit(s, Plan()[j], u) - Gone(Edges(), s, Plan(), u, j)| <= |Hit(s, Plan()[j], u)|
    {
      SubsetSize(Hit(s, Plan()[j], u) - Gone(Edges(), s, Plan(), u, j), Hit(s, Plan()[j], u));
    }
  }

  /** No notification of the person is about one of their own jobs. */
  ghost predicate NoOwnNotice(s: Store, u: nat) {
    forall r :: r in Hit(s, Plan()[AT_NOTIFICATIONS], u) ==> !NoticeOfOwnJob(s, u, r)
  }

  /** The deleted total equals the backed-up total exactly when no notification is about an own job. */
  lemma TotalsAgreeIff(s: Store, u: nat)
    requires RunDeletes(Edges(), s, Plan(), u, STEPS).Some?
    ensures var counts := RunDeletes(Edges(), s, Plan(), u, STEPS).value.counts;
            Sum(counts) == Total(PersonBackup(s, u)) <==> NoOwnNotice(s, u)
  {
    hide Edges, Plan, RunDeletes, Hit, NoticeOfOwnJob, Backup, Sizes, Sum;
    CountsAtMost(s, u);
    var counts := RunDeletes(Edges(), s, Plan(), u, STEPS).value.counts;
    TotalIsSum(s, u, STEPS);
    SumsCompare(counts, Sizes(s, u, STEPS));
    ReceiptMatchesBackupIff(s, u);
  }

  /** Purging one person: the backup is taken first, then everything goes in one transaction. */
  method ExecutePurge(db: Database, u: nat) returns (backup: seq<Store>, backupRows: nat, deletedRows: Option<nat>)
    modifies db
    ensures backup == PersonBackup(old(db.rows), u) && backupRows == Total(backup)
    ensures deletedRows.Some? <==> !Pinned(old(db.rows), u)
    ensures deletedRows.None? ==> db.rows == old(db.rows)
    ensures deletedRows.Some? ==> RunDeletes(Edges(), old(db.rows), Plan(), u, STEPS).Some?
                                  && db.rows == AfterPurge(old(db.rows), u)
                                  && deletedRows.value
                                     == Sum(RunDeletes(Edges(), old(db.rows), Plan(), u, STEPS).value.counts)
                                  && (deletedRows.value == backupRows <==> NoOwnNotice(old(db.rows), u))
  {
    hide RunDeletes, Edges, Plan, Pinned, Backup, NoOwnNotice;
    PurgeCompletesIff(db.rows, u);
    backup, backupRows := BackupPlan(db, Plan(), u);
    if !Pinned(db.rows, u) {
      PurgeLeaves(db.rows, u);
      TotalsAgreeIff(db.rows, u);
    }
    deletedRows := ExecutePlan(db, Edges(), Plan(), u);
  }

  /** Restoring that backup: all of it or none. */
  method RestorePerson(db: Database, ghost s: Store, u: nat, backup: seq<Store>, order: Order, today: nat -> Date)
    returns (inserted: Option<nat>, consumed: bool)
    requires ParentsExist(Edges(), s) && ParentsUnique(Edges(), s) && IsOrder(order)
    requires RunDeletes(Edges(), s, Plan(), u, STEPS).Some?
    requires db.rows == Purged(s, u) && backup == PersonBackup(s, u)
    modifies db
    ensures inserted.Some? <==> Restorable(s, u, order, today)
    ensures inserted.Some? ==> inserted.value == Total(backup) && consumed && db.rows == GivenBack(s, u)
    ensures inserted.Some? ==>
              && BackAgain(old(db.rows), backup, db.rows)
              && forall section, r :: section in backup && r in section ==> r in s && section[r] == s[r]
    ensures inserted.None? ==> db.rows == old(db.rows) && !consumed
  {
    hide RunDeletes, Edges, Plan, Restorable, Backup, RestoreRows, ParentsExist, ParentsUnique, IsOrder, BackAgain;
    NoSelfEdges();
    SectionsOfOneTable(s, u, STEPS);
    RestoreCompletesIff(s, u, order, today);
    inserted, consumed := ApplyRestore(db, Edges(), backup, order, today);
    if inserted.Some? {
      RoundTrip(s, u, order, today);
    }
  }
}
