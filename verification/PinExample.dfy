// A database whose purge is refused after its preparation passed: a colleague's correction.

module PinExample {
  import opened Basics
  import opened Relational
  import opened Purge
  import opened PersonPurge
  import opened PurgeTheorems
  import opened PurgePins

  /** User 7 overrode a day of employee 8, and user 9 corrected that day again. */
  function ColleaguesCorrection(): Store {
    map[Ref(Users, 7) := map[Id := 7],
        Ref(Users, 8) := map[Id := 8],
        Ref(Users, 9) := map[Id := 9],
        Ref(AttendanceDayOverrides, 0) := map[EmployeeId := 8, WorkDate := 1, CreatedBy := 7],
        Ref(AttendanceCorrections, 0) := map[EmployeeId := 8, WorkDate := 1, ActorId := 9]]
  }

  lemma OverrideIsOwned()
    ensures OwnedBy(ColleaguesCorrection(), 7, Ref(AttendanceDayOverrides, 0))
    ensures !OwnedBy(ColleaguesCorrection(), 7, Ref(AttendanceCorrections, 0))
  {
    hide Plan, OwnedBy;
    OwnedIs(ColleaguesCorrection(), 7, Ref(AttendanceDayOverrides, 0));
    OwnedIs(ColleaguesCorrection(), 7, Ref(AttendanceCorrections, 0));
  }

  lemma NothingToRefuse()
    ensures !Refused(ColleaguesCorrection(), 7)
  {
    hide Edges, Plan, OwnedBy;
  }

  lemma RowsAreCoherent()
    ensures Coherent(ColleaguesCorrection()) && RanNoImport(ColleaguesCorrection(), 7)
  {
    hide Edges, Plan, OwnedBy;
  }

  /** The preparation finds nothing to refuse, the rows are coherent, and the purge does not complete. */
  lemma ColleaguePins()
    ensures var s := ColleaguesCorrection();
            && !Refused(s, 7) && Coherent(s) && RanNoImport(s, 7)
            && RunDeletes(Edges(), s, Plan(), 7, STEPS).None?
  {
    hide Edges, Plan, RunDeletes, OwnedBy, Refused, Coherent, RanNoImport;
    var s := ColleaguesCorrection();
    NothingToRefuse();
    RowsAreCoherent();
    OverrideIsOwned();
    assert Names(CORRECTION_OF_OVERRIDE, s, Ref(AttendanceCorrections, 0), Ref(AttendanceDayOverrides, 0));
    PreparedPurgeCompletesIff(s, 7);
  }
}
