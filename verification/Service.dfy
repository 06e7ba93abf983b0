// The service as a whole: one call per transaction, and whole runs of it. A database that starts
// empty and serves the calls of a run goes through the states of its `History`, so every theorem
// about histories is about these tables.

module Service {
  import opened Basics
  import opened Tables
  import opened Machine
  import opened Frames
  import opened Transaction
  import CheckInOutService
  import LeaveService
  import EnrolmentService
  import CorrectionService

  method Serve(tx: Tx, env: Env, now: Instant, call: Call) returns (reply: Reply)
    modifies tx
    ensures Result(tx.View(), reply) == Step(env, old(tx.View()), now, call)
  {
    match call
    case Punch(p) => reply := CheckInOutService.Transact(tx, env, now, p);
    case ApplyLeave(a) => reply := LeaveService.ApplyTransact(tx, env, now, a);
    case ActOnLeave(req, actor, action) => reply := LeaveService.ActTransact(tx, env, now, req, actor, action);
    case CancelLeave(req, admins) => reply := LeaveService.CancelTransact(tx, env, now, req, admins);
    case Enable(office, start, ok, fact, live) =>
      reply := EnrolmentService.SetEnrolment(tx, env, now, office, start, ok, fact, live);
    case Reassign(office, from, ok, fact, live) =>
      reply := EnrolmentService.ReassignOffice(tx, env, now, office, from, ok, fact, live);
    case DisableFrom(from, ok, live) => reply := EnrolmentService.DisableEnrolment(tx, env, now, from, ok, live);
    case PutCorrection(p) => reply := CorrectionService.Put(tx, env, now, p);
    case RemoveCorrection(d, actor, ok, tracked) =>
      reply := CorrectionService.Remove(tx, env, now, d, actor, ok, tracked);
  }

  /** Serving a run from the empty tables: the states and the replies are those of its history. */
  method ServeAll(tx: Tx, env: Env, run: seq<Tick>) returns (replies: seq<Reply>, ghost h: History)
    requires tx.View() == EMPTY
    modifies tx
    ensures IsHistory(env, run, h) && h.replies == replies && h.states[|run|] == tx.View()
  {
    hide Step;
    replies := [];
    h := History([tx.View()], []);
    assert run[..0] == [];
    for i := 0 to |run|
      invariant IsHistory(env, run[..i], h) && h.replies == replies && h.states[i] == tx.View()
    {
      var reply := Serve(tx, env, run[i].now, run[i].call);
      HistoryGrows(env, run[..i], h, run[i], Result(tx.View(), reply));
      assert run[..i + 1] == run[..i] + [run[i]];
      replies := replies + [reply];
      h := History(h.states + [tx.View()], replies);
    }
    assert run[..|run|] == run;
  }
}
