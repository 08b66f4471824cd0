/** Calls that compete for the one request slot of the XML client.

    A call holds the slot from its first request to its last; between two requests of one call
    other calls may arrive, be cancelled or try to get the slot. */
module Slot {
  import opened Wrappers
  import opened XmlRecords
  import opened Groups
  import opened Client
  import opened ClientEffects

  /** A call waits for the slot, or it holds the slot and waits for an answer. The outcomes of
      the requests it has sent so far are kept for comparison with a serial execution. */
  datatype Task = Queued(op: Op) | Running(op: Op, prog: Prog, faults: seq<Fault>)

  datatype Outcome = Returned(result: Result<Reply, Error>) | Cancelled

  /** A call that gave the slot back. */
  datatype Run = Run(task: nat, op: Op, faults: seq<Fault>, outcome: Outcome)

  datatype World = World(
    store: Store,
    free: nat,
    calls: nat,
    tasks: map<nat, Task>,
    acquired: seq<nat>,
    done: seq<Run>)

  datatype Event =
    | Call(op: Op)
    | Acquire(task: nat)
    | Request(task: nat, fault: Fault)
    | Cancel(task: nat, applied: bool)

  function Initial(store: Store): World {
    World(store, 1, 0, map[], [], [])
  }

  /** The request of a cancelled call may have reached the firewall or not. */
  function CancelFault(applied: bool): Fault {
    if applied then AnswerLost(ConnectionError) else Lost(ConnectionError)
  }

  function Next(w: World, e: Event): World {
    match e
    case Call(op) => w.(calls := w.calls + 1, tasks := w.tasks[w.calls := Queued(op)])
    case Acquire(t) =>
      if t in w.tasks && w.tasks[t].Queued? && w.free > 0 then
        w.(free := w.free - 1,
           tasks := w.tasks[t := Running(w.tasks[t].op, Start(w.tasks[t].op), [])],
           acquired := w.acquired + [t])
      else w
    case Request(t, fault) =>
      if t in w.tasks && w.tasks[t].Running? then
        var task := w.tasks[t];
        var m := Exchange(Moment(w.store, task.prog), fault);
        if m.prog.Finished? then
          w.(store := m.store, free := w.free + 1, tasks := w.tasks - {t},
             done := w.done + [Run(t, task.op, task.faults + [fault], Returned(m.prog.result))])
        else
          w.(store := m.store, tasks := w.tasks[t := Running(task.op, m.prog, task.faults + [fault])])
      else w
    case Cancel(t, applied) =>
      if t in w.tasks && w.tasks[t].Running? then
        var task := w.tasks[t];
        var m := Exchange(Moment(w.store, task.prog), CancelFault(applied));
        w.(store := m.store, free := w.free + 1, tasks := w.tasks - {t},
           done := w.done + [Run(t, task.op, task.faults + [CancelFault(applied)], Cancelled)])
      else w.(tasks := w.tasks - {t})
  }

  function After(store: Store, events: seq<Event>): World {
    if events == [] then Initial(store)
    else Next(After(store, events[..|events| - 1]), events[|events| - 1])
  }

  // ── One after another ──────────────────────────────────────────────────────

  /** The firewall after these calls, each of them alone with it, in this order. */
  function SerialStore(start: Store, done: seq<Run>): Store {
    if done == [] then start
    else
      var last := done[|done| - 1];
      Alone(SerialStore(start, done[..|done| - 1]), last.op, last.faults).store
  }

  /** A call that has the firewall to itself. */
  function Alone(store: Store, op: Op, faults: seq<Fault>): Moment {
    Exec(Moment(store, Start(op)), faults)
  }

  function Tasks(done: seq<Run>): seq<nat> {
    seq(|done|, i requires 0 <= i < |done| => done[i].task)
  }

  ghost predicate Idle(w: World) {
    forall t :: t in w.tasks ==> w.tasks[t].Queued?
  }

  /** The slot is free exactly when no call runs, and never do two calls run. */
  ghost predicate SlotKept(w: World) {
    && w.free == (if Idle(w) then 1 else 0)
    && forall t, u :: t in w.tasks && u in w.tasks && w.tasks[t].Running? && w.tasks[u].Running? ==> t == u
  }

  /** This call returned what it returns when it runs alone after the calls before it. */
  ghost predicate ReturnedAsAlone(start: Store, done: seq<Run>, i: nat)
    requires i < |done|
  {
    done[i].outcome.Returned? ==>
      Alone(SerialStore(start, done[..i]), done[i].op, done[i].faults).prog == Finished(done[i].outcome.result)
  }

  ghost predicate AllReturnedAsAlone(start: Store, done: seq<Run>) {
    forall i :: 0 <= i < |done| ==> ReturnedAsAlone(start, done, i)
  }

  /** The running call is where it is when it runs alone after the calls that are done. */
  ghost predicate RunsAsAlone(start: Store, w: World, t: nat)
    requires t in w.tasks && w.tasks[t].Running?
  {
    && Moment(w.store, w.tasks[t].prog) == Alone(SerialStore(start, w.done), w.tasks[t].op, w.tasks[t].faults)
    && !w.tasks[t].prog.Finished?
    && w.acquired == Tasks(w.done) + [t]
  }

  ghost predicate Serial(start: Store, w: World) {
    && SlotKept(w)
    && AllReturnedAsAlone(start, w.done)
    && (Idle(w) ==> w.store == SerialStore(start, w.done) && w.acquired == Tasks(w.done))
    && forall t :: t in w.tasks && w.tasks[t].Running? ==> RunsAsAlone(start, w, t)
  }

  lemma OneMoreRun(start: Store, done: seq<Run>, run: Run)
    ensures SerialStore(start, done + [run]) == Alone(SerialStore(start, done), run.op, run.faults).store
    ensures Tasks(done + [run]) == Tasks(done) + [run.task]
  {
  }

  lemma OneMoreReturned(start: Store, done: seq<Run>, run: Run)
    requires AllReturnedAsAlone(start, done)
    requires run.outcome.Returned? ==>
               Alone(SerialStore(start, done), run.op, run.faults).prog == Finished(run.outcome.result)
    ensures AllReturnedAsAlone(start, done + [run])
  {
    var more := done + [run];
    forall i | 0 <= i < |more| ensures ReturnedAsAlone(start, more, i) {
      if i < |done| {
        assert more[..i] == done[..i] && ReturnedAsAlone(start, done, i);
      } else {
        assert more[..i] == done;
      }
    }
  }

  lemma OneMoreFault(m: Moment, faults: seq<Fault>, fault: Fault)
    ensures Exec(m, faults + [fault]) == Exchange(Exec(m, faults), fault)
  {
  }

  lemma CallStaysSerial(start: Store, w: World, op: Op)
    requires Serial(start, w) && w.calls !in w.tasks
    ensures Serial(start, Next(w, Call(op)))
  {
    var v := Next(w, Call(op));
    assert Idle(v) == Idle(w) by {
      assert forall t :: t in w.tasks ==> v.tasks[t] == w.tasks[t];
    }
    forall t | t in v.tasks && v.tasks[t].Running? ensures RunsAsAlone(start, v, t) {
      assert RunsAsAlone(start, w, t);
    }
  }

  lemma AcquireStaysSerial(start: Store, w: World, t: nat)
    requires Serial(start, w)
    ensures Serial(start, Next(w, Acquire(t)))
  {
    if t in w.tasks && w.tasks[t].Queued? && w.free > 0 {
      var v := Next(w, Acquire(t));
      assert Idle(w);
      assert v.tasks[t].Running?;
      forall u | u in v.tasks && v.tasks[u].Running? ensures RunsAsAlone(start, v, u) {
        assert u == t;
      }
    }
  }

  /** The running call gives the slot back. */
  lemma ReleaseStaysSerial(start: Store, w: World, v: World, t: nat, fault: Fault, outcome: Outcome)
    requires Serial(start, w) && t in w.tasks && w.tasks[t].Running?
    requires var m := Exchange(Moment(w.store, w.tasks[t].prog), fault);
             && (outcome.Returned? ==> m.prog == Finished(outcome.result))
             && v == w.(store := m.store, free := w.free + 1, tasks := w.tasks - {t},
                        done := w.done + [Run(t, w.tasks[t].op, w.tasks[t].faults + [fault], outcome)])
    ensures Serial(start, v)
  {
    var run := Run(t, w.tasks[t].op, w.tasks[t].faults + [fault], outcome);
    assert RunsAsAlone(start, w, t) && !Idle(w);
    OneMoreFault(Moment(SerialStore(start, w.done), Start(run.op)), w.tasks[t].faults, fault);
    OneMoreRun(start, w.done, run);
    OneMoreReturned(start, w.done, run);
    assert Idle(v);
  }

  /** The running call goes on. */
  lemma ProgressStaysSerial(start: Store, w: World, v: World, t: nat, fault: Fault)
    requires Serial(start, w) && t in w.tasks && w.tasks[t].Running?
    requires var m := Exchange(Moment(w.store, w.tasks[t].prog), fault);
             && !m.prog.Finished?
             && v == w.(store := m.store, tasks := w.tasks[t := Running(w.tasks[t].op, m.prog, w.tasks[t].faults + [fault])])
    ensures Serial(start, v)
  {
    hide Exchange, Start, Exec, SerialStore, ReturnedAsAlone;
    OneMoreFault(Moment(SerialStore(start, w.done), Start(w.tasks[t].op)), w.tasks[t].faults, fault);
    assert RunsAsAlone(start, w, t) && !Idle(w);
    assert v.tasks[t].Running?;
    forall u | u in v.tasks && v.tasks[u].Running? ensures RunsAsAlone(start, v, u) {
      assert u == t;
    }
  }

  lemma RequestStaysSerial(start: Store, w: World, t: nat, fault: Fault)
    requires Serial(start, w)
    ensures Serial(start, Next(w, Request(t, fault)))
  {
    if t in w.tasks && w.tasks[t].Running? {
      hide Exchange, Serial;
      var v := Next(w, Request(t, fault));
      var m := Exchange(Moment(w.store, w.tasks[t].prog), fault);
      if m.prog.Finished? {
        ReleaseStaysSerial(start, w, v, t, fault, Returned(m.prog.result));
      } else {
        ProgressStaysSerial(start, w, v, t, fault);
      }
    }
  }

  lemma CancelStaysSerial(start: Store, w: World, t: nat, applied: bool)
    requires Serial(start, w)
    ensures Serial(start, Next(w, Cancel(t, applied)))
  {
    var v := Next(w, Cancel(t, applied));
    if t in w.tasks && w.tasks[t].Running? {
      ReleaseStaysSerial(start, w, v, t, CancelFault(applied), Cancelled);
    } else {
      assert Idle(v) == Idle(w) by {
        assert forall u :: u in w.tasks && w.tasks[u].Running? ==> u in v.tasks;
      }
      forall u | u in v.tasks && v.tasks[u].Running? ensures RunsAsAlone(start, v, u) {
        assert RunsAsAlone(start, w, u);
      }
    }
  }

  ghost predicate NumbersKept(w: World) {
    forall t :: t in w.tasks ==> t < w.calls
  }

  lemma {:induction false} NumbersStayKept(start: Store, events: seq<Event>)
    ensures NumbersKept(After(start, events))
  {
    hide Exchange;
    if events != [] {
      NumbersStayKept(start, events[..|events| - 1]);
    }
  }

  /** However calls arrive, wait, run and are cancelled: the firewall, what every call returned,
      and how far the running call has got, are those of running the calls one after another, in
      the order in which they got the slot. The slot is never lost and never held twice. */
  lemma {:induction false} Serialisable(start: Store, events: seq<Event>)
    ensures Serial(start, After(start, events))
  {
    hide Next;
    if events != [] {
      var before := events[..|events| - 1];
      Serialisable(start, before);
      var w := After(start, before);
      NumbersStayKept(start, before);
      match events[|events| - 1] {
        case Call(op) => CallStaysSerial(start, w, op);
        case Acquire(t) => AcquireStaysSerial(start, w, t);
        case Request(t, fault) => RequestStaysSerial(start, w, t, fault);
        case Cancel(t, applied) => CancelStaysSerial(start, w, t, applied);
      }
    }
  }
}
