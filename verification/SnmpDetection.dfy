/** What the SNMP coordinator concludes over a whole session: an agent that never answered, and
    an appliance without hardware sensors. */
module SnmpDetection {
  import opened Wrappers

  const ISSUE_AFTER_ATTEMPTS := 3
  const ISSUE_AFTER_SECONDS := 600.0

  // ── The agent that never answered ──────────────────────────────────────────

  /** How a refresh ended: it raised at that time, or it returned and some endpoint was or was
      not available then. */
  datatype Refresh = RaisedAt(now: real) | ReturnedWith(anyAvailable: bool)

  datatype Watch = Watch(reached: bool, failedAttempts: nat, firstFailure: Option<real>, issue: bool)

  const NEW_WATCH := Watch(false, 0, None, false)

  function AfterRefresh(w: Watch, refresh: Refresh): Watch {
    match refresh
    case RaisedAt(now) =>
      if w.reached then w
      else
        var first := if w.firstFailure.None? then now else w.firstFailure.value;
        var attempts := w.failedAttempts + 1;
        Watch(false, attempts, Some(first),
              w.issue || (attempts >= ISSUE_AFTER_ATTEMPTS && now - first >= ISSUE_AFTER_SECONDS))
    case ReturnedWith(anyAvailable) =>
      if !w.reached && anyAvailable then w.(reached := true, issue := false) else w
  }

  class UnreachableWatch {
    var reached: bool
    var failedAttempts: nat
    var firstFailure: Option<real>
    var issue: bool

    constructor ()
      ensures Contents() == NEW_WATCH
    {
      reached, failedAttempts, firstFailure, issue := false, 0, None, false;
    }

    function Contents(): Watch
      reads this
    {
      Watch(reached, failedAttempts, firstFailure, issue)
    }

    method Refreshed(refresh: Refresh)
      modifies this
      ensures Contents() == AfterRefresh(old(Contents()), refresh)
    {
      match refresh
      case RaisedAt(now) =>
        if !reached {
          if firstFailure.None? {
            firstFailure := Some(now);
          }
          failedAttempts := failedAttempts + 1;
          if failedAttempts >= ISSUE_AFTER_ATTEMPTS && now - firstFailure.value >= ISSUE_AFTER_SECONDS {
            issue := true;
          }
        }
      case ReturnedWith(anyAvailable) =>
        if !reached && anyAvailable {
          reached := true;
          issue := false;
        }
    }
  }

  function WatchAfter(session: seq<Refresh>): Watch {
    if session == [] then NEW_WATCH
    else AfterRefresh(WatchAfter(session[..|session| - 1]), session[|session| - 1])
  }

  /** Some refresh of the session found the agent answering. */
  ghost predicate AgentAnswered(session: seq<Refresh>) {
    ReturnedWith(true) in session
  }

  /** The times of the failed refreshes, in order. */
  function Failures(session: seq<Refresh>): seq<real> {
    if session == [] then []
    else
      var rest := Failures(session[..|session| - 1]);
      var last := session[|session| - 1];
      if last.RaisedAt? then rest + [last.now] else rest
  }

  ghost predicate Ordered(times: seq<real>) {
    forall i, j :: 0 <= i < j < |times| ==> times[i] <= times[j]
  }

  /** The issue is open exactly while no refresh of the session found an answer, at least three
      failed, and the last failure came ten minutes or more after the first. */
  lemma {:induction false} IssueMeansNeverAnswered(session: seq<Refresh>)
    requires Ordered(Failures(session))
    ensures var w, failures := WatchAfter(session), Failures(session);
            && w.reached == AgentAnswered(session)
            && (!w.reached ==> w.failedAttempts == |failures|
                               && w.firstFailure == if failures == [] then None else Some(failures[0]))
            && (w.issue <==>
                  && !AgentAnswered(session) && |failures| >= 3
                  && failures[|failures| - 1] - failures[0] >= 600.0)
  {
    if session != [] {
      var rest, last := session[..|session| - 1], session[|session| - 1];
      assert session == rest + [last];
      var before := Failures(rest);
      assert last.RaisedAt? ==> Failures(session) == before + [last.now];
      assert Ordered(before) by {
        forall i, j | 0 <= i < j < |before| ensures before[i] <= before[j] {
          assert Failures(session)[i] <= Failures(session)[j];
        }
      }
      IssueMeansNeverAnswered(rest);
      if last.RaisedAt? && before != [] {
        assert Failures(session)[|before| - 1] <= Failures(session)[|before|];
      }
    }
  }

  // ── The appliance without sensors ──────────────────────────────────────────

  /** `is_virtual`: not known yet, False or True. */
  datatype Verdict = Undecided | Hardware | Virtual

  datatype Health = Health(verdict: Verdict, emptyReads: nat)

  const NEW_HEALTH := Health(Undecided, 0)

  /** A successful health read that did or did not report a hardware sensor. */
  function AfterHealthRead(h: Health, hasSensors: bool): Health {
    if h.verdict != Undecided then h
    else if hasSensors then h.(verdict := Hardware)
    else if h.emptyReads + 1 >= EMPTY_CONFIRMATIONS then Health(Virtual, h.emptyReads + 1)
    else h.(emptyReads := h.emptyReads + 1)
  }

  function HealthAfter(answers: seq<bool>): Health {
    if answers == [] then NEW_HEALTH
    else AfterHealthRead(HealthAfter(answers[..|answers| - 1]), answers[|answers| - 1])
  }

  /** The appliance is taken for virtual exactly when the first three successful reads are all
      empty; one read with sensors among them settles the opposite. No later read changes either
      verdict. */
  lemma {:induction false} VirtualMeansThreeEmptyReads(answers: seq<bool>)
    ensures var h := HealthAfter(answers);
            && (h.verdict == Virtual <==> |answers| >= 3 && !answers[0] && !answers[1] && !answers[2])
            && (h.verdict == Hardware <==> exists i :: 0 <= i < |answers| && i < 3 && answers[i])
            && (h.verdict == Undecided ==> h.emptyReads == |answers| < 3 && forall i :: 0 <= i < |answers| ==> !answers[i])
  {
    if answers != [] {
      var rest, last := answers[..|answers| - 1], answers[|answers| - 1];
      VirtualMeansThreeEmptyReads(rest);
      assert forall i :: 0 <= i < |rest| ==> rest[i] == answers[i];
      var verdict := HealthAfter(rest).verdict;
      if verdict == Hardware {
        var i :| 0 <= i < |rest| && i < 3 && rest[i];
        assert answers[i];
      } else if verdict == Undecided {
        assert forall i :: 0 <= i < |rest| ==> !rest[i];
        assert last == answers[|rest|];
      } else {
        assert answers[0] == rest[0] && answers[1] == rest[1] && answers[2] == rest[2];
      }
    }
  }
}
