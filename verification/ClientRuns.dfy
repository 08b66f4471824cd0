/** What polls and calls that overlap in time can rely on. */
module ClientRuns {
  import opened Wrappers
  import opened XmlRecords
  import opened Groups
  import opened Client
  import opened ClientEffects
  import opened Slot
  import opened IpHosts
  import opened ClientResults

  /** A poll never sees the firewall between two requests of a call: its records are those of
      the firewall after some number of whole calls, the ones that had the slot before it. */
  lemma PollsSeeWholeCalls(start: Store, events: seq<Event>, i: nat, records: seq<Elem>)
    requires var done := After(start, events).done;
             i < |done| && done[i].op.Poll? && done[i].outcome == Returned(Ok(Polled(records)))
    ensures var done := After(start, events).done;
            && done[i].faults != []
            && records == if Answered(done[i].faults[0])
                          then Hits(RecordsOf(SerialStore(start, done[..i]), done[i].op.tag), IsProper)
                          else []
  {
    Serialisable(start, events);
    var done := After(start, events).done;
    assert ReturnedAsAlone(start, done, i);
    PollResult(SerialStore(start, done[..i]), done[i].op.tag, done[i].faults, records);
  }

  /** A call that wrote this field, successfully, and got an honest answer to its write. */
  ghost predicate Confirmed(run: Run, tag: Tag, name: string) {
    && Written(run.op, tag, name).Some?
    && run.outcome.Returned? && run.outcome.result.Ok?
    && (|run.faults| >= 2 ==> Honest(run.faults[1]))
  }

  /** The field keeps its value through calls that do not write it. */
  lemma {:induction false} FieldSurvives(start: Store, done: seq<Run>, i: nat, tag: Tag, name: string)
    requires name != "" && i <= |done| && (tag == FirewallRule || tag == WebFilterPolicy)
    requires forall k :: i <= k < |done| ==> Written(done[k].op, tag, name).None?
    ensures FieldOf(SerialStore(start, done), tag, name, WrittenField(tag)) ==
            FieldOf(SerialStore(start, done[..i]), tag, name, WrittenField(tag))
  {
    if i == |done| {
      assert done[..i] == done;
    } else {
      var n := |done| - 1;
      FieldSurvives(start, done[..n], i, tag, name);
      assert done[..n][..i] == done[..i];
      ExecKeepsField(done[n].op, SerialStore(start, done[..n]), done[n].faults, tag, name);
    }
  }

  /** After the call that wrote it, and after later calls that do not write it. */
  lemma UpdateSurvives(start: Store, done: seq<Run>, i: nat, tag: Tag, name: string)
    requires name != "" && i < |done| && Confirmed(done[i], tag, name) && ReturnedAsAlone(start, done, i)
    requires forall k :: i < k < |done| ==> Written(done[k].op, tag, name).None?
    ensures FieldOf(SerialStore(start, done), tag, name, WrittenField(tag)) == Written(done[i].op, tag, name)
  {
    hide FieldOf, Exec, Honest, SerialStore;
    UpdateIsThere(SerialStore(start, done[..i]), done[i].op, done[i].faults, tag, name);
    assert done[..i + 1] == done[..i] + [done[i]];
    OneMoreRun(start, done[..i], done[i]);
    FieldSurvives(start, done, i + 1, tag, name);
  }

  /** In the middle of another call, too. */
  lemma FieldInTheMiddle(start: Store, w: World, tag: Tag, name: string)
    requires name != "" && (tag == FirewallRule || tag == WebFilterPolicy) && Serial(start, w)
    requires forall t :: t in w.tasks && w.tasks[t].Running? ==> Written(w.tasks[t].op, tag, name).None?
    ensures FieldOf(w.store, tag, name, WrittenField(tag)) ==
            FieldOf(SerialStore(start, w.done), tag, name, WrittenField(tag))
  {
    if !Idle(w) {
      var t :| t in w.tasks && w.tasks[t].Running?;
      assert RunsAsAlone(start, w, t);
      ExecKeepsField(w.tasks[t].op, SerialStore(start, w.done), w.tasks[t].faults, tag, name);
    }
  }

  /** No update is lost: whatever other calls and polls run in between, a status or default
      action that was confirmed is what the firewall has until another call writes the same
      field of the same record. */
  lemma NoUpdateIsLost(start: Store, events: seq<Event>, i: nat, tag: Tag, name: string)
    requires name != "" && i < |After(start, events).done| && Confirmed(After(start, events).done[i], tag, name)
    requires forall k :: i < k < |After(start, events).done| ==> Written(After(start, events).done[k].op, tag, name).None?
    requires forall t :: t in After(start, events).tasks && After(start, events).tasks[t].Running? ==>
               Written(After(start, events).tasks[t].op, tag, name).None?
    ensures FieldOf(After(start, events).store, tag, name, WrittenField(tag)) ==
            Written(After(start, events).done[i].op, tag, name)
  {
    Serialisable(start, events);
    var w := After(start, events);
    assert ReturnedAsAlone(start, w.done, i);
    UpdateSurvives(start, w.done, i, tag, name);
    FieldInTheMiddle(start, w, tag, name);
  }

  // ── A blocked site stays blocked ────────────────────────────────────────────

  /** A call that blocked this domain in this group, and saw it there if it had to write. */
  ghost predicate BlockedSite(run: Run, group: string, url: string) {
    && run.op == SetUrlInGroup(group, url, true)
    && run.outcome.Returned? && run.outcome.result.Ok?
    && (|run.faults| >= 3 ==> Answered(run.faults[2]))
  }

  lemma SiteSurvivesCall(start: Store, done: seq<Run>, k: nat, group: string, domain: string)
    requires group != "" && k < |done| && SiteBlocked(SerialStore(start, done[..k]), group, domain)
    requires !EditsSite(done[k].op, group, domain)
    ensures SiteBlocked(SerialStore(start, done[..k + 1]), group, domain)
  {
    hide SiteBlocked, EditsSite, Exec, SerialStore;
    assert done[..k + 1] == done[..k] + [done[k]];
    OneMoreRun(start, done[..k], done[k]);
    ExecKeepsSite(done[k].op, SerialStore(start, done[..k]), done[k].faults, group, domain);
  }

  lemma {:induction false} SiteSurvives(start: Store, done: seq<Run>, i: nat, j: nat, group: string, domain: string)
    requires group != "" && i <= j <= |done| && SiteBlocked(SerialStore(start, done[..i]), group, domain)
    requires forall k :: i <= k < j ==> !EditsSite(done[k].op, group, domain)
    ensures SiteBlocked(SerialStore(start, done[..j]), group, domain)
  {
    hide SiteBlocked, EditsSite, SerialStore;
    if i < j {
      SiteSurvives(start, done, i, j - 1, group, domain);
      SiteSurvivesCall(start, done, j - 1, group, domain);
    }
  }

  lemma SiteInTheMiddle(start: Store, w: World, group: string, domain: string)
    requires group != "" && Serial(start, w) && SiteBlocked(SerialStore(start, w.done), group, domain)
    requires forall t :: t in w.tasks && w.tasks[t].Running? ==> !EditsSite(w.tasks[t].op, group, domain)
    ensures SiteBlocked(w.store, group, domain)
  {
    hide SiteBlocked, EditsSite, Exec, SerialStore;
    if !Idle(w) {
      var t :| t in w.tasks && w.tasks[t].Running?;
      assert RunsAsAlone(start, w, t);
      ExecKeepsSite(w.tasks[t].op, SerialStore(start, w.done), w.tasks[t].faults, group, domain);
    }
  }

  lemma BlockingBlocks(store: Store, run: Run, group: string, url: string)
    requires group != "" && BlockedSite(run, group, url)
    requires Alone(store, run.op, run.faults).prog == Finished(run.outcome.result)
    ensures SiteBlocked(Alone(store, run.op, run.faults).store, group, Domain(url))
  {
    hide Domain, HasUrl, Exec, AllOrNothing;
    UrlCallResult(store, group, url, true, run.faults);
  }

  /** A site that was blocked is in its group in every later state, in the middle of other calls
      too, until another call edits that domain in that group. */
  lemma BlockedSiteStaysBlocked(start: Store, events: seq<Event>, i: nat, group: string, url: string)
    requires group != "" && i < |After(start, events).done| && BlockedSite(After(start, events).done[i], group, url)
    requires forall k :: i < k < |After(start, events).done| ==> !EditsSite(After(start, events).done[k].op, group, Domain(url))
    requires forall t :: t in After(start, events).tasks && After(start, events).tasks[t].Running? ==>
               !EditsSite(After(start, events).tasks[t].op, group, Domain(url))
    ensures SiteBlocked(After(start, events).store, group, Domain(url))
  {
    hide SiteBlocked, EditsSite, BlockedSite, Exec, Domain;
    Serialisable(start, events);
    var w := After(start, events);
    assert ReturnedAsAlone(start, w.done, i);
    assert w.done[i].outcome.Returned? by {
      ReturnedIfBlocked(w.done[i], group, url);
    }
    BlockingBlocks(SerialStore(start, w.done[..i]), w.done[i], group, url);
    assert w.done[..i + 1] == w.done[..i] + [w.done[i]];
    OneMoreRun(start, w.done[..i], w.done[i]);
    SiteSurvives(start, w.done, i + 1, |w.done|, group, Domain(url));
    assert w.done[..|w.done|] == w.done;
    SiteInTheMiddle(start, w, group, Domain(url));
  }

  lemma ReturnedIfBlocked(run: Run, group: string, url: string)
    requires BlockedSite(run, group, url)
    ensures run.outcome.Returned?
  {
  }
}
