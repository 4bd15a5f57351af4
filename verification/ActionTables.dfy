/** The rows of one action as the database holds them, and the transactions of the service on them. */
module ActionTables {
  import opened Wrappers
  import opened ActionKinds
  import opened ActionLedger

  datatype RestoredSummary = RestoredSummary(actions: nat, conflicted: nat, unknown: nat)

  /** How many items have one of the wanted statuses. */
  method CountItems(items: seq<Item>, wanted: set<ItemStatus>) returns (count: nat)
    ensures count == CountStatus(items, wanted)
  {
    count := 0;
    for k := 0 to |items|
      invariant count == CountStatus(items[..k], wanted)
    {
      assert items[..k + 1][..k] == items[..k];
      if items[k].status in wanted { count := count + 1; }
    }
    assert items[..|items|] == items;
  }

  const STATUSES := [Queued, Executing, Confirmed, Conflicted, Failed, Unknown]

  lemma EveryStatus(s: ItemStatus)
    ensures s in STATUSES
  {
    var k := match s
      case Queued => 0 case Executing => 1 case Confirmed => 2 case Conflicted => 3 case Failed => 4 case Unknown => 5;
    assert STATUSES[k] == s;
  }

  /** The counts of a completion, status by status. */
  method GroupByStatus(items: seq<Item>) returns (counts: map<ItemStatus, nat>)
    ensures counts == StatusCounts(items)
  {
    counts := map[];
    for k := 0 to |STATUSES|
      invariant forall s :: s in counts <==> s in STATUSES[..k] && CountStatus(items, {s}) > 0
      invariant forall s :: s in counts ==> counts[s] == CountStatus(items, {s})
    {
      var n := CountItems(items, {STATUSES[k]});
      assert STATUSES[..k + 1] == STATUSES[..k] + [STATUSES[k]];
      if n > 0 { counts := counts[STATUSES[k] := n]; }
    }
    assert STATUSES[..|STATUSES|] == STATUSES;
    forall s: ItemStatus ensures s in STATUSES { EveryStatus(s); }
  }

  class ActionTables {
    const kind: ActionKind
    const generation: nat
    var status: ActionStatus
    var items: seq<Item>
    var audit: seq<AuditEvent>
    var occurrences: map<nat, Occurrence>

    constructor (l: Ledger)
      ensures State() == l
    {
      kind, generation, status, items, audit, occurrences := l.kind, l.generation, l.status, l.items, l.audit,
          l.occurrences;
    }

    function State(): Ledger
      reads this
    {
      Ledger(kind, generation, status, items, audit, occurrences)
    }

    /** Move one item from queued to executing before its remote call. */
    method MarkExecuting(i: nat) returns (claimed: bool)
      modifies this`items
      ensures State() == Claim(old(State()), i)
      ensures claimed <==> i < |old(items)| && old(items)[i].status == Queued
    {
      claimed := i < |items| && items[i].status == Queued;
      if claimed {
        items := items[i := items[i].(status := Executing)];
      }
    }

    /** Complete an action whose items all hold dispositions, or mark it executing. */
    method FinalizeActionStatus()
      modifies this`status, this`audit
      ensures State() == Finalize(old(State()))
    {
      var pending := CountItems(items, {Queued, Executing});
      if pending > 0 {
        if status == ActionQueued { status := ActionExecuting; }
        return;
      }
      if !PendingAction(status) { return; }
      status := ActionComplete;
      var counts := GroupByStatus(items);
      audit := audit + [CompletedEvent(counts)];
    }

    /** Record on the occurrence row what one disposition observed. */
    method ObserveOccurrence(id: nat, write: Write)
      modifies this`occurrences
      ensures State() == old(State()).(occurrences := ObserveIn(old(occurrences), id, write))
    {
      if (write.observed.None? && !write.expunge) || id !in occurrences { return; }
      var row := occurrences[id];
      var flagsChanged := write.observed.Some?
          && (row.unread != write.observed.value.unread || row.flagged != write.observed.value.flagged);
      var modseqFresh := write.observed.Some? && write.observed.value.modseq.Some?;
      if (flagsChanged || modseqFresh || write.expunge) && !row.expunged {
        if write.observed.Some? {
          row := row.(unread := write.observed.value.unread, flagged := write.observed.value.flagged);
        }
        if modseqFresh { row := row.(modseq := write.observed.value.modseq); }
        if flagsChanged { row := row.(revision := row.revision + 1); }
        if write.expunge { row := row.(expunged := true); }
        occurrences := occurrences[id := row];
      }
    }

    /** The disposition of one item with its observation and event, in one transaction. */
    method CommitDisposition(i: nat, write: Write)
      requires i < |items|
      modifies this
      ensures State() == Commit(old(State()), i, write)
      ensures Agrees(old(State())) && ProperWrite(write) ==> Agrees(State())
    {
      if Agrees(State()) && ProperWrite(write) { CommitAgrees(State(), i, write); }
      var item := items[i];
      var eligible := PendingItem(item.status) || (write.supersedesHold && IsHold(item));
      if !eligible { return; }
      items := items[i := item.(status := write.status, receipt := write.receipt)];
      ObserveOccurrence(item.target.occurrence, write);
      if write.applied { audit := audit + [AppliedEvent(i)]; }
      FinalizeActionStatus();
    }

    /** The restore disposition: queued items conflict, executing ones stay unknown, nothing replays. */
    method DispositionRestored(current: nat) returns (summary: RestoredSummary)
      modifies this
      ensures State() == if generation != current && PendingAction(old(status)) then Restore(old(State()))
              else old(State())
      ensures summary == if generation != current && PendingAction(old(status))
                         then RestoredSummary(1, CountStatus(old(items), {Queued}),
                                              CountStatus(old(items), {Executing}))
                         else RestoredSummary(0, 0, 0)
      ensures Agrees(old(State())) ==> Agrees(State())
    {
      if generation == current || !PendingAction(status) { return RestoredSummary(0, 0, 0); }
      if Agrees(State()) { RestoreAgrees(State()); }
      var queued := CountItems(items, {Queued});
      var executing := CountItems(items, {Executing});
      var was := items;
      for k := 0 to |items|
        invariant |items| == |was|
        invariant forall j :: 0 <= j < k ==> items[j] == HoldRestored(was[j])
        invariant forall j :: k <= j < |was| ==> items[j] == was[j]
        invariant status == old(status) && audit == old(audit) && occurrences == old(occurrences)
      {
        if items[k].status == Queued {
          items := items[k := items[k].(status := Conflicted, receipt := Refused(RESTORED, None))];
        } else if items[k].status == Executing {
          items := items[k := items[k].(status := Unknown, receipt := Lost(RESTORED, None))];
        }
      }
      assert items == HoldAll(was);
      status := ActionComplete;
      audit := audit + [RestoredHeldEvent(queued, executing)];
      return RestoredSummary(1, queued, executing);
    }
  }
}
