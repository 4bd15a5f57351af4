/**
 The durable rows of one action: its items with their receipts, the occurrence rows they
 observe, and the audit trail. Every function here is one guarded update or transaction.
 */
module ActionLedger {
  import opened Wrappers
  import opened ActionKinds

  datatype ItemStatus = Queued | Executing | Confirmed | Conflicted | Failed | Unknown

  /** The flags one answer of the mailbox showed. */
  datatype Observed = Observed(unread: bool, flagged: bool, modseq: Option<nat>)

  datatype Landing = Landing(folder: string, uidValidity: Option<nat>, uid: Option<nat>)

  datatype Receipt =
    | NoReceipt
    | Noop(observed: Observed)
    | Applied(observed: Observed, movedTo: Option<Landing>)
    | Refused(reason: string, last: Option<Observed>)
    | Lost(reason: string, last: Option<Observed>)
    | Broken(code: string)

  /** What an item froze at queue time. */
  datatype Target = Target(occurrence: nat, folder: nat, uidValidity: nat, uid: nat, revision: nat, modseq: Option<nat>)

  datatype Item = Item(target: Target, status: ItemStatus, receipt: Receipt)

  datatype ActionStatus = ActionQueued | ActionExecuting | ActionComplete

  datatype AuditEvent =
    | QueuedEvent(targets: nat)
    | AppliedEvent(item: nat)
    | CompletedEvent(counts: map<ItemStatus, nat>)
    | RestoredHeldEvent(conflicted: nat, unknown: nat)

  datatype Occurrence = Occurrence(uidValidity: nat, unread: bool, flagged: bool, modseq: Option<nat>,
                                   revision: nat, expunged: bool, invalidated: bool)

  datatype Ledger = Ledger(kind: ActionKind, generation: nat, status: ActionStatus, items: seq<Item>,
                           audit: seq<AuditEvent>, occurrences: map<nat, Occurrence>)

  /** One disposition: the receipt, what it observed, and what it may replace. */
  datatype Write = Write(status: ItemStatus, receipt: Receipt, observed: Option<Observed>,
                         applied: bool, expunge: bool, supersedesHold: bool)

  const INTERRUPTED := "interrupted"
  const RESTORED := "restored_generation"

  predicate PendingItem(status: ItemStatus) {
    status in {Queued, Executing}
  }

  predicate PendingAction(status: ActionStatus) {
    status in {ActionQueued, ActionExecuting}
  }

  /** The guess a later run records about a claim it found in flight. */
  predicate IsHold(item: Item) {
    item.status == Unknown && item.receipt.Lost? && item.receipt.reason == INTERRUPTED
  }

  /** Queued above executing above the interrupted hold above every final receipt. */
  function Rank(item: Item): nat {
    match item.status
    case Queued => 3
    case Executing => 2
    case Unknown => if IsHold(item) then 1 else 0
    case _ => 0
  }

  function CountStatus(items: seq<Item>, wanted: set<ItemStatus>): nat {
    if items == [] then 0
    else CountStatus(items[..|items| - 1], wanted) + if items[|items| - 1].status in wanted then 1 else 0
  }

  function PendingCount(items: seq<Item>): nat {
    CountStatus(items, {Queued, Executing})
  }

  predicate AnyPending(items: seq<Item>) {
    exists i :: 0 <= i < |items| && PendingItem(items[i].status)
  }

  /** The per-status counts a completion records; statuses no item holds are absent. */
  function StatusCounts(items: seq<Item>): map<ItemStatus, nat> {
    map s | s in {Queued, Executing, Confirmed, Conflicted, Failed, Unknown} && CountStatus(items, {s}) > 0
          :: CountStatus(items, {s})
  }

  /** Complete an action whose items all hold dispositions, or mark it executing. */
  function Finalize(l: Ledger): Ledger {
    if PendingCount(l.items) > 0 then (if l.status == ActionQueued then l.(status := ActionExecuting) else l)
    else if PendingAction(l.status)
        then l.(status := ActionComplete, audit := l.audit + [CompletedEvent(StatusCounts(l.items))])
    else l
  }

  predicate Eligible(item: Item, write: Write) {
    PendingItem(item.status) || (write.supersedesHold && IsHold(item))
  }

  /** What one disposition does to the occurrence row of its target. */
  function Observe(row: Occurrence, write: Write): Occurrence {
    var flagsChanged := write.observed.Some?
        && (row.unread != write.observed.value.unread || row.flagged != write.observed.value.flagged);
    var modseqFresh := write.observed.Some? && write.observed.value.modseq.Some?;
    if (flagsChanged || modseqFresh || write.expunge) && !row.expunged then
      row.(unread := if write.observed.Some? then write.observed.value.unread else row.unread,
           flagged := if write.observed.Some? then write.observed.value.flagged else row.flagged,
           modseq := if modseqFresh then write.observed.value.modseq else row.modseq,
           revision := if flagsChanged then row.revision + 1 else row.revision,
           expunged := write.expunge)
    else row
  }

  /** A row after a receipt that showed `shown`, field by field; `gone` when the message left the folder. */
  ghost predicate Noted(before: Occurrence, after: Occurrence, shown: Observed, gone: bool) {
    && after.unread == shown.unread && after.flagged == shown.flagged
    && after.modseq == (if shown.modseq.Some? then shown.modseq else before.modseq)
    && after.revision ==
       before.revision + (if (before.unread, before.flagged) == (shown.unread, shown.flagged) then 0 else 1)
    && after.expunged == (before.expunged || gone)
    && after.uidValidity == before.uidValidity && after.invalidated == before.invalidated
  }

  function ObserveIn(rows: map<nat, Occurrence>, occurrence: nat, write: Write): map<nat, Occurrence> {
    if (write.observed.Some? || write.expunge) && occurrence in rows
    then rows[occurrence := Observe(rows[occurrence], write)] else rows
  }

  /** The disposition transaction of one item. */
  function Commit(l: Ledger, i: nat, write: Write): Ledger {
    if i < |l.items| && Eligible(l.items[i], write) then
      Finalize(l.(items := l.items[i := l.items[i].(status := write.status, receipt := write.receipt)],
                  occurrences := ObserveIn(l.occurrences, l.items[i].target.occurrence, write),
                  audit := if write.applied then l.audit + [AppliedEvent(i)] else l.audit))
    else l
  }

  /** The claim: queued becomes executing, anything else stays. */
  function Claim(l: Ledger, i: nat): Ledger {
    if i < |l.items| && l.items[i].status == Queued then l.(items := l.items[i := l.items[i].(status := Executing)])
        else l
  }

  function HoldRestored(item: Item): Item {
    match item.status
    case Queued => item.(status := Conflicted, receipt := Refused(RESTORED, None))
    case Executing => item.(status := Unknown, receipt := Lost(RESTORED, None))
    case _ => item
  }

  function HoldAll(items: seq<Item>): (r: seq<Item>)
    ensures |r| == |items|
    ensures forall i :: 0 <= i < |items| ==> r[i] == HoldRestored(items[i])
  {
    seq(|items|, i requires 0 <= i < |items| => HoldRestored(items[i]))
  }

  /** The restore disposition of one action left behind by another generation. */
  function Restore(l: Ledger): Ledger {
    var held := l.(items := HoldAll(l.items));
    if PendingAction(l.status)
    then held.(status := ActionComplete,
               audit := l.audit +
                   [RestoredHeldEvent(CountStatus(l.items, {Queued}), CountStatus(l.items, {Executing}))])
    else held
  }

  // ---- the audit invariant ----

  function CountApplied(audit: seq<AuditEvent>, i: nat): nat {
    if audit == [] then 0
    else CountApplied(audit[..|audit| - 1], i) + if audit[|audit| - 1] == AppliedEvent(i) then 1 else 0
  }

  function CountEndings(audit: seq<AuditEvent>): nat {
    if audit == [] then 0
    else CountEndings(audit[..|audit| - 1]) +
         if audit[|audit| - 1].CompletedEvent? || audit[|audit| - 1].RestoredHeldEvent? then 1 else 0
  }

  /** Receipts, status and audit tell one story. */
  ghost predicate Agrees(l: Ledger) {
    && l.items != []
    && (l.status == ActionComplete <==> !AnyPending(l.items))
    && CountEndings(l.audit) == (if l.status == ActionComplete then 1 else 0)
    && forall i :: 0 <= i < |l.items| ==> CountApplied(l.audit, i) == if l.items[i].status == Confirmed then 1 else 0
  }

  /** The writes the service makes: final or held, and recorded as applied exactly when confirmed. */
  predicate ProperWrite(write: Write) {
    && !PendingItem(write.status)
    && (write.applied <==> write.status == Confirmed)
    && (write.expunge ==> write.status == Confirmed)
  }

  lemma {:induction false} PendingCounts(items: seq<Item>)
    ensures PendingCount(items) > 0 <==> AnyPending(items)
  {
    if items != [] {
      var n := |items| - 1;
      PendingCounts(items[..n]);
      assert items[..n] + [items[n]] == items;
      if AnyPending(items[..n]) {
        var i :| 0 <= i < n && PendingItem(items[..n][i].status);
        assert PendingItem(items[i].status);
      }
    }
  }

  lemma CountAppliedAppend(audit: seq<AuditEvent>, e: AuditEvent, i: nat)
    ensures CountApplied(audit + [e], i) == CountApplied(audit, i) + if e == AppliedEvent(i) then 1 else 0
  {
    assert (audit + [e])[..|audit|] == audit;
  }

  lemma CountEndingsAppend(audit: seq<AuditEvent>, e: AuditEvent)
    ensures CountEndings(audit + [e]) == CountEndings(audit) + if e.CompletedEvent? || e.RestoredHeldEvent? then 1
            else 0
  {
    assert (audit + [e])[..|audit|] == audit;
  }

  /** The rows a submission commits: every target frozen and queued, and one event. */
  function QueuedLedger(kind: ActionKind, generation: nat, targets: seq<Target>,
                        occurrences: map<nat, Occurrence>): Ledger {
    Ledger(kind, generation, ActionQueued,
           seq(|targets|, i requires 0 <= i < |targets| => Item(targets[i], Queued, NoReceipt)),
           [QueuedEvent(|targets|)], occurrences)
  }

  /** A submitted action starts in agreement: nothing applied, nothing ended, everything pending. */
  lemma QueuedAgrees(kind: ActionKind, generation: nat, targets: seq<Target>, occurrences: map<nat, Occurrence>)
    requires targets != []
    ensures Agrees(QueuedLedger(kind, generation, targets, occurrences))
  {
    var l := QueuedLedger(kind, generation, targets, occurrences);
    assert l.audit[..0] == [] && PendingItem(l.items[0].status);
    CountEndingsAppend([], l.audit[0]);
    assert [] + [l.audit[0]] == l.audit;
    forall i | 0 <= i < |l.items| ensures CountApplied(l.audit, i) == 0 {
      CountAppliedAppend([], l.audit[0], i);
    }
  }

  /** Before finalization only the completion half of the agreement is still owed. */
  ghost predicate AgreesBeforeFinalize(l: Ledger) {
    && l.items != []
    && (l.status == ActionComplete ==> !AnyPending(l.items))
    && CountEndings(l.audit) == (if l.status == ActionComplete then 1 else 0)
    && forall i :: 0 <= i < |l.items| ==> CountApplied(l.audit, i) == if l.items[i].status == Confirmed then 1 else 0
  }

  lemma FinalizeAgrees(l: Ledger)
    requires AgreesBeforeFinalize(l)
    ensures Agrees(Finalize(l))
  {
    PendingCounts(l.items);
    var e := CompletedEvent(StatusCounts(l.items));
    CountEndingsAppend(l.audit, e);
    forall i | 0 <= i < |l.items| ensures CountApplied(l.audit + [e], i) == CountApplied(l.audit, i) {
      CountAppliedAppend(l.audit, e, i);
    }
  }

  /** A proper disposition, eligible or not, keeps receipts, status and audit in agreement. */
  lemma CommitAgrees(l: Ledger, i: nat, write: Write)
    requires Agrees(l) && ProperWrite(write)
    ensures Agrees(Commit(l, i, write))
  {
    hide Observe, ObserveIn, Finalize, CountApplied, CountEndings;
    if i < |l.items| && Eligible(l.items[i], write) {
      var items := l.items[i := l.items[i].(status := write.status, receipt := write.receipt)];
      var audit := if write.applied then l.audit + [AppliedEvent(i)] else l.audit;
      var m := l.(items := items, occurrences := ObserveIn(l.occurrences, l.items[i].target.occurrence, write),
                  audit := audit);
      CountEndingsAppend(l.audit, AppliedEvent(i));
      forall j | 0 <= j < |items| ensures CountApplied(audit, j) == if items[j].status == Confirmed then 1 else 0 {
        CountAppliedAppend(l.audit, AppliedEvent(i), j);
      }
      assert AgreesBeforeFinalize(m) by {
        if AnyPending(items) {
          var k :| 0 <= k < |items| && PendingItem(items[k].status);
          assert PendingItem(l.items[k].status);
        }
      }
      FinalizeAgrees(m);
    }
  }

  lemma ClaimAgrees(l: Ledger, i: nat)
    requires Agrees(l)
    ensures Agrees(Claim(l, i))
  {
    if i < |l.items| && l.items[i].status == Queued {
      var m := Claim(l, i);
      assert PendingItem(l.items[i].status) && PendingItem(m.items[i].status);
    }
  }

  lemma RestoreAgrees(l: Ledger)
    requires Agrees(l)
    ensures Agrees(Restore(l))
  {
    var m := Restore(l);
    var e := RestoredHeldEvent(CountStatus(l.items, {Queued}), CountStatus(l.items, {Executing}));
    CountEndingsAppend(l.audit, e);
    forall i | 0 <= i < |l.items| ensures CountApplied(l.audit + [e], i) == CountApplied(l.audit, i) {
      CountAppliedAppend(l.audit, e, i);
    }
    assert forall k :: 0 <= k < |m.items| ==> !PendingItem(m.items[k].status);
  }

  /**
   What an accepted disposition leaves of its item and of the row it observed: the receipt as
   written, and the row as shown; a row that is expunged already, or that nothing was observed
   of, stays as it was.
   */
  lemma CommitNotes(l: Ledger, i: nat, write: Write)
    requires i < |l.items| && Eligible(l.items[i], write)
    ensures var m := Commit(l, i, write); var id := l.items[i].target.occurrence;
            && |m.items| == |l.items|
            && m.items[i] == l.items[i].(status := write.status, receipt := write.receipt)
            && (forall j :: 0 <= j < |l.items| && j != i ==> m.items[j] == l.items[j])
            && m.occurrences.Keys == l.occurrences.Keys
            && (forall k :: k in l.occurrences && k != id ==> m.occurrences[k] == l.occurrences[k])
            && (id in l.occurrences && !l.occurrences[id].expunged && write.observed.Some? ==>
                  Noted(l.occurrences[id], m.occurrences[id], write.observed.value, write.expunge))
            && (id in l.occurrences && (l.occurrences[id].expunged || (write.observed.None? && !write.expunge)) ==>
                  m.occurrences[id] == l.occurrences[id])
  {
    var noted := l.(items := l.items[i := l.items[i].(status := write.status, receipt := write.receipt)],
                    occurrences := ObserveIn(l.occurrences, l.items[i].target.occurrence, write),
                    audit := if write.applied then l.audit + [AppliedEvent(i)] else l.audit);
    FinalizeKeepsRows(noted);
    hide Finalize;
  }

  lemma FinalizeKeepsRows(l: Ledger)
    ensures Finalize(l).items == l.items && Finalize(l).occurrences == l.occurrences && Finalize(l).kind == l.kind
  {
  }

  // ---- rank ----

  /**
   What is final: confirmed, conflicted and failed receipts, and every unknown one but the hold of
   an interrupted claim, a lost answer and a restored generation included.
   */
  lemma FinalReceipts(item: Item)
    ensures Rank(item) == 0 <==>
              || item.status in {Confirmed, Conflicted, Failed}
              || (item.status == Unknown && !(item.receipt.Lost? && item.receipt.reason == "interrupted"))
    ensures Rank(item) == 1 <==> item.status == Unknown && item.receipt.Lost? && item.receipt.reason == "interrupted"
  {
    match item.status {
      case Unknown => assert Rank(item) == if IsHold(item) then 1 else 0;
      case _ =>
    }
  }

  /**
   The rank falls strictly at a disposition unless a superseding receipt itself reads as an
   interrupted hold and lands on one.
   */
  lemma CommitRankExact(l: Ledger, i: nat, write: Write)
    requires !PendingItem(write.status) && i < |l.items| && Eligible(l.items[i], write)
    ensures Rank(Commit(l, i, write).items[i]) < Rank(l.items[i]) <==>
            !(IsHold(l.items[i]) && write.status == Unknown && write.receipt.Lost?
                && write.receipt.reason == INTERRUPTED)
  {
  }
}
