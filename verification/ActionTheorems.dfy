/** What every lawful history of the action protocol keeps. */
module ActionTheorems {
  import opened Wrappers
  import opened ActionKinds
  import opened ActionLedger
  import opened ActionProtocol

  // ---- receipts: the rank only falls, final receipts stay ----

  /** A receipt whose free text reads as the hold marker, over an item that already reads so. */
  predicate RepeatsHold(l: Ledger, step: Step, j: nat)
    requires j < |l.items|
  {
    && step.CommitReceipt? && step.item == j && IsHold(l.items[j])
    && step.write.status == Unknown && step.write.receipt.Lost? && step.write.receipt.reason == INTERRUPTED
  }

  function ItemAt(s: Sys, j: nat): Item
    requires j < |s.world.ledger.items|
  {
    s.world.ledger.items[j]
  }

  lemma LedgerKeepsTargets(l: Ledger, step: Step)
    ensures var m := LedgerNext(l, step);
            && m.kind == l.kind && m.generation == l.generation && |m.items| == |l.items|
            && forall j :: 0 <= j < |l.items| ==> m.items[j].target == l.items[j].target
  {
  }

  lemma StepKeepsItems(s: Sys, step: Step)
    requires Legal(s, step)
    ensures |Next(s, step).world.ledger.items| == |s.world.ledger.items|
    ensures Next(s, step).world.ledger.kind == s.world.ledger.kind
    ensures Next(s, step).world.names == s.world.names
    ensures Next(s, step).world.destination == s.world.destination
    ensures |Next(s, step).moves| == |s.moves|
    ensures forall j :: 0 <= j < |s.world.ledger.items| ==> ItemAt(Next(s, step), j).target == ItemAt(s, j).target
  {
    LedgerKeepsTargets(s.world.ledger, step);
  }

  lemma LedgerRank(l: Ledger, step: Step, j: nat)
    requires j < |l.items|
    requires step.Dispose? ==> PlainWrite(step.write)
    requires step.CommitReceipt? ==> ReceiptWrite(step.write)
    ensures |LedgerNext(l, step).items| == |l.items|
    ensures LedgerNext(l, step).items[j] == l.items[j] || LedgerNext(l, step).items[j].target == l.items[j].target
    ensures LedgerNext(l, step).items[j] != l.items[j] ==>
              (Rank(LedgerNext(l, step).items[j]) < Rank(l.items[j]) <==> !RepeatsHold(l, step, j))
    ensures RepeatsHold(l, step, j) ==> Rank(LedgerNext(l, step).items[j]) == 1
  {
    match step {
      case Dispose(_, i, write) => if i == j && Eligible(l.items[i], write) { CommitRankExact(l, i, write); }
      case CommitReceipt(_, i, write) => if i == j && Eligible(l.items[i], write) { CommitRankExact(l, i, write); }
      case _ =>
    }
  }

  /**
   Every status write of anybody strictly lowers the rank of its item, except exactly a
   receipt that reads as the hold marker and lands on such a hold.
   */
  lemma StepRank(s: Sys, step: Step, j: nat)
    requires Legal(s, step) && j < |s.world.ledger.items|
    ensures |Next(s, step).world.ledger.items| == |s.world.ledger.items|
    ensures ItemAt(Next(s, step), j) != ItemAt(s, j) ==>
              (Rank(ItemAt(Next(s, step), j)) < Rank(ItemAt(s, j)) <==> !RepeatsHold(s.world.ledger, step, j))
    ensures Rank(ItemAt(Next(s, step), j)) <= Rank(ItemAt(s, j))
  {
    LedgerRank(s.world.ledger, step, j);
  }

  lemma LedgerHold(l: Ledger, step: Step, j: nat)
    requires j < |l.items| && IsHold(l.items[j])
    requires step.Dispose? ==> PlainWrite(step.write)
    ensures |LedgerNext(l, step).items| == |l.items|
    ensures LedgerNext(l, step).items[j] != l.items[j] ==> step.CommitReceipt? && step.item == j
  {
  }

  /** Whoever changes an interrupted hold holds the claim of that item. */
  lemma HoldYieldsToItsClaim(s: Sys, step: Step, j: nat)
    requires Legal(s, step) && j < |s.world.ledger.items| && IsHold(ItemAt(s, j))
    ensures |Next(s, step).world.ledger.items| == |s.world.ledger.items|
    ensures ItemAt(Next(s, step), j) != ItemAt(s, j) ==>
              step.CommitReceipt? && step.item == j && step.run in s.runs && HoldsClaim(s, step.run, j)
  {
    LedgerHold(s.world.ledger, step, j);
  }

  lemma LedgerFinal(l: Ledger, step: Step, j: nat)
    requires j < |l.items| && Rank(l.items[j]) == 0
    ensures |LedgerNext(l, step).items| == |l.items|
    ensures LedgerNext(l, step).items[j] == l.items[j]
  {
  }

  /** No step of anybody changes a final receipt. */
  lemma FinalStepStays(s: Sys, step: Step, j: nat)
    requires Legal(s, step) && j < |s.world.ledger.items| && Rank(ItemAt(s, j)) == 0
    ensures |Next(s, step).world.ledger.items| == |s.world.ledger.items|
    ensures ItemAt(Next(s, step), j) == ItemAt(s, j)
  {
    LedgerFinal(s.world.ledger, step, j);
  }

  /** Over every interleaving of runs, crashes, restores and outside changes, a final receipt never changes. */
  lemma {:induction false} FinalForever(s: Sys, steps: seq<Step>, j: nat)
    requires Lawful(s, steps) && j < |s.world.ledger.items| && Rank(ItemAt(s, j)) == 0
    ensures |After(s, steps).world.ledger.items| == |s.world.ledger.items|
    ensures ItemAt(After(s, steps), j) == ItemAt(s, j)
    decreases |steps|
  {
    if steps != [] {
      FinalStepStays(s, steps[0], j);
      FinalForever(Next(s, steps[0]), steps[1..], j);
    }
  }

  /** How many steps of a history change item `j`. */
  function Writes(s: Sys, steps: seq<Step>, j: nat): nat
    requires Lawful(s, steps) && j < |s.world.ledger.items|
    decreases |steps|
  {
    if steps == [] then 0
    else
      StepKeepsItems(s, steps[0]);
      var t := Next(s, steps[0]);
      Writes(t, steps[1..], j) + if ItemAt(t, j) == ItemAt(s, j) then 0 else 1
  }

  /** How many of them put a hold marker over a hold marker. */
  function Repeats(s: Sys, steps: seq<Step>, j: nat): nat
    requires Lawful(s, steps) && j < |s.world.ledger.items|
    decreases |steps|
  {
    if steps == [] then 0
    else
      StepKeepsItems(s, steps[0]);
      Repeats(Next(s, steps[0]), steps[1..], j) + if RepeatsHold(s.world.ledger, steps[0], j) then 1 else 0
  }

  /**
   An item is written at most as often as its rank allows, three times from the queue, however
   runs interleave; only receipts that repeat a hold marker come on top.
   */
  lemma {:induction false} WritesAreBounded(s: Sys, steps: seq<Step>, j: nat)
    requires Lawful(s, steps) && j < |s.world.ledger.items|
    ensures |After(s, steps).world.ledger.items| == |s.world.ledger.items|
    ensures Writes(s, steps, j) + Rank(ItemAt(After(s, steps), j)) <= Rank(ItemAt(s, j)) + Repeats(s, steps, j)
    ensures Rank(ItemAt(After(s, steps), j)) <= Rank(ItemAt(s, j)) <= 3
    decreases |steps|
  {
    if steps != [] {
      StepRank(s, steps[0], j);
      WritesAreBounded(Next(s, steps[0]), steps[1..], j);
    }
  }

  // ---- receipts, status and audit ----

  lemma StepAgrees(s: Sys, step: Step)
    requires Legal(s, step) && Agrees(s.world.ledger)
    ensures Agrees(Next(s, step).world.ledger)
  {
    var l := s.world.ledger;
    match step {
      case Hold(_, i) => CommitAgrees(l, i, INTERRUPTED_HOLD);
      case Dispose(_, i, write) => CommitAgrees(l, i, write);
      case CommitReceipt(_, i, write) => CommitAgrees(l, i, write);
      case ClaimItem(_, i) => ClaimAgrees(l, i);
      case RestoreAll(_) => RestoreAgrees(l);
      case Refresh(_) => FinalizeAgrees(l);
      case _ => assert LedgerNext(l, step).(occurrences := l.occurrences) == l;
    }
  }

  /**
   In every reachable state: complete means no pending item, a complete action has exactly one
   ending event, and an item has one applied event exactly when it is confirmed.
   */
  lemma {:induction false} HistoryAgrees(s: Sys, steps: seq<Step>)
    requires Lawful(s, steps) && Agrees(s.world.ledger)
    ensures Agrees(After(s, steps).world.ledger)
    decreases |steps|
  {
    if steps != [] {
      StepAgrees(s, steps[0]);
      HistoryAgrees(Next(s, steps[0]), steps[1..]);
    }
  }

  // ---- moves: a confirmed one reached the server ----

  /** The step moved item `i` at the server, into the folder at `path`. */
  predicate MovesTo(step: Step, i: nat, path: Option<string>) {
    step.Remote? && step.item == i && step.applied && step.op.MoveTo? && path == Some(step.op.path)
  }

  /** Item `i` is confirmed, or a run holds the answer that may confirm it. */
  ghost predicate MoveStands(s: Sys, i: nat)
    requires i < |s.world.ledger.items|
  {
    ItemAt(s, i).status == Confirmed ||
    exists r :: r in s.runs && s.runs[r].Written? && s.runs[r].item == i && s.runs[r].applied
  }

  lemma StepConfirms(s: Sys, step: Step, i: nat)
    requires Legal(s, step) && RequiresDestination(s.world.ledger.kind) && i < |s.world.ledger.items|
    ensures |Next(s, step).world.ledger.items| == |s.world.ledger.items|
    ensures MoveStands(Next(s, step), i) ==> MoveStands(s, i) || MovesTo(step, i, DestinationPath(s.world))
  {
    StepKeepsItems(s, step);
    KindsPartition(s.world.ledger.kind);
    var t := Next(s, step);
    if t.world.ledger.items[i].status == Confirmed && s.world.ledger.items[i].status != Confirmed {
      LedgerConfirms(s.world.ledger, step, i);
    } else if MoveStands(t, i) && ItemAt(t, i).status != Confirmed {
      var r :| r in t.runs && t.runs[r].Written? && t.runs[r].item == i && t.runs[r].applied;
      if r in s.runs && s.runs[r] == t.runs[r] {
        assert MoveStands(s, i);
      }
    }
  }

  lemma LedgerConfirms(l: Ledger, step: Step, i: nat)
    requires i < |l.items| && |LedgerNext(l, step).items| == |l.items|
    requires LedgerNext(l, step).items[i].status == Confirmed && l.items[i].status != Confirmed
    ensures (step.Dispose? || step.CommitReceipt?) && step.item == i && step.write.status == Confirmed
  {
  }

  /**
   Over every interleaving of runs, crashes, restores and outside changes, an item that a move
   confirmed was moved at the server, into the folder the request froze.
   */
  lemma {:induction false} ConfirmedWasMoved(s: Sys, steps: seq<Step>, i: nat)
    requires Lawful(s, steps) && RequiresDestination(s.world.ledger.kind)
    requires i < |s.world.ledger.items| && !MoveStands(s, i)
    ensures |After(s, steps).world.ledger.items| == |s.world.ledger.items|
    ensures ItemAt(After(s, steps), i).status == Confirmed ==>
      exists k :: 0 <= k < |steps| && MovesTo(steps[k], i, DestinationPath(s.world))
    decreases |steps|
  {
    if steps != [] {
      var t := Next(s, steps[0]);
      StepKeepsItems(s, steps[0]);
      StepConfirms(s, steps[0], i);
      if MovesTo(steps[0], i, DestinationPath(s.world)) {
        ItemsStand(t, steps[1..]);
      } else {
        ConfirmedWasMoved(t, steps[1..], i);
        if k: nat :| 0 <= k < |steps[1..]| && MovesTo(steps[1..][k], i, DestinationPath(s.world)) {
          assert MovesTo(steps[k + 1], i, DestinationPath(s.world));
        }
      }
    }
  }

  lemma {:induction false} ItemsStand(s: Sys, steps: seq<Step>)
    requires Lawful(s, steps)
    ensures |After(s, steps).world.ledger.items| == |s.world.ledger.items|
    decreases |steps|
  {
    if steps != [] {
      StepKeepsItems(s, steps[0]);
      ItemsStand(Next(s, steps[0]), steps[1..]);
    }
  }

  // ---- moves: at most one remote move an item ----

  predicate HoldsClaim(s: Sys, r: nat, i: nat) {
    r in s.runs && (s.runs[r].Armed? || s.runs[r].Written?) && s.runs[r].item == i
  }

  predicate SawNoClaim(stage: Stage) {
    stage.Loaded? || stage.Holding? || Executing !in stage.seen
  }

  /** One item of a move: its claim is won once, by one run, and pays for one remote move. */
  ghost predicate OneClaim(s: Sys, i: nat)
    requires i < |s.moves| == |s.world.ledger.items|
  {
    && s.moves[i] <= 1
    && (ItemAt(s, i).status == Queued ==> s.moves[i] == 0 && forall r :: !HoldsClaim(s, r, i))
    && (forall r :: HoldsClaim(s, r, i) && s.runs[r].Armed? ==> s.moves[i] == 0)
    && (forall q, r :: HoldsClaim(s, q, i) && HoldsClaim(s, r, i) ==> q == r)
  }

  ghost predicate OneMove(s: Sys) {
    && |s.moves| == |s.world.ledger.items|
    && (forall r :: r in s.runs ==> SawNoClaim(s.runs[r]))
    && (forall i :: 0 <= i < |s.moves| ==> OneClaim(s, i))
  }

  /** Before any run: nothing queued was ever moved. */
  predicate Submitted(s: Sys) {
    && s.runs == map[] && !s.overlap && |s.moves| == |s.world.ledger.items|
    && forall i :: 0 <= i < |s.moves| ==> s.moves[i] == 0
  }

  lemma StepSeesNoClaim(s: Sys, step: Step)
    requires Legal(s, step) && OneMove(s)
    requires !IsReplayableKind(s.world.ledger.kind) && !Next(s, step).overlap
    ensures forall r :: r in Next(s, step).runs ==> SawNoClaim(Next(s, step).runs[r])
  {
    var t := Next(s, step);
    forall r | r in t.runs ensures SawNoClaim(t.runs[r]) {
      if r !in s.runs || t.runs[r] != s.runs[r] {
        if step.ReadPending? {
          assert !MeetsClaim(s.world.ledger);
          var seen := Statuses(s.world.ledger.items);
          assert forall i :: 0 <= i < |seen| ==> seen[i] != Executing;
        }
      }
    }
  }

  lemma LedgerQueued(l: Ledger, step: Step, i: nat)
    requires i < |l.items|
    requires step.Dispose? || step.CommitReceipt? ==> !PendingItem(step.write.status)
    ensures |LedgerNext(l, step).items| == |l.items|
    ensures LedgerNext(l, step).items[i].status == Queued ==>
      l.items[i].status == Queued && (step.ClaimItem? ==> step.item != i)
  {
  }

  lemma StepOneClaim(s: Sys, step: Step, i: nat)
    requires Legal(s, step) && OneMove(s) && i < |s.moves|
    requires !IsReplayableKind(s.world.ledger.kind)
    ensures |Next(s, step).moves| == |Next(s, step).world.ledger.items| == |s.moves|
    ensures OneClaim(Next(s, step), i)
  {
    var t := Next(s, step);
    LedgerQueued(s.world.ledger, step, i);
    assert OneClaim(s, i);
    forall r | HoldsClaim(t, r, i)
      ensures HoldsClaim(s, r, i)
              || (step.ClaimItem? && step.run == r && step.item == i && ItemAt(s, i).status == Queued)
      ensures t.runs[r].Armed? && HoldsClaim(s, r, i) ==> s.runs[r].Armed? && t.moves[i] == s.moves[i]
    {
      if step.ClaimItem? && step.run == r {
        assert SawNoClaim(s.runs[r]);
      }
      if step.Remote? && step.item == i {
        assert HoldsClaim(s, step.run, i);
      }
    }
  }

  lemma {:induction false} OneMoveForever(s: Sys, steps: seq<Step>)
    requires Lawful(s, steps) && OneMove(s) && !IsReplayableKind(s.world.ledger.kind)
    requires !After(s, steps).overlap
    ensures OneMove(After(s, steps))
    decreases |steps|
  {
    if steps != [] {
      var t := Next(s, steps[0]);
      if t.overlap { OverlapSticks(t, steps[1..]); }
      StepSeesNoClaim(s, steps[0]);
      forall i | 0 <= i < |s.moves| ensures |t.moves| == |t.world.ledger.items| == |s.moves| && OneClaim(t, i) {
        StepOneClaim(s, steps[0], i);
      }
      StepKeepsItems(s, steps[0]);
      OneMoveForever(t, steps[1..]);
    }
  }

  /**
   At most once: over every interleaving of runs, crashes, restores and outside changes, the
   remote move of an item is issued at most once in the item's whole life, as long as no
   pending read met a claim of the action in flight.
   */
  lemma AtMostOneMove(s: Sys, steps: seq<Step>, i: nat)
    requires Submitted(s) && Lawful(s, steps) && RequiresDestination(s.world.ledger.kind)
    requires !After(s, steps).overlap && i < |s.moves|
    ensures |After(s, steps).moves| == |s.moves|
    ensures After(s, steps).moves[i] <= 1
  {
    SubmittedHasOneMove(s);
    OneMoveForever(s, steps);
    MovesKeepLength(s, steps);
    assert OneClaim(After(s, steps), i);
  }

  lemma {:induction false} MovesKeepLength(s: Sys, steps: seq<Step>)
    requires Lawful(s, steps)
    ensures |After(s, steps).moves| == |s.moves|
    decreases |steps|
  {
    if steps != [] {
      MovesKeepLength(Next(s, steps[0]), steps[1..]);
    }
  }

  lemma {:induction false} OverlapSticks(s: Sys, steps: seq<Step>)
    requires Lawful(s, steps) && s.overlap
    ensures After(s, steps).overlap
    decreases |steps|
  {
    if steps != [] {
      OverlapSticks(Next(s, steps[0]), steps[1..]);
    }
  }

  lemma SubmittedHasOneMove(s: Sys)
    requires Submitted(s)
    ensures OneMove(s)
  {
  }

  lemma Extend(s: Sys, steps: seq<Step>, step: Step) returns (longer: seq<Step>)
    requires Lawful(s, steps) && Legal(After(s, steps), step)
    ensures Lawful(s, longer) && After(s, longer) == Next(After(s, steps), step)
  {
    longer := steps + [step];
    LawfulAppend(s, steps, step);
  }

  lemma EmptyHistory(s: Sys)
    ensures Lawful(s, []) && After(s, []) == s
  {
  }

  /** Item `i` waits, its folder is there under the generation it froze, and the destination has a path. */
  predicate Movable(w: World, i: nat) {
    && RequiresDestination(w.ledger.kind) && i < |w.ledger.items| && DestinationPath(w).Some?
    && TargetPath(w, i).Some? && TargetPath(w, i).value in w.mailbox
    && w.mailbox[TargetPath(w, i).value].uidValidity == w.ledger.items[i].target.uidValidity
  }

  /** Run `r` from nothing to the end of its hold pass, while nothing is claimed. */
  lemma RunPastHolds(s: Sys, before: seq<Step>, r: nat) returns (steps: seq<Step>)
    requires Lawful(s, before) && r !in After(s, before).runs
    ensures Lawful(s, steps)
    ensures var t := After(s, before);
            After(s, steps) == t.(runs := t.runs[r := Holding(Statuses(t.world.ledger.items))])
  {
    var t := After(s, before);
    steps := Extend(s, before, Start(r));
    steps := Extend(s, steps, LoadForHold(r));
    assert t.runs[r := Loaded][r := Holding(Statuses(t.world.ledger.items))] ==
        t.runs[r := Holding(Statuses(t.world.ledger.items))];
  }

  /** Run `r` from the end of its hold pass through its claim of item `i`, which it wins or shares. */
  lemma RunToClaim(s: Sys, before: seq<Step>, r: nat, i: nat) returns (steps: seq<Step>)
    requires Lawful(s, before) && r in After(s, before).runs && After(s, before).runs[r].Holding?
    requires Movable(After(s, before).world, i) && PendingItem(After(s, before).world.ledger.items[i].status)
    ensures Lawful(s, steps)
    ensures var t := After(s, before); var u := After(s, steps);
            && u.world == t.world.(ledger := Claim(t.world.ledger, i)) && u.moves == t.moves
            && u.overlap == (t.overlap || MeetsClaim(t.world.ledger))
            && u.runs.Keys == t.runs.Keys && (forall q :: q in t.runs && q != r ==> u.runs[q] == t.runs[q])
            && u.runs[r].Armed? && u.runs[r].item == i
  {
    steps := Extend(s, before, ReadPending(r));
    steps := Extend(s, steps, Revalidate(r, i));
    steps := Extend(s, steps, ClaimItem(r, i));
  }

  /** An armed run issues its move; its answer is lost before the server acts. */
  lemma RunMoves(s: Sys, before: seq<Step>, r: nat, i: nat) returns (steps: seq<Step>)
    requires Lawful(s, before) && HoldsClaim(After(s, before), r, i) && After(s, before).runs[r].Armed?
    requires RequiresDestination(After(s, before).world.ledger.kind) && i < |After(s, before).world.ledger.items|
    requires DestinationPath(After(s, before).world).Some?
    requires |After(s, before).moves| == |After(s, before).world.ledger.items|
    ensures Lawful(s, steps)
    ensures var t := After(s, before); var u := After(s, steps);
            && u.world == t.world && u.moves == t.moves[i := t.moves[i] + 1] && u.overlap == t.overlap
            && u.runs.Keys == t.runs.Keys && (forall q :: q in t.runs && q != r ==> u.runs[q] == t.runs[q])
  {
    var path := DestinationPath(After(s, before).world).value;
    steps := Extend(s, before, Remote(r, i, Promised, MoveTo(path), false));
  }

  /**
   The condition of `AtMostOneMove` is needed: whenever an item is queued and its folder is
   there, two runs can each issue its move, the second having read the first one's claim
   after its own hold pass.
   */
  lemma OverlapMovesTwice(s: Sys, i: nat) returns (steps: seq<Step>)
    requires Submitted(s) && Movable(s.world, i) && ItemAt(s, i).status == Queued
    ensures Lawful(s, steps) && After(s, steps).overlap
    ensures |After(s, steps).moves| == |s.moves| && After(s, steps).moves[i] == 2
  {
    hide Legal, Next, Lawful, After;
    EmptyHistory(s);
    steps := RunPastHolds(s, [], 2);
    steps := RunPastHolds(s, steps, 1);
    steps := RunToClaim(s, steps, 1, i);
    assert MeetsClaim(After(s, steps).world.ledger) by {
      assert After(s, steps).world.ledger.items[i].status == Executing;
      KindsPartition(s.world.ledger.kind);
    }
    steps := RunMoves(s, steps, 1, i);
    steps := RunToClaim(s, steps, 2, i);
    steps := RunMoves(s, steps, 2, i);
  }

  /**
   And from any state: whenever a live run's list holds an item whose claim another run still
   carries, and the folder is there, both can issue the move, or the reader alone if the
   claimant already did.
   */
  lemma SharedClaimMovesAgain(s: Sys, before: seq<Step>, q: nat, r: nat, i: nat)
    returns (steps: seq<Step>)
    requires Lawful(s, before) && q != r
    requires var t := After(s, before);
             && |t.moves| == |t.world.ledger.items| && Movable(t.world, i) && HoldsClaim(t, q, i)
             && r in t.runs && t.runs[r].Working? && i < |t.runs[r].seen| && t.runs[r].seen[i] == Executing
    ensures Lawful(s, steps)
    ensures var t := After(s, before);
            && |After(s, steps).moves| == |t.moves|
            && After(s, steps).moves[i] == t.moves[i] + if t.runs[q].Armed? then 2 else 1
  {
    hide Lawful, After;
    steps := Extend(s, before, Revalidate(r, i));
    steps := Extend(s, steps, ClaimItem(r, i));
    assert HoldsClaim(After(s, steps), r, i) && HoldsClaim(After(s, steps), q, i);
    hide Legal, Next;
    if After(s, steps).runs[q].Armed? { steps := RunMoves(s, steps, q, i); }
    steps := RunMoves(s, steps, r, i);
  }
}
