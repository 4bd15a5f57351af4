/**
 The action service and its two-way executor, driving one action. Between any two of its
 atomic steps other runs, a restore, synchronization and the server may act, and the run may
 crash; every step the run takes is a legal step of the protocol.
 */
module ActionService {
  import opened Wrappers
  import opened ActionKinds
  import opened ActionLedger
  import opened MailboxStore
  import opened ActionProtocol
  import opened ActionIdentity
  import opened ActionTheorems
  import opened ActionHealth
  import opened ActionOutcomes

  datatype RunResult = Executed | Held | GenerationMismatch | Crashed

  /** How a part of a run ended: finished, stopped by the recovery state, or lost with the process. */
  datatype Flow = On | Off(verdict: Verdict) | Dead

  /** The answer of one remote write; an exception proves nothing either way. */
  datatype WriteAnswer = Accepted | Rejected | Uncertain(why: string) | Thrown(what: string)

  // ---- what every step of a run keeps ----

  predicate Pends(s: Sys, i: nat)
    requires i < |s.world.ledger.items|
  {
    PendingItem(s.world.ledger.items[i].status)
  }

  predicate SameAction(s: Sys, t: Sys) {
    && t.world.ledger.kind == s.world.ledger.kind && t.world.names == s.world.names
    && t.world.destination == s.world.destination
    && |t.world.ledger.items| == |s.world.ledger.items|
    && forall i :: 0 <= i < |s.world.ledger.items| ==> t.world.ledger.items[i].target == s.world.ledger.items[i].target
  }

  predicate KeepsDisposed(s: Sys, t: Sys)
    requires SameAction(s, t)
  {
    forall i :: 0 <= i < |s.world.ledger.items| && !Pends(s, i) ==> !Pends(t, i)
  }

  /** A flag action that nothing and nobody disturbs. */
  ghost predicate Well(g: Setting, s: Sys) {
    && g.peace.Calm? && s.world.verdict.Go?
    && var desire := FlagDesireOf(s.world.ledger.kind);
       desire.Some? && Sound(g.session, desire.value.flag) && Healthy(s.world, g.origin, desire.value, g.condstore)
  }

  /** The server holds the flag of item `i` as the action wants it. */
  predicate DesiredNow(s: Sys, i: nat) {
    && FlagDesireOf(s.world.ledger.kind).Some? && i < |s.world.ledger.items|
    && Desired(s.world, i, FlagDesireOf(s.world.ledger.kind).value)
  }

  predicate KeepsDesired(s: Sys, t: Sys)
    requires SameAction(s, t)
  {
    var desire := FlagDesireOf(s.world.ledger.kind);
    desire.Some? ==>
      forall i :: 0 <= i < |s.world.ledger.items| && Desired(s.world, i, desire.value) ==>
          Desired(t.world, i, desire.value)
  }

  /** Without other runs, no run appears and no pending read meets a claim. */
  ghost predicate Undisturbed(g: Setting, s: Sys, t: Sys) {
    !g.peace.Open? ==> t.overlap == s.overlap && t.runs.Keys <= s.runs.Keys
  }

  ghost predicate Onward(g: Setting, s: Sys, t: Sys) {
    && SameAction(s, t) && KeepsDisposed(s, t) && Undisturbed(g, s, t)
    && (Well(g, s) ==> Well(g, t) && KeepsDesired(s, t))
  }

  /** Without other runs an item keeps its status or is disposed; `except` is the item a run works on. */
  predicate Falls(g: Setting, s: Sys, t: Sys, except: int)
    requires SameAction(s, t)
  {
    !g.peace.Open? ==>
      forall i :: 0 <= i < |s.world.ledger.items| && i != except ==>
        t.world.ledger.items[i].status == s.world.ledger.items[i].status || !Pends(t, i)
  }

  /** A point of a run to look back to, and the items disposed by now. */
  datatype Mark = Mark(sys: Sys, done: set<nat>)

  /** What the history since a mark keeps; the run may be at work on item `except`. */
  ghost predicate Since(g: Setting, m: Mark, t: Sys, except: int) {
    && Onward(g, m.sys, t) && Falls(g, m.sys, t, except)
    && forall i :: i in m.done && i < |t.world.ledger.items| ==> !Pends(t, i)
  }

  lemma SinceTransitive(g: Setting, m: Mark, t: Sys, u: Sys, except: int)
    requires Since(g, m, t, except) && Since(g, Mark(t, {}), u, -1)
    ensures Since(g, m, u, except)
  {
  }

  lemma SinceReflexive(g: Setting, s: Sys)
    ensures Since(g, Mark(s, {}), s, -1)
  {
  }

  /** The steps that keep an undisturbed flag action well. */
  ghost predicate WellStep(g: Setting, s: Sys, step: Step)
    requires Legal(s, step)
  {
    var desire := FlagDesireOf(s.world.ledger.kind);
    desire.Some? &&
    match step
    case Dispose(_, i, write) => Pends(s, i) ==>
        write.status == Confirmed && !write.expunge && Desired(s.world, i, desire.value)
    case CommitReceipt(_, i, write) => write.status == Confirmed && !write.expunge && Desired(s.world, i, desire.value)
    case Remote(r, i, session, op, applied) =>
      && applied && session == g.session && Present(s.world, i)
      && s.runs[r].path == Place(s.world, i).0
      && op == SetFlag(desire.value.flag, desire.value.value, Condition(s.world, i, g.condstore))
    case Hold(_, _) => false
    case RestoreAll(_) => false
    case Outside(_) => false
    case _ => true
  }

  /** A step on rows alone that leaves the world healthy keeps every desired flag desired. */
  lemma RowStepKeepsDesired(g: Setting, s: Sys, step: Step)
    requires Legal(s, step) && Well(g, s) && Well(g, Next(s, step)) && SameAction(s, Next(s, step))
    requires Next(s, step).world.mailbox == s.world.mailbox
    ensures KeepsDesired(s, Next(s, step))
  {
    var desire := FlagDesireOf(s.world.ledger.kind).value;
    var v := Next(s, step).world;
    forall i | 0 <= i < |s.world.ledger.items| && Desired(s.world, i, desire) ensures Desired(v, i, desire) {
      assert OnItsWay(v, i, desire, g.condstore);
      assert MessageOf(v, i) == MessageOf(s.world, i);
    }
  }

  lemma RowStepKeepsWell(g: Setting, s: Sys, step: Step)
    requires Legal(s, step) && Well(g, s) && WellStep(g, s, step) && !step.Remote?
    ensures Well(g, Next(s, step))
  {
    var desire := FlagDesireOf(s.world.ledger.kind).value;
    match step {
      case Dispose(_, i, write) =>
        if Pends(s, i) {
          ConfirmKeepsHealthy(s.world, g.origin, desire, g.condstore, i, write);
        } else {
          assert Next(s, step).world == s.world;
        }
      case CommitReceipt(_, i, write) => ConfirmKeepsHealthy(s.world, g.origin, desire, g.condstore, i, write);
      case ClaimItem(_, i) => ClaimKeepsHealthy(s.world, g.origin, desire, g.condstore, i);
      case Refresh(_) => FinalizeKeepsHealthy(s.world, g.origin, desire, g.condstore);
      case _ =>
    }
  }

  lemma WellStepKeeps(g: Setting, s: Sys, step: Step)
    requires Legal(s, step) && Well(g, s) && WellStep(g, s, step)
    ensures Well(g, Next(s, step)) && SameAction(s, Next(s, step)) && KeepsDesired(s, Next(s, step))
  {
    StepSameAction(s, step);
    if step.Remote? {
      var desire := FlagDesireOf(s.world.ledger.kind).value;
      WriteKeepsHealthy(s.world, g.origin, step.session, step.item, desire, g.condstore);
      assert Next(s, step).world == WrittenWorld(s.world, step.session, step.item, desire, g.condstore);
    } else {
      RowStepKeepsWell(g, s, step);
      RowStepKeepsDesired(g, s, step);
    }
  }

  lemma StepSameAction(s: Sys, step: Step)
    requires Legal(s, step)
    ensures SameAction(s, Next(s, step))
  {
    LedgerKeepsTargets(s.world.ledger, step);
    var t := Next(s, step);
    assert t.world.ledger == LedgerNext(s.world.ledger, step) && t.world.names == s.world.names;
    assert t.world.destination == s.world.destination;
  }

  lemma LedgerKeepsDisposed(l: Ledger, step: Step)
    requires step.Dispose? || step.CommitReceipt? ==> !PendingItem(step.write.status)
    ensures |LedgerNext(l, step).items| == |l.items|
    ensures forall i :: 0 <= i < |l.items| && !PendingItem(l.items[i].status) ==>
      !PendingItem(LedgerNext(l, step).items[i].status)
    ensures !step.ClaimItem? ==>
      forall i :: 0 <= i < |l.items| ==>
        LedgerNext(l, step).items[i].status == l.items[i].status || !PendingItem(LedgerNext(l, step).items[i].status)
    ensures step.ClaimItem? ==> forall i :: 0 <= i < |l.items| && i != step.item ==>
      LedgerNext(l, step).items[i] == l.items[i]
  {
  }

  /** Any legal step but a start or a pending read, if it keeps well what was well. */
  lemma StepOnward(g: Setting, s: Sys, step: Step)
    requires Legal(s, step) && !step.Start? && (!g.peace.Open? && step.ReadPending? ==> !MeetsClaim(s.world.ledger))
    requires Well(g, s) ==> WellStep(g, s, step)
    ensures Since(g, Mark(s, {}), Next(s, step), if step.ClaimItem? then step.item else -1)
  {
    StepSameAction(s, step);
    LedgerKeepsDisposed(s.world.ledger, step);
    if Well(g, s) { WellStepKeeps(g, s, step); }
  }

  // ---- dispositions ----

  /** Why the rows refuse a write of item `i`, if they do, in the order the checks run. */
  function RowConflict(w: World, i: nat, recorded: nat): Option<string>
    requires i < |w.ledger.items|
  {
    var t := w.ledger.items[i].target;
    if t.occurrence !in w.ledger.occurrences then Some("occurrence_missing")
    else
      var row := w.ledger.occurrences[t.occurrence];
      if row.expunged then Some("expunged")
      else if row.invalidated then Some("invalidated")
      else if row.uidValidity != t.uidValidity || row.uidValidity != recorded then Some("generation_changed")
      else None
  }

  /** Why the row moved on since the item froze it, if it did. */
  function StaleConflict(w: World, i: nat): Option<string>
    requires i < |w.ledger.items| && w.ledger.items[i].target.occurrence in w.ledger.occurrences
  {
    var t := w.ledger.items[i].target;
    var row := w.ledger.occurrences[t.occurrence];
    if row.revision != t.revision then Some("stale_revision")
    else if row.modseq != t.modseq then Some("modseq_changed")
    else None
  }

  lemma ReceiptDisposes(l: Ledger, i: nat, outcome: ExecutorOutcome)
    requires i < |l.items|
    ensures ReceiptWrite(ReceiptOf(outcome)) && (ReceiptOf(outcome).status == Confirmed <==> outcome.OutcomeConfirmed?)
    ensures |Commit(l, i, ReceiptOf(outcome)).items| == |l.items|
            && !PendingItem(Commit(l, i, ReceiptOf(outcome)).items[i].status)
    ensures outcome.OutcomeConfirmed? && outcome.movedTo.None? ==>
      ReceiptOf(outcome).status == Confirmed && !ReceiptOf(outcome).expunge
  {
  }

  lemma SinceKeepsItems(g: Setting, m: Mark, t: Sys, except: int)
    requires Since(g, m, t, except)
    ensures SameAction(m.sys, t)
  {
  }

  /** The flags the folder shows for the items of one group, keyed by item. */
  function RemoteFlags(w: World, path: string, group: seq<nat>, condstore: bool): map<nat, Observed> {
    map i | i in group && i < |w.ledger.items|
        && FlagsAt(w, i, path, condstore).Some? :: FlagsAt(w, i, path, condstore).value
  }

  /** Without other runs, an item has the status the run read, or is disposed. */
  predicate Tracks(g: Setting, s: Sys, seen: seq<ItemStatus>, i: nat)
    requires i < |s.world.ledger.items| && i < |seen|
  {
    !g.peace.Open? ==> s.world.ledger.items[i].status == seen[i] || !Pends(s, i)
  }

  /** Flags that read as desired do so only if the server holds them. */
  predicate TellsDesired(w: World, i: nat, remote: Observed)
    requires i < |w.ledger.items|
  {
    var desire := FlagDesireOf(w.ledger.kind);
    desire.Some? && FlagOf(remote, desire.value.flag) == desire.value.value ==> Desired(w, i, desire.value)
  }

  /** Who may act between two steps of run `me`. */
  predicate MayAct(g: Setting, me: nat, step: Step) {
    match g.peace
    case Open => StepOf(step) != Some(me)
    case Alone => step.RestoreAll? || step.Outside?
    case Calm => false
  }

  /** A pending item on its way whose flag still has to change. */
  predicate ToBeWritten(w: World, i: nat, desire: FlagDesire, condstore: bool) {
    && i < |w.ledger.items| && OnItsWay(w, i, desire, condstore) && PendingItem(w.ledger.items[i].status)
    && !ReadsAs(MessageOf(w, i), desire)
  }

  /** What reading back after the undisturbed write of such an item shows. */
  lemma WriteShows(s: Sys, r: nat, i: nat, path: string, session: Session, desire: FlagDesire, condstore: bool)
    requires ToBeWritten(s.world, i, desire, condstore) && FlagDesireOf(s.world.ledger.kind) == Some(desire)
    requires TargetPath(s.world, i) == Some(path) && r in s.runs && s.runs[r].Armed? && s.runs[r].path == path
    requires Legal(s, Remote(r, i, session, SetFlag(desire.flag, desire.value, Condition(s.world, i, condstore)), true))
    ensures var t := Next(s,
                          Remote(r, i, session, SetFlag(desire.flag, desire.value, Condition(s.world, i, condstore)),
                                 true));
            && (DesiredNow(t, i) <==> Sound(session, desire.flag))
            && i < |t.world.ledger.items| && FlagsAt(t.world, i, path, condstore).Some?
            && (FlagOf(FlagsAt(t.world, i, path, condstore).value, desire.flag) == desire.value <==>
                  Sound(session, desire.flag))
  {
    var step := Remote(r, i, session, SetFlag(desire.flag, desire.value, Condition(s.world, i, condstore)), true);
    WriteDecides(s.world, session, i, desire, condstore);
    assert Next(s, step).world == WrittenWorld(s.world, session, i, desire, condstore);
  }

  /** A flag that stands as desired is read back as desired. */
  lemma DesiredShows(s: Sys, i: nat, path: string, condstore: bool)
    requires DesiredNow(s, i) && TargetPath(s.world, i) == Some(path)
    ensures var shown := FlagsAt(s.world, i, path, condstore); var desire := FlagDesireOf(s.world.ledger.kind).value;
            shown.Some? && FlagOf(shown.value, desire.flag) == desire.value
  {
  }

  /** The call of a claimed item of a well action is the write that keeps it well. */
  lemma WellWrite(g: Setting, s: Sys, r: nat, i: nat, path: string, desire: FlagDesire)
    requires Well(g, s) && i < |s.world.ledger.items| && FlagDesireOf(s.world.ledger.kind) == Some(desire)
    requires TargetPath(s.world, i) == Some(path) && r in s.runs && s.runs[r].Armed? && s.runs[r].path == path
    requires var op := SetFlag(desire.flag, desire.value, Condition(s.world, i, g.condstore));
             Legal(s, Remote(r, i, g.session, op, true))
    ensures WellStep(g, s, Remote(r, i, g.session,
                                  SetFlag(desire.flag, desire.value, Condition(s.world, i, g.condstore)), true))
  {
    WellPresent(g, s, i);
  }

  lemma WellIsCalm(g: Setting, s: Sys)
    ensures Well(g, s) ==> g.peace.Calm?
  {
  }

  /** A well action is never stopped. */
  lemma StoppedIsNotWell(g: Setting, begin: Mark, s: Sys, except: int)
    requires Since(g, begin, s, except) && s.world.verdict != Go
    ensures !Well(g, begin.sys)
  {
  }

  /** The world after a call that was served. */
  function Called(w: World, session: Session, path: string, i: nat, op: RemoteOp): World
    requires i < |w.ledger.items|
  {
    w.(mailbox := Perform(session, w.mailbox, path, w.ledger.items[i].target.uid, op))
  }

  lemma CallWorld(s: Sys, step: Step)
    requires step.Remote? && Legal(s, step)
    ensures Next(s, step).world ==
            if step.applied then Called(s.world, step.session, s.runs[step.run].path, step.item, step.op) else s.world
  {
    hide Perform;
  }

  /** Every call between two points is for item `i`. */
  ghost predicate CallsItem(before: seq<Step>, after: seq<Step>, i: nat) {
    before <= after && forall k :: |before| <= k < |after| && after[k].Remote? ==> after[k].item == i
  }

  lemma OneCall(before: seq<Step>, step: Step, i: nat)
    requires step.Remote? ==> step.item == i
    ensures CallsItem(before, before + [step], i)
  {
  }

  /** Where the server would put the next message of a folder. */
  function NextPlace(w: World, folder: string): (Option<nat>, Option<nat>) {
    if folder in w.mailbox then (Some(w.mailbox[folder].uidValidity), Some(w.mailbox[folder].nextUid)) else (None, None)
  }

  /** What a run knows about a pending item is what the state shows. */
  ghost predicate ReadNow(g: Setting, w: World, i: nat, path: string, generation: nat, remote: Option<Observed>)
    requires i < |w.ledger.items|
  {
    var b := ViewOf(w, i);
    && PendingItem(b.item.status) && b.path == Some(path)
    && b.recorded == Some(Some(generation)) && b.generation == Some(generation)
    && remote == SeenFlags(g, w, i)
    && DestinationStands(w) && (RequiresDestination(w.ledger.kind) ==> b.item.status == Queued)
  }

  predicate DestinationStands(w: World) {
    RequiresDestination(w.ledger.kind) ==> w.destination in w.folders && DestinationPath(w).Some?
  }

  /** The checks of a run, in their order, come to what the state decides about its item. */
  lemma ReadDecides(g: Setting, w: World, i: nat, path: string, generation: nat, remote: Option<Observed>)
    requires i < |w.ledger.items| && ReadNow(g, w, i, path, generation, remote)
    ensures var desire := FlagDesireOf(w.ledger.kind); var row := RowConflict(w, i, generation);
            if remote.None? then FateOf(w, i) == Conflicts("absent_remote")
            else
              && remote == SeenFlags(g, w, i)
              && if row.Some? then FateOf(w, i) == Conflicts(row.value)
                 else if desire.Some? && FlagOf(remote.value, desire.value.flag) == desire.value.value
                 then FateOf(w, i) == Already
                 else
                   && w.ledger.items[i].target.occurrence in w.ledger.occurrences
                   && var stale := StaleConflict(w, i);
                   if stale.Some? then FateOf(w, i) == Conflicts(stale.value) else FateOf(w, i) == Writes
  {
    KindsPartition(w.ledger.kind);
    if ViewOf(w, i).message.Some? && FlagDesireOf(w.ledger.kind).Some? {
      HoldsReads(w.ledger.kind, ViewOf(w, i).message.value, g.condstore);
    }
  }

  lemma WritesPends(w: World, i: nat)
    requires i < |w.ledger.items|
    ensures FateOf(w, i).Writes? ==> PendingItem(w.ledger.items[i].status) && ViewOf(w, i).message.Some?
  {
  }

  /** The flags a refresh shows for item `i`. */
  ghost function SeenFlags(g: Setting, w: World, i: nat): Option<Observed>
    requires i < |w.ledger.items|
  {
    var message := ViewOf(w, i).message;
    if message.Some? then Some(ReadFlags(message.value, g.condstore)) else None
  }

  /** A pending item of a well action passes every check. */
  lemma WellItem(g: Setting, begin: Mark, s: Sys, i: nat, generation: nat)
    requires Since(g, begin, s, -1) && Well(g, begin.sys) && i < |s.world.ledger.items|
    requires generation == s.world.ledger.items[i].target.uidValidity
    ensures RowConflict(s.world, i, generation).None?
    ensures Pends(s, i) ==> StaleConflict(s.world, i).None?
  {
    WellPresent(g, s, i);
    PendingIsFresh(g, s, i);
  }

  ghost function Members(group: seq<nat>): set<nat> {
    set i | i in group
  }

  predicate Ascends(group: seq<nat>) {
    forall a, b :: 0 <= a < b < |group| ==> group[a] < group[b]
  }

  /** The state refuses every listed item for one reason. */
  ghost predicate AllConflict(w: World, group: seq<nat>, reason: string) {
    && Parted(w) && Ascends(group)
    && forall k :: 0 <= k < |group| ==> group[k] < |w.ledger.items| && FateOf(w, group[k]) == Conflicts(reason)
  }

  lemma NoConflictYet(g: Setting, b: Point, group: seq<nat>, reason: string)
    requires AllConflict(b.world, group, reason)
    ensures Drove(g, b, b, Members(group[..0]))
  {
    DroveNothing(g, b, b);
    assert Members(group[..0]) == {};
  }

  lemma NothingRead(g: Setting, b: Point, group: seq<nat>, path: string, recorded: nat, remotes: map<nat, Observed>)
    requires GroupReadNow(g, b.world, group, path, recorded, remotes)
    ensures Drove(g, b, b, Members(group[..0]))
  {
    DroveNothing(g, b, b);
    assert Members(group[..0]) == {};
  }

  /** One more item of a list dealt with. */
  lemma DroveNext(g: Setting, from: Point, was: Point, now: Point, group: seq<nat>, k: nat)
    requires Parted(from.world) && Ascends(group) && k < |group|
    requires Drove(g, from, was, Members(group[..k])) && Drove(g, was, now, {group[k]})
    ensures Drove(g, from, now, Members(group[..k + 1]))
  {
    hide Drove, Parted;
    assert group[..k + 1] == group[..k] + [group[k]];
    assert Members(group[..k]) !! {group[k]};
    DroveCompose(g, from, was, now, Members(group[..k]), {group[k]});
    assert Members(group[..k]) + {group[k]} == Members(group[..k + 1]);
  }

  /** An item not dealt with yet is as it was. */
  lemma NotYet(g: Setting, from: Point, was: Point, done: set<nat>, i: nat)
    requires Parted(from.world) && Drove(g, from, was, done) && i !in done && i < |from.world.ledger.items|
    ensures Parted(was.world) && |was.world.ledger.items| == |from.world.ledger.items|
    ensures ViewOf(was.world, i) == ViewOf(from.world, i) && FateOf(was.world, i) == FateOf(from.world, i)
    ensures was.world.destination == from.world.destination && was.world.folders == from.world.folders
    ensures was.world.names == from.world.names && was.world.ledger.kind == from.world.ledger.kind
  {
    DroveKeepsParted(g, from, was, done);
    SameFate(from.world, was.world, i);
  }

  lemma ConflictNext(g: Setting, from: Point, was: Point, group: seq<nat>, k: nat, reason: string)
    requires AllConflict(from.world, group, reason) && k < |group| && Drove(g, from, was, Members(group[..k]))
    ensures Parted(from.world) && Ascends(group) && Parted(was.world)
    ensures group[k] < |was.world.ledger.items| && FateOf(was.world, group[k]) == Conflicts(reason)
  {
    hide Drove, Parted, FateOf, ViewOf;
    NotYet(g, from, was, Members(group[..k]), group[k]);
  }

  /** What a run needs of the pending items it lists, when it begins with them. */
  ghost predicate Listed(w: World, group: seq<nat>) {
    && Parted(w) && Ascends(group) && DestinationStands(w)
    && forall k :: 0 <= k < |group| ==> group[k] < |w.ledger.items| && IsListed(w, group[k])
  }

  predicate IsListed(w: World, i: nat)
    requires i < |w.ledger.items|
  {
    PendingItem(w.ledger.items[i].status) && (RequiresDestination(w.ledger.kind) ==> w.ledger.items[i].status == Queued)
  }

  /** The refresh of a group, as the state before its first item shows it. */
  ghost predicate GroupReadNow(g: Setting, w: World, group: seq<nat>, path: string, recorded: nat,
                               remotes: map<nat, Observed>) {
    && Listed(w, group)
    && forall k :: 0 <= k < |group| ==>
         group[k] < |w.ledger.items| && ReadNow(g, w, group[k], path, recorded, RemoteOf(remotes, group[k]))
  }

  function RemoteOf(remotes: map<nat, Observed>, i: nat): Option<Observed> {
    if i in remotes then Some(remotes[i]) else None
  }

  /** The items pending at a point. */
  ghost function PendingIn(w: World): set<nat> {
    set i | i in Below(|w.ledger.items|) && PendingItem(w.ledger.items[i].status)
  }

  /** The pending list of a run, and whether the destination of all of it is there. */
  lemma PendingDecides(w: World, seen: seq<ItemStatus>, pending: seq<nat>)
    requires Parted(w) && seen == Statuses(w.ledger.items) && Ascends(pending) && !MeetsClaim(w.ledger)
    requires forall i :: i in pending <==> 0 <= i < |seen| && PendingItem(seen[i])
    ensures Members(pending) == PendingIn(w)
    ensures if DestinationStands(w) then Listed(w, pending) else AllConflict(w, pending, "destination_removed")
  {
    KindsPartition(w.ledger.kind);
    forall k | 0 <= k < |pending| ensures pending[k] < |w.ledger.items| && IsListed(w, pending[k]) {
      assert pending[k] in pending;
    }
  }

  /** A start or a read of rows drives nothing. */
  lemma ReadDrives(g: Setting, from: Point, listed: Point)
    requires Parted(from.world) && listed.world == from.world && |listed.trace| == |from.trace| + 1
    requires from.trace <= listed.trace && !listed.trace[|from.trace|].Remote?
    ensures Drove(g, from, listed, {})
  {
    DroveNothing(g, from, listed);
  }

  lemma WellIsReplayable(g: Setting, s: Sys)
    ensures Well(g, s) ==> !RequiresDestination(s.world.ledger.kind)
  {
    KindsPartition(s.world.ledger.kind);
  }

  lemma HeldKeepsParted(g: Setting, from: Point, held: Point)
    requires Parted(from.world) && Drove(g, from, held, ClaimedBelow(from.world, |from.world.ledger.items|))
    ensures Parted(held.world)
  {
    DroveKeepsParted(g, from, held, ClaimedBelow(from.world, |from.world.ledger.items|));
  }

  /** A whole run: the holds, the pending items, the final refresh. */
  lemma RunDrove(g: Setting, from: Point, held: Point, driven: Point, end: Point, steps: seq<Step>)
    requires Parted(from.world) && Drove(g, from, held, ClaimedBelow(from.world, |from.world.ledger.items|))
    requires Drove(g, held, driven, PendingIn(held.world))
    requires end == Point(driven.world.(ledger := Finalize(driven.world.ledger)), driven.trace + steps)
    requires forall k :: 0 <= k < |steps| ==> !steps[k].Remote?
    ensures Drove(g, from, end, Below(|from.world.ledger.items|))
  {
    var claimed, pending := ClaimedBelow(from.world, |from.world.ledger.items|), PendingIn(held.world);
    var all := Below(|from.world.ledger.items|);
    HeldOrPending(g, from, held, claimed);
    DroveKeepsParted(g, from, held, claimed);
    DroveKeepsParted(g, held, driven, pending);
    EndDrives(g, driven, end, steps);
    hide Drove, Parted, PendingIn, Below, ClaimedBelow, Finalize;
    DroveCompose(g, from, held, driven, claimed, pending);
    DroveAll(g, from, driven, claimed + pending);
    DroveCompose(g, from, driven, end, all, {});
    assert all + {} == all;
  }

  lemma EndDrives(g: Setting, driven: Point, end: Point, steps: seq<Step>)
    requires Tidy(driven.world.mailbox)
    requires end == Point(driven.world.(ledger := Finalize(driven.world.ledger)), driven.trace + steps)
    requires forall k :: 0 <= k < |steps| ==> !steps[k].Remote?
    ensures Drove(g, driven, end, {})
  {
    DroveNothing(g, driven, end);
  }

  /** Every item pending before the hold pass was held, or is pending after it and was not held. */
  lemma HeldOrPending(g: Setting, from: Point, held: Point, claimed: set<nat>)
    requires Drove(g, from, held, claimed)
    requires claimed == ClaimedBelow(from.world, |from.world.ledger.items|)
    ensures claimed !! PendingIn(held.world)
    ensures claimed + PendingIn(held.world) <= Below(|from.world.ledger.items|)
    ensures forall i :: 0 <= i < |from.world.ledger.items| && PendingItem(from.world.ledger.items[i].status) ==>
      i in claimed + PendingIn(held.world)
  {
    hide OthersStand, CallsFresh;
    forall i | 0 <= i < |from.world.ledger.items|
      ensures i in claimed ==> i !in PendingIn(held.world)
      ensures PendingItem(from.world.ledger.items[i].status) ==> i in claimed + PendingIn(held.world)
    {
      if i in claimed {
        assert Ended(g, from.world, held.world, i);
        assert FateOf(from.world, i) == Interrupted;
        assert ViewOf(held.world, i).item.status == Unknown;
      } else {
        ViewedItem(from.world, held.world, i);
      }
    }
  }

  /**
   A run of a pending action that the recovery state forbids touches nothing and says so: another
   generation is a mismatch, anything else a hold. A complete action is never forbidden.
   */
  predicate StoppedAsAssessed(w: World, v: World, result: RunResult) {
    if w.ledger.status == ActionComplete then result.Executed? && v == w
    else match w.verdict
      case Go => true
      case Blocked => v == w && (result.Held? || result.Crashed?)
      case Stale => v == w && (result.GenerationMismatch? || result.Crashed?)
  }

  /** A complete action is left alone. */
  lemma CompleteStands(g: Setting, from: Point, end: Point)
    requires Parted(from.world) && Agrees(from.world.ledger) && from.world.ledger.status == ActionComplete
    requires end.world == from.world && |end.trace| == |from.trace| + 1
    requires from.trace <= end.trace && !end.trace[|from.trace|].Remote?
    ensures Drove(g, from, end, Below(|from.world.ledger.items|))
  {
    hide Below;
    DroveNothing(g, from, end);
    DroveAll(g, from, end, {});
  }

  lemma ConfirmedStand(g: Setting, from: Point, end: Point)
    requires Drove(g, from, end, Below(|from.world.ledger.items|))
    ensures RequiresDestination(from.world.ledger.kind) ==>
              |end.world.ledger.items| == |from.world.ledger.items| &&
              forall i :: 0 <= i < |from.world.ledger.items| ==> ConfirmedStandsThere(from.world, end.world, i)
  {
    hide OthersStand, CallsFresh, SameFrame;
    assert SameFrame(from.world, end.world);
    SizeOf(from.world, end.world);
    if RequiresDestination(from.world.ledger.kind) {
      forall i | 0 <= i < |from.world.ledger.items| ensures ConfirmedStandsThere(from.world, end.world, i) {
        MovedStands(g, from.world, end.world, i);
      }
    }
  }

  lemma NothingListed(g: Setting, b: Point, pending: seq<nat>)
    requires Listed(b.world, pending)
    ensures Drove(g, b, b, {}) && Ascends(pending)
  {
    DroveNothing(g, b, b);
  }

  /** The items of the next folder are as listed. */
  lemma ListedStands(g: Setting, from: Point, was: Point, pending: seq<nat>, group: seq<nat>, done: set<nat>)
    requires Listed(from.world, pending) && Drove(g, from, was, done)
    requires forall i :: i in group ==> i in pending && i !in done
    requires Ascends(group)
    ensures Listed(was.world, group) && Parted(from.world)
  {
    hide Drove, FateOf, ViewOf, Parted;
    DroveKeepsParted(g, from, was, done);
    DroveKeepsNames(g, from, was, done);
    forall k | 0 <= k < |group|
      ensures group[k] < |was.world.ledger.items| && IsListed(was.world, group[k])
    {
      assert group[k] in pending;
      NotYet(g, from, was, done, group[k]);
      ViewedItem(from.world, was.world, group[k]);
    }
  }

  lemma DroveKeepsNames(g: Setting, from: Point, was: Point, done: set<nat>)
    requires Drove(g, from, was, done)
    ensures DestinationStands(was.world) <==> DestinationStands(from.world)
    ensures |was.world.ledger.items| == |from.world.ledger.items|
    ensures was.world.ledger.kind == from.world.ledger.kind
  {
  }

  lemma ViewedItem(w: World, v: World, i: nat)
    requires i < |w.ledger.items| && i < |v.ledger.items| && ViewOf(v, i) == ViewOf(w, i)
    ensures v.ledger.items[i] == w.ledger.items[i]
  {
    assert ViewOf(v, i).item == ViewOf(w, i).item;
  }

  /** One more group dealt with. */
  lemma DroveGroup(g: Setting, from: Point, was: Point, now: Point, done: set<nat>, group: seq<nat>)
    requires Parted(from.world) && Drove(g, from, was, done) && Drove(g, was, now, Members(group))
    requires forall i :: i in group ==> i !in done
    ensures Drove(g, from, now, done + Members(group))
  {
    hide Drove, Parted;
    DroveCompose(g, from, was, now, done, Members(group));
  }

  /** The claims found in flight below an index. */
  ghost function ClaimedBelow(w: World, n: nat): (r: set<nat>)
    requires n <= |w.ledger.items|
    ensures forall i :: i in r ==> i < n && w.ledger.items[i].status == Executing && RequiresDestination(w.ledger.kind)
    ensures RequiresDestination(w.ledger.kind) ==>
      forall i :: 0 <= i < n && w.ledger.items[i].status == Executing ==> i in r
  {
    if n == 0 || !RequiresDestination(w.ledger.kind) then {}
    else ClaimedBelow(w, n - 1) + if w.ledger.items[n - 1].status == Executing then {n - 1} else {}
  }

  lemma NothingHeld(g: Setting, from: Point, loaded: Point)
    requires Parted(from.world) && loaded.world == from.world && |loaded.trace| == |from.trace| + 1
    requires from.trace <= loaded.trace && !loaded.trace[|from.trace|].Remote?
    ensures Drove(g, from, loaded, ClaimedBelow(from.world, 0))
    ensures IsReplayableKind(from.world.ledger.kind) ==>
      Drove(g, from, loaded, ClaimedBelow(from.world, |from.world.ledger.items|))
  {
    KindsPartition(from.world.ledger.kind);
    DroveNothing(g, from, loaded);
  }

  /** One more claim held, when the item is one. */
  lemma HeldNext(g: Setting, from: Point, was: Point, now: Point, i: nat, step: Step)
    requires Parted(from.world) && i < |from.world.ledger.items| && RequiresDestination(from.world.ledger.kind)
    requires Drove(g, from, was, ClaimedBelow(from.world, i)) && !step.Remote?
    requires if from.world.ledger.items[i].status == Executing
             then now == Point(was.world.(ledger := Commit(was.world.ledger, i, INTERRUPTED_HOLD)), was.trace + [step])
             else now == was
    ensures Drove(g, from, now, ClaimedBelow(from.world, i + 1))
  {
    hide Drove, Parted, Commit;
    if from.world.ledger.items[i].status == Executing {
      NotYet(g, from, was, ClaimedBelow(from.world, i), i);
      HoldEnds(g, was, i, step);
      DroveCompose(g, from, was, now, ClaimedBelow(from.world, i), {i});
    } else {
      assert ClaimedBelow(from.world, i + 1) == ClaimedBelow(from.world, i);
    }
  }

  /** Under the recorded generation the refresh shows the items as they are; under another they all conflict. */
  ghost predicate GroupStarts(g: Setting, w: World, group: seq<nat>, path: string, recorded: nat) {
    path in w.mailbox ==>
      if w.mailbox[path].uidValidity != recorded then AllConflict(w, group, "generation_changed")
      else GroupReadNow(g, w, group, path, recorded, RemoteFlags(w, path, group, g.condstore))
  }

  /** What the folder of a group decides about all of its items. */
  lemma GroupDecides(g: Setting, w: World, group: seq<nat>)
    requires Listed(w, group) && group != []
    requires forall k :: 0 <= k < |group| ==>
               w.ledger.items[group[k]].target.folder == w.ledger.items[group[0]].target.folder
    ensures var id := w.ledger.items[group[0]].target.folder;
            if id !in w.folders || id !in w.names then AllConflict(w, group, "folder_removed")
            else if w.folders[id].None? then AllConflict(w, group, "folder_uninitialized")
            else GroupStarts(g, w, group, w.names[id], w.folders[id].value)
  {
    hide Parted;
    var id := w.ledger.items[group[0]].target.folder;
    forall k | 0 <= k < |group| ensures group[k] < |w.ledger.items| && IsListed(w, group[k]) && group[k] in group {
    }
  }

  /** A check drives nothing, and a generation read now is the recorded one. */
  lemma CheckedNow(g: Setting, from: Point, checked: Point, i: nat, path: string, recorded: nat,
                   remote: Option<Observed>)
    requires Parted(from.world) && checked.world == from.world && |checked.trace| == |from.trace| + 1
    requires from.trace <= checked.trace && !checked.trace[|from.trace|].Remote?
    requires i < |from.world.ledger.items| && ReadNow(g, from.world, i, path, recorded, remote)
    ensures Drove(g, from, checked, {})
    ensures path in from.world.mailbox && from.world.mailbox[path].uidValidity == recorded
  {
    DroveNothing(g, from, checked);
  }

  /** A part of a run after steps that drove nothing. */
  lemma DroveAfter(g: Setting, from: Point, was: Point, now: Point, done: set<nat>)
    requires Parted(from.world) && Drove(g, from, was, {}) && Drove(g, was, now, done)
    ensures Drove(g, from, now, done)
  {
    hide Drove, Parted;
    DroveCompose(g, from, was, now, {}, done);
    assert {} + done == done;
  }

  /** The next item of a group finds what the refresh showed. */
  lemma ReadStands(g: Setting, from: Point, was: Point, group: seq<nat>, k: nat, path: string, recorded: nat,
                   remotes: map<nat, Observed>)
    requires GroupReadNow(g, from.world, group, path, recorded, remotes) && k < |group|
    requires Drove(g, from, was, Members(group[..k]))
    ensures Parted(from.world) && Ascends(group) && Parted(was.world)
    ensures group[k] < |was.world.ledger.items|
    ensures ReadNow(g, was.world, group[k], path, recorded, RemoteOf(remotes, group[k]))
  {
    hide Drove, Parted, FateOf, ViewOf;
    NotYet(g, from, was, Members(group[..k]), group[k]);
  }

  /** The path a run resolved is the one of the frozen destination. */
  predicate GoesTo(w: World, folder: string) {
    RequiresDestination(w.ledger.kind) ==> DestinationPath(w) == Some(folder)
  }

  /** A flag write is served whatever it finds; a move needs its destination. */
  predicate Serves(w: World, op: RemoteOp) {
    op.MoveTo? ==> op.path in w.mailbox
  }

  /** The readback shows the flag as desired. */
  predicate Shows(shown: Option<Option<Observed>>, desire: FlagDesire) {
    shown.Some? && shown.value.Some? && FlagOf(shown.value.value, desire.flag) == desire.value
  }

  class ActionService {
    const setting: Setting
    ghost const start: Sys
    ghost var trace: seq<Step>
    var sys: Sys

    constructor (setting: Setting, sys: Sys)
      requires Agrees(sys.world.ledger)
      ensures Valid() && this.sys == sys && this.setting == setting
      ensures start == sys && trace == []
    {
      this.setting, this.sys := setting, sys;
      start, trace := sys, [];
    }

    /** The state is what a lawful history of the protocol leads to. */
    ghost predicate Valid()
      reads this
    {
      Lawful(start, trace) && After(start, trace) == sys && Agrees(sys.world.ledger)
    }

    /** Where the run stands, and the steps so far. */
    ghost function Here(): Point
      reads this`sys, this`trace
    {
      Point(sys.world, trace)
    }

    /** One atomic step. */
    method Do(step: Step)
      requires Valid() && Legal(sys, step)
      modifies this`sys, this`trace
      ensures Valid() && sys == Next(old(sys), step) && trace == old(trace) + [step]
    {
      LawfulAppend(start, trace, step);
      StepAgrees(sys, step);
      sys := Next(sys, step);
      trace := trace + [step];
    }

    /** What happens between two steps of run `me`. */
    method Await(me: nat, ghost begin: Mark, ghost except: int) returns (alive: bool)
      requires Valid() && me in sys.runs && Since(setting, begin, sys, except)
      modifies this`sys, this`trace
      ensures Valid() && Since(setting, begin, sys, except) && Since(setting, Mark(old(sys), {}), sys, -1)
      ensures alive ==> me in sys.runs && sys.runs[me] == old(sys).runs[me]
      ensures !alive ==> me !in sys.runs
      ensures alive && setting.peace.Calm? ==> sys == old(sys) && trace == old(trace)
      ensures setting.peace.Calm? ==> sys.world == old(sys).world
    {
      hide Healthy, Agrees, Lawful, After, Onward, Falls;
      SinceReflexive(setting, sys);
      var steps: seq<Step> := *;
      for k := 0 to |steps|
        invariant Valid() && Since(setting, Mark(old(sys), {}), sys, -1)
        invariant me in sys.runs && sys.runs[me] == old(sys).runs[me]
        invariant setting.peace.Calm? ==> sys == old(sys) && trace == old(trace)
      {
        if Legal(sys, steps[k]) && MayAct(setting, me, steps[k]) {
          InterferenceOnward(setting, me, sys, steps[k]);
          SinceTransitive(setting, Mark(old(sys), {}), sys, Next(sys, steps[k]), -1);
          Do(steps[k]);
        }
      }
      alive := *;
      if !alive {
        StepOnward(setting, sys, Stop(me));
        SinceTransitive(setting, Mark(old(sys), {}), sys, Next(sys, Stop(me)), -1);
        Do(Stop(me));
      }
      SinceTransitive(setting, begin, old(sys), sys, except);
    }

    /** One step of the run itself, if it is one that keeps well what began well. */
    method Take(step: Step, ghost begin: Mark, ghost except: int)
      requires Valid() && Legal(sys, step) && !step.Start? && !step.ReadPending?
               && (step.ClaimItem? ==> step.item == except)
      requires Since(setting, begin, sys, except) && (Well(setting, begin.sys) ==> WellStep(setting, sys, step))
      modifies this`sys, this`trace
      ensures Valid() && sys == Next(old(sys), step) && Since(setting, begin, sys, except)
      ensures trace == old(trace) + [step]
    {
      StepSince(setting, begin, sys, step, except);
      Do(step);
    }

    // ---- dispositions of one item ----

    /** The run works on its list; nothing is claimed. */
    predicate InWork(me: nat, seen: seq<ItemStatus>)
      reads this
    {
      me in sys.runs && sys.runs[me] == Working(seen)
    }

    /** The run checked the generation of item `i`'s folder. */
    predicate InCheck(me: nat, seen: seq<ItemStatus>, i: nat, path: string, generation: nat)
      reads this
    {
      me in sys.runs && sys.runs[me] == Fresh(seen, i, path, generation)
    }

    /** The run holds the claim of item `i`, and has not called the server yet unless `called`. */
    predicate InClaim(me: nat, seen: seq<ItemStatus>, i: nat, path: string, called: bool)
      reads this
    {
      me in sys.runs && match sys.runs[me]
                        case Armed(s, k, p, _) => s == seen && k == i && p == path
                        case Written(s, k, _) => s == seen && k == i && called
                        case _ => false
    }

    /** Commit one disposition that no remote write of this run stands behind. */
    method Settle(me: nat, i: nat, write: Write, ghost begin: Mark) returns (flow: Flow)
      requires Valid() && At(sys, me, i) && PlainWrite(write) && Since(setting, begin, sys, -1)
      requires write.status == Confirmed ==> IsReplayableKind(sys.world.ledger.kind)
      requires Well(setting, begin.sys) && Pends(sys, i) ==>
                 write.status == Confirmed && !write.expunge
                     && Desired(sys.world, i, FlagDesireOf(sys.world.ledger.kind).value)
      modifies this`sys, this`trace
      ensures Valid() && Since(setting, begin, sys, -1)
      ensures !flow.Off? && (flow.Dead? ==> me !in sys.runs)
      ensures flow.On? ==>
        InWork(me, old(sys).runs[me].seen) && |sys.world.ledger.items| == |old(sys).world.ledger.items|
            && !Pends(sys, i)
      ensures flow.On? ==> forall k :: 0 <= k < |sys.world.ledger.items| && !old(Pends(sys, k)) ==> !Pends(sys, k)
      ensures flow.On? && setting.peace.Calm? ==>
        Here() == Point(old(sys).world.(ledger := Commit(old(sys).world.ledger, i, write)),
                        old(trace) + [Dispose(me, i, write)])
    {
      hide Healthy, Agrees, Lawful, After;
      var alive := Await(me, begin, -1);
      if !alive { return Dead; }
      LedgerKeepsDisposed(sys.world.ledger, Dispose(me, i, write));
      Take(Dispose(me, i, write), begin, -1);
      return On;
    }

    /** Conflict one item. */
    method Refuse(me: nat, i: nat, reason: string, ghost begin: Mark) returns (flow: Flow)
      requires Valid() && At(sys, me, i) && Since(setting, begin, sys, -1)
      requires Well(setting, begin.sys) ==> !Pends(sys, i)
      modifies this`sys, this`trace
      ensures Valid() && Since(setting, begin, sys, -1)
      ensures !flow.Off? && (flow.Dead? ==> me !in sys.runs)
      ensures flow.On? ==>
        InWork(me, old(sys).runs[me].seen) && |sys.world.ledger.items| == |old(sys).world.ledger.items|
            && !Pends(sys, i)
      ensures flow.On? ==> forall k :: 0 <= k < |sys.world.ledger.items| && !old(Pends(sys, k)) ==> !Pends(sys, k)
      ensures flow.On? && setting.peace.Calm?
              && old(Parted(sys.world) && FateOf(sys.world, i) == Conflicts(reason)) ==>
                Drove(setting, old(Here()), Here(), {i})
    {
      hide Healthy, Agrees, Lawful, After, Onward, Falls, Drove, Parted, FateOf, Commit, Well;
      ghost var from := Here();
      flow := Settle(me, i, ConflictWrite(reason), begin);
      if flow.On? && setting.peace.Calm? && Parted(from.world) && FateOf(from.world, i) == Conflicts(reason) {
        ConflictEnds(setting, from, i, reason, Dispose(me, i, ConflictWrite(reason)));
      }
    }

    /** Confirm one item whose flag is as desired already. */
    method Confirm(me: nat, i: nat, remote: Observed, ghost begin: Mark) returns (flow: Flow)
      requires Valid() && At(sys, me, i) && Since(setting, begin, sys, -1) && IsReplayableKind(sys.world.ledger.kind)
      requires Well(setting, begin.sys) && Pends(sys, i) ==>
                 Desired(sys.world, i, FlagDesireOf(sys.world.ledger.kind).value)
      modifies this`sys, this`trace
      ensures Valid() && Since(setting, begin, sys, -1)
      ensures !flow.Off? && (flow.Dead? ==> me !in sys.runs)
      ensures flow.On? ==> InWork(me, old(sys).runs[me].seen) && i < |sys.world.ledger.items| && !Pends(sys, i)
      ensures flow.On? && setting.peace.Calm? && old(Parted(sys.world) && FateOf(sys.world, i) == Already)
              && Some(remote) == old(SeenFlags(setting, sys.world, i)) ==>
                Drove(setting, old(Here()), Here(), {i})
    {
      hide Healthy, Agrees, Lawful, After, Onward, Falls, Drove, Parted, FateOf, Commit;
      KindsPartition(sys.world.ledger.kind);
      ghost var from := Here();
      flow := Settle(me, i, NoopWrite(remote), begin);
      if flow.On? && setting.peace.Calm? && Parted(from.world) && FateOf(from.world, i) == Already
        && Some(remote) == SeenFlags(setting, from.world, i) {
        NoopEnds(setting, from, i, remote, Dispose(me, i, NoopWrite(remote)));
      }
    }

    /** Conflict the rest of a group. */
    method ConflictItems(me: nat, seen: seq<ItemStatus>, group: seq<nat>, reason: string, ghost begin: Mark)
      returns (flow: Flow)
      requires Valid() && me in sys.runs && |seen| == |sys.world.ledger.items| && Since(setting, begin, sys, -1)
      requires InWork(me, seen) || (group != [] && At(sys, me, group[0]) && sys.runs[me].seen == seen)
      requires forall k :: 0 <= k < |group| ==> group[k] < |seen| && PendingItem(seen[group[k]])
      requires group != [] ==> !Well(setting, begin.sys)
      modifies this`sys, this`trace
      ensures Valid() && Since(setting, begin, sys, -1)
      ensures !flow.Off? && (flow.Dead? ==> me !in sys.runs)
      ensures flow.On? ==> InWork(me, seen) && |seen| == |sys.world.ledger.items|
      ensures flow.On? ==> forall k :: 0 <= k < |group| ==> !Pends(sys, group[k])
      ensures flow.On? ==> forall k :: 0 <= k < |seen| && !old(Pends(sys, k)) ==> !Pends(sys, k)
      ensures flow.On? && setting.peace.Calm? && old(AllConflict(sys.world, group, reason)) ==>
        Drove(setting, old(Here()), Here(), Members(group))
    {
      hide Healthy, Agrees, Lawful, After, Onward, Falls, Drove, AllConflict;
      ghost var from := Here();
      if AllConflict(sys.world, group, reason) { NoConflictYet(setting, from, group, reason); }
      for k := 0 to |group|
        invariant setting.peace.Calm? && AllConflict(from.world, group, reason) ==>
                    Drove(setting, from, Here(), Members(group[..k]))
        invariant Valid() && Since(setting, begin, sys, -1) && |seen| == |sys.world.ledger.items|
        invariant InWork(me, seen) || (k == 0 && group != [] && At(sys, me, group[0]) && sys.runs[me].seen == seen)
        invariant forall j :: 0 <= j < k ==> !Pends(sys, group[j])
        invariant forall j :: 0 <= j < |seen| && !old(Pends(sys, j)) ==> !Pends(sys, j)
      {
        ghost var was, calm := Here(), setting.peace.Calm? && AllConflict(from.world, group, reason);
        if calm { ConflictNext(setting, from, was, group, k, reason); }
        flow := Refuse(me, group[k], reason, begin);
        if !flow.On? { return; }
        if calm { DroveNext(setting, from, was, Here(), group, k); }
      }
      assert group[..|group|] == group;
      return On;
    }

    // ---- the two-way executor ----

    /** The remote call of a claimed item. `reaches` is what the server does, known only through the answer. */
    method Call(me: nat, seen: seq<ItemStatus>, i: nat, path: string, op: RemoteOp, ghost begin: Mark)
      returns (alive: bool, answer: WriteAnswer, ghost reaches: bool)
      requires Valid() && InClaim(me, seen, i, path, false) && i < |sys.world.ledger.items|
               && Since(setting, begin, sys, i)
      requires Legal(sys, Remote(me, i, setting.session, op, false))
      requires Well(setting, begin.sys) ==>
        op.SetFlag? && WellStep(setting, sys, Remote(me, i, setting.session, op, true))
      modifies this`sys, this`trace
      ensures Valid() && Since(setting, begin, sys, i)
      ensures !alive ==> me !in sys.runs
      ensures alive ==> InClaim(me, seen, i, path, true) && sys.runs[me] == Written(seen, i, reaches)
      ensures alive && answer.Accepted? ==> reaches
      ensures alive && answer.Rejected? ==> !reaches
      ensures alive && Well(setting, begin.sys) ==> answer.Accepted? && DesiredNow(sys, i)
      ensures alive && setting.peace.Calm? ==>
        && (if Serves(old(sys).world, op) then answer.Accepted? else answer.Rejected?)
        && sys == Next(old(sys), Remote(me, i, setting.session, op, Serves(old(sys).world, op)))
        && reaches == Serves(old(sys).world, op) && CallsItem(old(trace), trace, i)
        && sys.world == if reaches then Called(old(sys).world, setting.session, path, i, op) else old(sys).world
    {
      hide Healthy, Agrees, Lawful, After, LedgerNext, WorldNext, MailboxNext, WellStep, CallsItem, Called;
      alive := Await(me, begin, i);
      reaches := false;
      if !alive { answer := Rejected; return; }
      answer := *;
      var hits: bool := *;
      if setting.peace.Calm? || !Serves(sys.world, op) {
        hits := Serves(sys.world, op);
        if setting.peace.Calm? || answer.Accepted? { answer := if hits then Accepted else Rejected; }
      }
      else if answer.Accepted? { hits := true; }
      else if answer.Rejected? { hits := false; }
      reaches := hits;
      if Well(setting, begin.sys) { WellWriteLands(setting, sys, Remote(me, i, setting.session, op, true)); }
      if setting.peace.Calm? {
        CallWorld(sys, Remote(me, i, setting.session, op, hits));
        OneCall(trace, Remote(me, i, setting.session, op, hits), i);
      }
      Take(Remote(me, i, setting.session, op, hits), begin, i);
    }

    /** Read one UID back; `None` when the read is lost. */
    method Readback(me: nat, i: nat, path: string, ghost begin: Mark)
      returns (alive: bool, shown: Option<Option<Observed>>)
      requires Valid() && me in sys.runs && i < |sys.world.ledger.items| && Since(setting, begin, sys, i)
      modifies this`sys, this`trace
      ensures Valid() && Since(setting, begin, sys, i)
      ensures !alive ==> me !in sys.runs
      ensures alive ==> me in sys.runs && sys.runs[me] == old(sys).runs[me] && i < |sys.world.ledger.items|
      ensures alive && shown.Some? ==> shown.value == FlagsAt(sys.world, i, path, setting.condstore)
      ensures alive && setting.peace.Calm? ==> sys == old(sys) && trace == old(trace) && shown.Some?
    {
      hide Healthy, Agrees, Lawful, After;
      alive := Await(me, begin, i);
      shown := None;
      if !alive { return; }
      var lost: bool := *;
      if lost && !setting.peace.Calm? { return; }
      shown := Some(FlagsAt(sys.world, i, path, setting.condstore));
    }

    /** What the executor concludes from a write answer and the flags read back after it. */
    method JudgeFlags(answer: WriteAnswer, shown: Option<Option<Observed>>, conditional: bool, desire: FlagDesire,
                      remote: Observed)
      returns (outcome: ExecutorOutcome)
      ensures outcome.OutcomeConfirmed? ==> outcome.movedTo.None?
      ensures outcome.OutcomeConfirmed? <==>
                && (answer.Accepted? || answer.Rejected?) && shown.Some? && shown.value.Some?
                && (FlagOf(shown.value.value, desire.flag) == desire.value || (answer.Accepted? && !conditional))
      ensures outcome.OutcomeConfirmed? ==> shown == Some(Some(outcome.observed))
      ensures outcome.OutcomeFailed? ==> answer.Rejected?
      ensures outcome == OutcomeConflicted("absent_remote", remote) ==> answer.Rejected?
      ensures outcome.OutcomeConflicted? && outcome.reason == "condstore_rejected" ==>
                conditional && shown == Some(Some(outcome.observed))
                    && FlagOf(outcome.observed, desire.flag) != desire.value
      ensures outcome.OutcomeConflicted? && answer.Accepted? ==> outcome.reason == "condstore_rejected"
      ensures outcome.OutcomeUnknown? <==>
                answer.Uncertain? || answer.Thrown? || shown.None? || (shown.value.None? && answer.Accepted?)
    {
      if answer.Thrown? {
        return OutcomeUnknown(answer.what, None);
      }
      if answer.Uncertain? {
        return OutcomeUnknown(answer.why, None);
      }
      if shown.None? {
        return OutcomeUnknown("The write could not be read back.", Some(remote));
      }
      if shown.value.None? {
        return if answer.Accepted?
            then OutcomeUnknown("The target left the folder before the write could be read back.", Some(remote))
               else OutcomeConflicted("absent_remote", remote);
      }
      var readback := shown.value.value;
      if FlagOf(readback, desire.flag) == desire.value {
        return OutcomeConfirmed(readback, None);
      }
      if answer.Rejected? && !conditional {
        return OutcomeFailed("write_rejected");
      }
      if answer.Accepted? && !conditional {
        return OutcomeConfirmed(readback, None);
      }
      return OutcomeConflicted(if conditional then "condstore_rejected" else "write_rejected", readback);
    }

    /** The flag write of a claimed item and, after a definite answer, its readback. */
    method WriteFlag(me: nat, seen: seq<ItemStatus>, i: nat, path: string, desire: FlagDesire, condition: Option<nat>,
                     ghost begin: Mark)
      returns (alive: bool, answer: WriteAnswer, shown: Option<Option<Observed>>, ghost reaches: bool)
      requires Valid() && InClaim(me, seen, i, path, false) && i < |sys.world.ledger.items|
               && Since(setting, begin, sys, i)
      requires FlagDesireOf(sys.world.ledger.kind) == Some(desire) && TargetPath(sys.world, i) == Some(path)
      requires condition == Condition(sys.world, i, setting.condstore)
      modifies this`sys, this`trace
      ensures Valid() && Since(setting, begin, sys, i)
      ensures !alive ==> me !in sys.runs
      ensures alive ==> InClaim(me, seen, i, path, true)
      ensures alive && answer.Accepted? ==> reaches
      ensures alive && answer.Rejected? ==> !reaches
      ensures alive && Well(setting, begin.sys) ==> answer.Accepted? && DesiredNow(sys, i) && Shows(shown, desire)
      ensures alive && setting.peace.Calm? ==>
        && answer.Accepted? && shown == Some(FlagsAt(sys.world, i, path, setting.condstore))
        && sys.world == Called(old(sys).world, setting.session, path, i, SetFlag(desire.flag, desire.value, condition))
        && CallsItem(old(trace), trace, i)
      ensures alive && setting.peace.Calm? && old(ToBeWritten(sys.world, i, desire, setting.condstore)) ==>
        && answer.Accepted? && shown.Some? && shown.value.Some?
        && (DesiredNow(sys, i) <==> Sound(setting.session, desire.flag))
        && (Shows(shown, desire) <==> Sound(setting.session, desire.flag))
    {
      hide Healthy, Agrees, Lawful, After, Next, ToBeWritten, Sound, FlagsAt, DesiredNow, WellStep, Called, CallsItem;
      if Well(setting, begin.sys) { WellWrite(setting, sys, me, i, path, desire); }
      ghost var judged := setting.peace.Calm? && ToBeWritten(sys.world, i, desire, setting.condstore);
      if judged { WriteShows(sys, me, i, path, setting.session, desire, setting.condstore); }
      shown := None;
      alive, answer, reaches := Call(me, seen, i, path, SetFlag(desire.flag, desire.value, condition), begin);
      if alive && (answer.Accepted? || answer.Rejected?) {
        if Well(setting, begin.sys) { DesiredShows(sys, i, path, setting.condstore); }
        alive, shown := Readback(me, i, path, begin);
      }
    }

    /** One explicit flag assignment and the readback that decides its receipt. */
    method ApplyFlags(me: nat, seen: seq<ItemStatus>, i: nat, path: string, desire: FlagDesire, remote: Observed,
                      ghost begin: Mark)
      returns (alive: bool, outcome: ExecutorOutcome, ghost reaches: bool)
      requires Valid() && InClaim(me, seen, i, path, false) && i < |sys.world.ledger.items|
               && Since(setting, begin, sys, i)
      requires FlagDesireOf(sys.world.ledger.kind) == Some(desire) && TargetPath(sys.world, i) == Some(path)
      modifies this`sys, this`trace
      ensures Valid() && Since(setting, begin, sys, i)
      ensures !alive ==> me !in sys.runs
      ensures alive ==> InClaim(me, seen, i, path, true)
      ensures alive && outcome.OutcomeConfirmed? ==> outcome.movedTo.None?
      ensures alive && outcome.OutcomeFailed? ==> !reaches
      ensures alive && outcome == OutcomeConflicted("absent_remote", remote) ==> !reaches
      ensures alive && Well(setting, begin.sys) ==> outcome.OutcomeConfirmed? && DesiredNow(sys, i)
      ensures alive && setting.peace.Calm? && old(ToBeWritten(sys.world, i, desire, setting.condstore)) ==>
        && (DesiredNow(sys, i) <==> Sound(setting.session, desire.flag))
        && (outcome.OutcomeConfirmed? <==>
            Sound(setting.session, desire.flag) || Condition(old(sys).world, i, setting.condstore).None?)
        && (!outcome.OutcomeConfirmed? ==> outcome.OutcomeConflicted? && outcome.reason == "condstore_rejected")
      ensures alive && setting.peace.Calm? ==>
        Answered(setting, old(sys).world, sys.world, i, path, remote, outcome) && CallsItem(old(trace), trace, i)
    {
      hide Healthy, Agrees, Lawful, After, Onward, Falls, ToBeWritten, Sound, DesiredNow, FlagsAt;
      var captured := sys.world.ledger.items[i].target.modseq;
      var conditional := setting.condstore && captured.Some?;
      var condition := if conditional then captured else None;
      var answer, shown;
      alive, answer, shown, reaches := WriteFlag(me, seen, i, path, desire, condition, begin);
      outcome := JudgeFlags(answer, shown, conditional, desire, remote);
    }

    /** One move, `MOVE` only; a lost answer stays unknown and nothing replays it. */
    method ApplyMove(me: nat, seen: seq<ItemStatus>, i: nat, path: string, folder: string, remote: Observed,
                     ghost begin: Mark)
      returns (alive: bool, outcome: ExecutorOutcome, ghost reaches: bool)
      requires Valid() && InClaim(me, seen, i, path, false) && i < |sys.world.ledger.items|
               && Since(setting, begin, sys, i)
      requires RequiresDestination(sys.world.ledger.kind) && DestinationPath(sys.world) == Some(folder)
      modifies this`sys, this`trace
      ensures Valid() && Since(setting, begin, sys, i)
      ensures !alive ==> me !in sys.runs
      ensures alive ==> InClaim(me, seen, i, path, true)
      ensures alive && outcome.OutcomeConfirmed? ==>
        reaches && sys.runs[me] == Written(seen, i, true) && outcome.movedTo.Some?
            && outcome.movedTo.value.folder == folder
      ensures alive && outcome.OutcomeFailed? ==> !reaches
      ensures alive ==> !outcome.OutcomeConflicted?
      ensures alive && setting.peace.Calm? ==>
        Answered(setting, old(sys).world, sys.world, i, path, remote, outcome) && CallsItem(old(trace), trace, i)
      ensures alive && setting.peace.Calm? && outcome.OutcomeConfirmed? && old(Tidy(sys.world.mailbox))
              && old(MessageAt(sys.world.mailbox, path, sys.world.ledger.items[i].target.uid)).Some? ==>
                folder in old(sys).world.mailbox
                    && Relocated(old(sys).world.mailbox, sys.world.mailbox, path,
                                 old(sys).world.ledger.items[i].target.uid, folder)
    {
      hide Healthy, Agrees, Lawful, After, Falls, Perform, Tidy, Relocated;
      KindsPartition(sys.world.ledger.kind);
      reaches := false;
      if !setting.move {
        alive, outcome := true, OutcomeFailed("move_unsupported");
        return;
      }
      var answer;
      ghost var before := sys;
      var coordinates := NextPlace(sys.world, folder);
      alive, answer, reaches := Call(me, seen, i, path, MoveTo(folder), begin);
      if alive && setting.peace.Calm? && reaches && Tidy(before.world.mailbox)
        && MessageAt(before.world.mailbox, path, before.world.ledger.items[i].target.uid).Some? {
        MoveRelocates(setting.session, before.world.mailbox, path, before.world.ledger.items[i].target.uid, folder);
      }
      if !setting.peace.Calm? { coordinates := *; }
      var reported: bool := *;
      var landing := if reported then Landing(folder, coordinates.0, coordinates.1) else Landing(folder, None, None);
      outcome := match answer
        case Accepted => OutcomeConfirmed(remote, Some(landing))
        case Rejected => OutcomeFailed("move_rejected")
        case Uncertain(why) => OutcomeUnknown(why, None)
        case Thrown(what) => OutcomeUnknown(what, None);
    }

    /** The executor: capabilities first, then the one write path of the kind. */
    method Apply(me: nat, seen: seq<ItemStatus>, i: nat, path: string, folder: string, remote: Observed,
                 ghost begin: Mark)
      returns (alive: bool, outcome: ExecutorOutcome, ghost reaches: bool)
      requires Valid() && InClaim(me, seen, i, path, false) && i < |sys.world.ledger.items|
               && Since(setting, begin, sys, i)
      requires TargetPath(sys.world, i) == Some(path) && GoesTo(sys.world, folder)
      modifies this`sys, this`trace
      ensures Valid() && Since(setting, begin, sys, i)
      ensures !alive ==> me !in sys.runs
      ensures alive ==> InClaim(me, seen, i, path, true)
      ensures alive && outcome.OutcomeConfirmed? && RequiresDestination(sys.world.ledger.kind) ==>
        sys.runs[me] == Written(seen, i, true) && outcome.movedTo.Some? && outcome.movedTo.value.folder == folder
      ensures alive && outcome.OutcomeFailed? ==> !reaches
      ensures alive && outcome == OutcomeConflicted("absent_remote", remote) ==> !reaches
      ensures alive && outcome.OutcomeConfirmed? ==>
        (outcome.movedTo.Some? <==> RequiresDestination(begin.sys.world.ledger.kind))
      ensures alive && Well(setting, begin.sys) ==>
        outcome.OutcomeConfirmed? && outcome.movedTo.None? && DesiredNow(sys, i)
      ensures alive && setting.peace.Calm? ==>
        Answered(setting, old(sys).world, sys.world, i, path, remote, outcome) && CallsItem(old(trace), trace, i)
    {
      hide Healthy, Agrees, Lawful, After, Falls, Answered, CallsItem, ToBeWritten;
      KindsPartition(sys.world.ledger.kind);
      reaches := false;
      var unreadable: bool := *;
      if unreadable && !setting.peace.Calm? {
        alive, outcome := true, OutcomeFailed("capability_error");
        return;
      }
      match FlagDesireOf(sys.world.ledger.kind) {
        case Some(desire) => alive, outcome, reaches := ApplyFlags(me, seen, i, path, desire, remote, begin);
        case None => alive, outcome, reaches := ApplyMove(me, seen, i, path, folder, remote, begin);
      }
    }

    /** Commit the receipt of the claim this run holds; it replaces the hold another run may have guessed. */
    method CommitReceipt(me: nat, seen: seq<ItemStatus>, i: nat, path: string, outcome: ExecutorOutcome,
                         ghost begin: Mark) returns (flow: Flow)
      requires Valid() && InClaim(me, seen, i, path, true) && i < |sys.world.ledger.items|
               && Since(setting, begin, sys, i)
      requires Well(setting, begin.sys) ==> outcome.OutcomeConfirmed? && outcome.movedTo.None? && DesiredNow(sys, i)
      requires outcome.OutcomeConfirmed? && RequiresDestination(sys.world.ledger.kind) ==>
                 sys.runs[me] == Written(seen, i, true)
      modifies this`sys, this`trace
      ensures Valid() && Since(setting, begin, sys, i)
      ensures !flow.Off? && (flow.Dead? ==> me !in sys.runs)
      ensures flow.On? ==> InWork(me, seen) && i < |sys.world.ledger.items| && !Pends(sys, i)
      ensures flow.On? && setting.peace.Calm? ==>
        Here() == Point(old(sys).world.(ledger := Commit(old(sys).world.ledger, i, ReceiptOf(outcome))),
                        old(trace) + [Step.CommitReceipt(me, i, ReceiptOf(outcome))])
    {
      hide Healthy, Agrees, Lawful, After, Onward, Falls, Commit, ReceiptOf;
      var alive := Await(me, begin, i);
      if !alive { return Dead; }
      SinceKeepsItems(setting, Mark(old(sys), {}), sys, -1);
      ReceiptDisposes(sys.world.ledger, i, outcome);
      Take(Step.CommitReceipt(me, i, ReceiptOf(outcome)), begin, i);
      return On;
    }

    /** The claim: one guarded update from queued to executing. */
    method MarkExecuting(me: nat, seen: seq<ItemStatus>, i: nat, path: string, generation: nat, ghost begin: Mark)
      returns (flow: Flow, claimed: bool)
      requires Valid() && InCheck(me, seen, i, path, generation) && At(sys, me, i) && Since(setting, begin, sys, i)
      requires generation == sys.world.ledger.items[i].target.uidValidity
      modifies this`sys, this`trace
      ensures Valid() && Since(setting, begin, sys, i)
      ensures !flow.Off? && (flow.Dead? ==> me !in sys.runs)
      ensures flow.On? && (claimed || seen[i] == Executing) ==> InClaim(me, seen, i, path, false)
      ensures flow.On? && !claimed && seen[i] != Executing ==> InWork(me, seen)
      ensures flow.On? && !claimed && !setting.peace.Open?
              && (old(sys).world.ledger.items[i].status == Queued || !old(Pends(sys, i))) ==>
                i < |sys.world.ledger.items| && !Pends(sys, i)
      ensures flow.On? && setting.peace.Calm? ==>
        && claimed == (old(sys).world.ledger.items[i].status == Queued)
        && Here() == Point(old(sys).world.(ledger := Claim(old(sys).world.ledger, i)), old(trace) + [ClaimItem(me, i)])
    {
      hide Healthy, Agrees, Lawful, After;
      claimed := false;
      var alive := Await(me, begin, i);
      if !alive { return Dead, false; }
      claimed := sys.world.ledger.items[i].status == Queued;
      Take(ClaimItem(me, i), begin, i);
      flow := On;
    }

    /** The remote write of a claimed item and its receipt. */
    method ApplyAndCommit(me: nat, seen: seq<ItemStatus>, i: nat, path: string, folder: string, remote: Observed,
                          ghost begin: Mark)
      returns (flow: Flow, ghost written: World, ghost outcome: ExecutorOutcome)
      requires Valid() && InClaim(me, seen, i, path, false) && i < |sys.world.ledger.items|
               && Since(setting, begin, sys, i)
      requires TargetPath(sys.world, i) == Some(path) && GoesTo(sys.world, folder)
      modifies this`sys, this`trace
      ensures Valid() && Since(setting, begin, sys, i)
      ensures !flow.Off? && (flow.Dead? ==> me !in sys.runs)
      ensures flow.On? ==> InWork(me, seen) && Since(setting, begin, sys, -1) && !Pends(sys, i)
      ensures flow.On? && setting.peace.Calm? ==>
        && Answered(setting, old(sys).world, written, i, path, remote, outcome)
        && sys.world == written.(ledger := Commit(written.ledger, i, ReceiptOf(outcome)))
        && CallsItem(old(trace), trace, i)
    {
      hide Healthy, Agrees, Lawful, After, Answered, Commit;
      var alive, answered, _ := Apply(me, seen, i, path, folder, remote, begin);
      written, outcome := sys.world, answered;
      if !alive { return Dead, written, outcome; }
      flow := CommitReceipt(me, seen, i, path, answered, begin);
    }

    /** The recovery state once more, then the write of a claimed item. */
    method ApplyClaimed(me: nat, seen: seq<ItemStatus>, i: nat, path: string, folder: string, remote: Observed,
                        ghost begin: Mark)
      returns (flow: Flow, ghost written: World, ghost outcome: ExecutorOutcome)
      requires Valid() && InClaim(me, seen, i, path, false) && i < |sys.world.ledger.items|
               && Since(setting, begin, sys, i)
      requires TargetPath(sys.world, i) == Some(path) && GoesTo(sys.world, folder)
      modifies this`sys, this`trace
      ensures Valid() && Since(setting, begin, sys, i)
      ensures flow.On? ==> InWork(me, seen) && Since(setting, begin, sys, -1) && !Pends(sys, i)
      ensures flow.Off? ==> me in sys.runs && flow.verdict != Go && !Well(setting, begin.sys)
      ensures flow.Dead? ==> me !in sys.runs
      ensures flow.On? && setting.peace.Calm? ==>
        && Answered(setting, old(sys).world, written, i, path, remote, outcome)
        && sys.world == written.(ledger := Commit(written.ledger, i, ReceiptOf(outcome)))
        && CallsItem(old(trace), trace, i)
    {
      hide Healthy, Agrees, Lawful, After, Answered, Commit, CallsItem, ReceiptOf, Well;
      written, outcome := sys.world, OutcomeFailed("");
      var alive := Await(me, begin, i);
      if !alive { return Dead, written, outcome; }
      if sys.world.verdict != Go {
        StoppedIsNotWell(setting, begin, sys, i);
        return Off(sys.world.verdict), written, outcome;
      }
      flow, written, outcome := ApplyAndCommit(me, seen, i, path, folder, remote, begin);
    }

    /** Claim, recheck the recovery state, apply, commit the receipt. */
    method ClaimAndApply(me: nat, seen: seq<ItemStatus>, i: nat, path: string, generation: nat, folder: string,
                         remote: Observed, ghost begin: Mark)
      returns (flow: Flow)
      requires Valid() && InCheck(me, seen, i, path, generation) && At(sys, me, i) && Tracks(setting, sys, seen, i)
      requires Since(setting, begin, sys, -1)
      requires generation == sys.world.ledger.items[i].target.uidValidity && TargetPath(sys.world, i) == Some(path)
      requires GoesTo(sys.world, folder)
      modifies this`sys, this`trace
      ensures Valid() && Since(setting, begin, sys, i)
      ensures flow.On? ==>
        InWork(me, seen) && Since(setting, begin, sys, -1) && (!setting.peace.Open? ==> !Pends(sys, i))
      ensures flow.Off? ==> me in sys.runs && flow.verdict != Go && !Well(setting, begin.sys)
      ensures flow.Dead? ==> me !in sys.runs
      ensures flow.On? && setting.peace.Calm? && old(Parted(sys.world) && FateOf(sys.world, i).Writes?)
              && Some(remote) == old(SeenFlags(setting, sys.world, i)) ==>
                Drove(setting, old(Here()), Here(), {i})
    {
      hide Healthy, Agrees, Lawful, After, Drove, Parted, Answered, FlagsAt, Claim, Commit, ReceiptOf, ViewOf, Well,
          FateOf;
      ghost var from := Here();
      WritesPends(sys.world, i);
      var claimed;
      flow, claimed := MarkExecuting(me, seen, i, path, generation, begin);
      if !flow.On? || (!claimed && seen[i] != Executing) { return; }
      ghost var written, outcome;
      flow, written, outcome := ApplyClaimed(me, seen, i, path, folder, remote, begin);
      if flow.On? && setting.peace.Calm? && Parted(from.world) && FateOf(from.world, i).Writes?
        && Some(remote) == SeenFlags(setting, from.world, i) {
        WriteEnds(setting, from, Here(), written, i, path, remote, outcome);
      }
    }

    /** One item of a group whose generation was just checked. */
    method ExecuteItem(me: nat, seen: seq<ItemStatus>, i: nat, path: string, generation: nat, folder: string,
                       remote: Option<Observed>, ghost begin: Mark)
      returns (flow: Flow)
      requires Valid() && InCheck(me, seen, i, path, generation) && At(sys, me, i) && Tracks(setting, sys, seen, i)
      requires Since(setting, begin, sys, -1) && TargetPath(sys.world, i) == Some(path) && GoesTo(sys.world, folder)
      requires Well(setting, begin.sys) ==>
                 && generation == sys.world.ledger.items[i].target.uidValidity
                 && remote.Some? && TellsDesired(sys.world, i, remote.value)
      modifies this`sys, this`trace
      ensures Valid() && Since(setting, begin, sys, i)
      ensures flow.On? ==>
        InWork(me, seen) && Since(setting, begin, sys, -1) && (!setting.peace.Open? ==> !Pends(sys, i))
      ensures flow.Off? ==> me in sys.runs && flow.verdict != Go && !Well(setting, begin.sys)
      ensures flow.Dead? ==> me !in sys.runs
      ensures flow.On? && setting.peace.Calm?
              && old(Parted(sys.world) && ReadNow(setting, sys.world, i, path, generation, remote)) ==>
                Drove(setting, old(Here()), Here(), {i})
    {
      hide Healthy, Agrees, Lawful, After, Drove, Parted, FateOf, ReadNow, Well, SeenFlags, FlagsAt;
      if setting.peace.Calm? && ReadNow(setting, sys.world, i, path, generation, remote) {
        ReadDecides(setting, sys.world, i, path, generation, remote);
      }
      if remote.None? {
        flow := Refuse(me, i, "absent_remote", begin);
        return;
      }
      var alive := Await(me, begin, -1);
      if !alive { return Dead; }
      if Well(setting, begin.sys) { WellItem(setting, begin, sys, i, generation); }
      var desire := FlagDesireOf(sys.world.ledger.kind);
      KindsPartition(sys.world.ledger.kind);
      var conflict := RowConflict(sys.world, i, generation);
      if conflict.Some? {
        flow := Refuse(me, i, conflict.value, begin);
        return;
      }
      if desire.Some? && FlagOf(remote.value, desire.value.flag) == desire.value.value {
        flow := Confirm(me, i, remote.value, begin);
        return;
      }
      conflict := StaleConflict(sys.world, i);
      if conflict.Some? {
        flow := Refuse(me, i, conflict.value, begin);
        return;
      }
      flow := ClaimAndApply(me, seen, i, path, generation, folder, remote.value, begin);
    }
  
    // ---- one folder group ----

    /** Select the folder again and read its generation; a folder that is gone throws. */
    method Recheck(me: nat, seen: seq<ItemStatus>, i: nat, path: string, ghost here: Mark)
      returns (alive: bool, generation: nat)
      requires Valid() && InWork(me, seen) && Since(setting, here, sys, -1)
      requires At(sys, me, i) && Tracks(setting, sys, seen, i) && TargetPath(sys.world, i) == Some(path)
      modifies this`sys, this`trace
      ensures Valid() && Since(setting, here, sys, -1)
      ensures alive ==>
        InCheck(me, seen, i, path, generation) && SameAction(old(sys), sys) && Tracks(setting, sys, seen, i)
      ensures alive && setting.peace.Calm? ==>
        && sys.world == old(sys).world && path in sys.world.mailbox
        && generation == sys.world.mailbox[path].uidValidity && trace == old(trace) + [Revalidate(me, i)]
      ensures !alive ==> me !in sys.runs
    {
      hide Healthy, Agrees, Lawful, After;
      generation := 0;
      alive := Await(me, here, -1);
      if !alive { return; }
      if path !in sys.world.mailbox {
        Take(Stop(me), here, -1);
        alive := false;
        return;
      }
      generation := sys.world.mailbox[path].uidValidity;
      Take(Revalidate(me, i), here, -1);
    }

    /** The items of a group from `k` on, whose generation is checked one by one. */
    method ExecuteChecked(me: nat, seen: seq<ItemStatus>, group: seq<nat>, k: nat, path: string, recorded: nat,
                          folder: string,
                          remotes: map<nat, Observed>, ghost here: Mark) returns (flow: Flow, ended: bool)
      requires Valid() && InWork(me, seen) && IsGroup(sys, seen, group) && k < |group| && Since(setting, here, sys, -1)
      requires Tracks(setting, sys, seen, group[k]) && TargetPath(sys.world, group[k]) == Some(path)
      requires GoesTo(sys.world, folder)
      requires Well(setting, here.sys) ==> GroupReads(sys.world, group, path, recorded, remotes)
      modifies this`sys, this`trace
      ensures Valid() && Onward(setting, here.sys, sys)
      ensures flow.On? ==> Since(setting, here, sys, -1) && InWork(me, seen) && |seen| == |sys.world.ledger.items|
      ensures flow.On? && !setting.peace.Open? ==> !Pends(sys, group[k])
      ensures flow.On? && ended ==> forall j :: k <= j < |group| ==> !Pends(sys, group[j])
      ensures flow.Off? ==> me in sys.runs && flow.verdict != Go && !Well(setting, here.sys)
      ensures flow.Dead? ==> me !in sys.runs
      ensures flow.On? && setting.peace.Calm?
              && old(Parted(sys.world) && group[k] < |sys.world.ledger.items|
                     && ReadNow(setting, sys.world, group[k], path, recorded, RemoteOf(remotes, group[k]))) ==>
                !ended && Drove(setting, old(Here()), Here(), {group[k]})
    {
      WellIsCalm(setting, here.sys);
      hide Healthy, Agrees, Lawful, After, Drove, Parted, ReadNow, Well;
      ended := false;
      ghost var from := Here();
      var alive, generation := Recheck(me, seen, group[k], path, here);
      if !alive { return Dead, false; }
      ghost var checked, current := Here(), setting.peace.Calm? && Parted(sys.world)
        && ReadNow(setting, sys.world, group[k], path, recorded, RemoteOf(remotes, group[k]));
      if current { CheckedNow(setting, from, checked, group[k], path, recorded, RemoteOf(remotes, group[k])); }
      if generation != recorded {
        flow := ConflictItems(me, seen, group[k..], "generation_changed", here);
        assert forall j :: k <= j < |group| ==> group[j] == group[k..][j - k];
        return flow, true;
      }
      flow := ExecuteItem(me, seen, group[k], path, generation, folder, RemoteOf(remotes, group[k]), here);
      if current && flow.On? { DroveAfter(setting, from, checked, Here(), {group[k]}); }
    }
  
    /** Select the folder, check its generation, refresh the flags, then drive each item. */
    method ExecuteFolderGroup(me: nat, seen: seq<ItemStatus>, group: seq<nat>, folder: string) returns (flow: Flow)
      requires Valid() && InWork(me, seen) && IsGroup(sys, seen, group)
      requires forall k :: 0 <= k < |group| ==> Tracks(setting, sys, seen, group[k])
      requires GoesTo(sys.world, folder)
      modifies this`sys, this`trace
      ensures Valid() && Onward(setting, old(sys), sys)
      ensures flow.On? ==>
        Since(setting, Mark(old(sys), {}), sys, -1) && InWork(me, seen) && |seen| == |sys.world.ledger.items|
      ensures flow.On? && !setting.peace.Open? ==> forall k :: 0 <= k < |group| ==> !Pends(sys, group[k])
      ensures flow.Off? ==> me in sys.runs && flow.verdict != Go && !Well(setting, old(sys))
      ensures flow.Dead? ==> me !in sys.runs
      ensures flow.On? && setting.peace.Calm? && old(Listed(sys.world, group)) ==>
        Drove(setting, old(Here()), Here(), Members(group))
    {
      hide Healthy, Agrees, Lawful, After, LedgerNext, Legal, Drove, Listed, GroupReadNow, AllConflict, Parted;
      ghost var here := Mark(sys, {});
      SinceReflexive(setting, sys);
      var alive := Await(me, here, -1);
      if !alive { return Dead; }
      if Well(setting, here.sys) { WellGroup(setting, sys, group); }
      if setting.peace.Calm? && Listed(sys.world, group) { GroupDecides(setting, sys.world, group); }
      var folderId := sys.world.ledger.items[group[0]].target.folder;
      if folderId !in sys.world.folders || folderId !in sys.world.names {
        flow := ConflictItems(me, seen, group, "folder_removed", here);
        return;
      }
      if sys.world.folders[folderId].None? {
        flow := ConflictItems(me, seen, group, "folder_uninitialized", here);
        return;
      }
      flow := ExecuteSelected(me, seen, group, sys.world.names[folderId], sys.world.folders[folderId].value, folder,
                              here);
    }

    /** The part of a group after its folder row is known: the server's generation, the refresh, the items. */
    method ExecuteSelected(me: nat, seen: seq<ItemStatus>, group: seq<nat>, path: string, recorded: nat,
                           folder: string, ghost here: Mark) returns (flow: Flow)
      requires Valid() && InWork(me, seen) && Since(setting, here, sys, -1) && here.done == {}
      requires setting.peace.Calm? ==> sys == here.sys
      requires GroupAt(setting, here.sys, seen, group, path) && GoesTo(here.sys.world, folder)
      requires Well(setting, here.sys) ==>
                 GroupReads(here.sys.world, group, path, recorded,
                            RemoteFlags(here.sys.world, path, group, setting.condstore))
      modifies this`sys, this`trace
      ensures Valid() && Onward(setting, here.sys, sys)
      ensures flow.On? ==> Since(setting, here, sys, -1) && InWork(me, seen) && |seen| == |sys.world.ledger.items|
      ensures flow.On? && !setting.peace.Open? ==> forall k :: 0 <= k < |group| ==> !Pends(sys, group[k])
      ensures flow.Off? ==> me in sys.runs && flow.verdict != Go && !Well(setting, here.sys)
      ensures flow.Dead? ==> me !in sys.runs
      ensures flow.On? && setting.peace.Calm? && old(GroupStarts(setting, sys.world, group, path, recorded)) ==>
        Drove(setting, old(Here()), Here(), Members(group))
    {
      WellIsCalm(setting, here.sys);
      hide Healthy, Agrees, Lawful, After, LedgerNext, Drove, GroupReadNow, AllConflict, Well, RemoteFlags;
      var alive := Await(me, here, -1);
      if !alive { return Dead; }
      if path !in sys.world.mailbox {
        Take(Stop(me), here, -1);
        return Dead;
      }
      if sys.world.mailbox[path].uidValidity != recorded {
        flow := ConflictItems(me, seen, group, "generation_changed", here);
        return;
      }
      alive := Await(me, here, -1);
      if !alive { return Dead; }
      flow := ExecuteItems(me, seen, group, path, recorded, folder,
                           RemoteFlags(sys.world, path, group, setting.condstore), here);
    }

    /** The loop over the items of one refreshed group. */
    method ExecuteItems(me: nat, seen: seq<ItemStatus>, group: seq<nat>, path: string, recorded: nat, folder: string,
                        remotes: map<nat, Observed>, ghost here: Mark) returns (flow: Flow)
      requires Valid() && InWork(me, seen) && Since(setting, here, sys, -1) && here.done == {}
      requires GroupAt(setting, here.sys, seen, group, path) && GoesTo(here.sys.world, folder)
      requires Well(setting, here.sys) ==> GroupReads(here.sys.world, group, path, recorded, remotes)
      modifies this`sys, this`trace
      ensures Valid() && Onward(setting, here.sys, sys)
      ensures flow.On? ==> Since(setting, here, sys, -1) && InWork(me, seen) && |seen| == |sys.world.ledger.items|
      ensures flow.On? && !setting.peace.Open? ==> forall k :: 0 <= k < |group| ==> !Pends(sys, group[k])
      ensures flow.Off? ==> me in sys.runs && flow.verdict != Go && !Well(setting, here.sys)
      ensures flow.Dead? ==> me !in sys.runs
      ensures flow.On? && setting.peace.Calm?
              && old(GroupReadNow(setting, sys.world, group, path, recorded, remotes)) ==>
        Drove(setting, old(Here()), Here(), Members(group))
    {
      hide Healthy, Agrees, Lawful, After, Falls, Onward, Well, Drove, GroupReadNow, Parted, ReadNow, Ascends;
      ghost var now, from := here, Here();
      ghost var current := setting.peace.Calm? && GroupReadNow(setting, sys.world, group, path, recorded, remotes);
      if current { NothingRead(setting, from, group, path, recorded, remotes); }
      for k := 0 to |group|
        invariant current ==> Drove(setting, from, Here(), Members(group[..k]))
        invariant Valid() && InWork(me, seen) && Since(setting, now, sys, -1) && now.sys == here.sys
        invariant !setting.peace.Open? ==> forall j :: 0 <= j < k ==> group[j] in now.done
      {
        GroupStands(setting, now, sys, seen, group, path, recorded, remotes, folder);
        ghost var was := Here();
        if current { ReadStands(setting, from, was, group, k, path, recorded, remotes); }
        var ended;
        flow, ended := ExecuteChecked(me, seen, group, k, path, recorded, folder, remotes, now);
        if !flow.On? { return; }
        if current { DroveNext(setting, from, was, Here(), group, k); }
        if ended {
          DoneStands(setting, now, sys, here);
          return;
        }
        if !setting.peace.Open? { now := Mark(now.sys, now.done + {group[k]}); }
      }
      GroupStands(setting, now, sys, seen, group, path, recorded, remotes, folder);
      DoneStands(setting, now, sys, here);
      assert group[..|group|] == group;
      return On;
    }
  
    // ---- one run ----

    /** Hold one claim found in flight. */
    method HoldOne(me: nat, seen: seq<ItemStatus>, i: nat, ghost begin: Mark) returns (alive: bool)
      requires Valid() && me in sys.runs && sys.runs[me] == Holding(seen) && Since(setting, begin, sys, -1)
      requires i < |seen| && seen[i] == Executing && !IsReplayableKind(sys.world.ledger.kind)
      requires ClaimsFrom(setting, sys, seen, i)
      modifies this`sys, this`trace
      ensures Valid() && Since(setting, begin, sys, -1)
      ensures !alive ==> me !in sys.runs
      ensures alive ==>
        me in sys.runs && sys.runs[me] == Holding(seen) && sys.world.ledger.kind == old(sys).world.ledger.kind
      ensures alive ==> ClaimsFrom(setting, sys, seen, i + 1)
      ensures alive && setting.peace.Calm? ==>
        Here() == Point(old(sys).world.(ledger := Commit(old(sys).world.ledger, i, INTERRUPTED_HOLD)),
                        old(trace) + [Hold(me, i)])
    {
      hide Healthy, Agrees, Lawful, After;
      alive := Await(me, begin, -1);
      if !alive { return; }
      ClaimsStand(setting, old(sys), sys, seen, i);
      HoldClears(setting, me, sys, seen, i);
      Take(Hold(me, i), begin, -1);
    }

    /** Hold every claim of a move found in flight: its outcome is not ours to guess. */
    method HoldInterrupted(me: nat, ghost begin: Mark) returns (alive: bool)
      requires Valid() && me in sys.runs && sys.runs[me].Loaded? && Since(setting, begin, sys, -1)
      modifies this`sys, this`trace
      ensures Valid() && Since(setting, begin, sys, -1)
      ensures !alive ==> me !in sys.runs
      ensures alive ==> me in sys.runs && sys.runs[me].Holding?
      ensures alive && !setting.peace.Open? ==> !MeetsClaim(sys.world.ledger)
      ensures alive && setting.peace.Calm? && old(Parted(sys.world)) ==>
        Drove(setting, old(Here()), Here(), ClaimedBelow(old(sys).world, |old(sys).world.ledger.items|))
    {
      hide Healthy, Agrees, Lawful, After, Falls, Drove, Parted, Commit, FateOf, ViewOf, ClaimedBelow;
      alive := Await(me, begin, -1);
      if !alive { return; }
      ghost var from := Here();
      Take(LoadForHold(me), begin, -1);
      var seen, kind := Statuses(sys.world.ledger.items), sys.world.ledger.kind;
      ghost var current := setting.peace.Calm? && Parted(from.world);
      if current { NothingHeld(setting, from, Here()); }
      if IsReplayableKind(kind) { return; }
      for i := 0 to |seen|
        invariant current ==> Drove(setting, from, Here(), ClaimedBelow(from.world, i))
        invariant Valid() && Since(setting, begin, sys, -1)
        invariant me in sys.runs && sys.runs[me] == Holding(seen) && sys.world.ledger.kind == kind
        invariant ClaimsFrom(setting, sys, seen, i)
      {
        ghost var was := Here();
        if seen[i] == Executing {
          alive := HoldOne(me, seen, i, begin);
          if !alive { return; }
        }
        if current { HeldNext(setting, from, was, Here(), i, Hold(me, i)); }
      }
      alive := true;
    }

    /** Read the pending items; without other runs no claim can be among them. */
    method ReadPending(me: nat, ghost begin: Mark) returns (alive: bool, seen: seq<ItemStatus>)
      requires Valid() && me in sys.runs && sys.runs[me].Holding? && Since(setting, begin, sys, -1)
      requires !setting.peace.Open? ==> !MeetsClaim(sys.world.ledger)
      modifies this`sys, this`trace
      ensures Valid() && Since(setting, begin, sys, -1)
      ensures !alive ==> me !in sys.runs
      ensures alive ==> InWork(me, seen) && seen == Statuses(sys.world.ledger.items)
      ensures alive && setting.peace.Calm? ==>
        Here() == Point(old(sys).world, old(trace) + [Step.ReadPending(me)])
    {
      hide Healthy, Agrees, Lawful, After;
      alive := Await(me, begin, -1);
      seen := [];
      if !alive { return; }
      assert !setting.peace.Open? ==> !MeetsClaim(sys.world.ledger);
      StepOnward(setting, sys, Step.ReadPending(me));
      SinceTransitive(setting, begin, sys, Next(sys, Step.ReadPending(me)), -1);
      seen := Statuses(sys.world.ledger.items);
      Do(Step.ReadPending(me));
    }

    /** The groups of a pending list, folder by folder, until one stops the run. */
    method ExecuteGroups(me: nat, seen: seq<ItemStatus>, pending: seq<nat>, folder: string, ghost begin: Mark)
      returns (flow: Flow)
      requires Valid() && InWork(me, seen) && seen == Statuses(sys.world.ledger.items) && begin == Mark(sys, {})
      requires forall k :: 0 <= k < |pending| ==> pending[k] < |seen| && PendingItem(seen[pending[k]])
      requires GoesTo(sys.world, folder)
      modifies this`sys, this`trace
      ensures Valid() && Onward(setting, begin.sys, sys)
      ensures flow.On? ==> Since(setting, begin, sys, -1) && InWork(me, seen)
      ensures flow.On? && !setting.peace.Open? ==> forall k :: 0 <= k < |pending| ==>
        pending[k] < |sys.world.ledger.items| && !Pends(sys, pending[k])
      ensures flow.Off? ==> me in sys.runs && flow.verdict != Go && !Well(setting, begin.sys)
      ensures flow.Dead? ==> me !in sys.runs
      ensures flow.On? && setting.peace.Calm? && old(Listed(sys.world, pending)) ==>
        Drove(setting, old(Here()), Here(), Members(pending))
    {
      hide Healthy, Agrees, Lawful, After, Well, Falls, Drove, Listed, Ascends, Parted, Onward, Since, IsGroup, Tracks;
      ghost var from, current := Here(), setting.peace.Calm? && Listed(sys.world, pending);
      if current { NothingListed(setting, from, pending); }
      SinceReflexive(setting, sys);
      var items := sys.world.ledger.items;
      var folderIds, first := FolderIds(items, pending);
      ghost var now := begin;
      for n := 0 to |folderIds|
        invariant Valid() && InWork(me, seen) && Since(setting, now, sys, -1) && now.sys == begin.sys
        invariant !setting.peace.Open? ==>
                    forall k :: 0 <= k < |pending| && items[pending[k]].target.folder in folderIds[..n] ==>
                        pending[k] in now.done
        invariant forall i :: i in now.done ==>
                                i in pending && i < |items| && items[i].target.folder in folderIds[..n]
        invariant current ==> Drove(setting, from, Here(), now.done)
      {
        var group := GroupOf(items, pending, folderIds[n]);
        assert pending[first[n]] in group;
        GroupIsOne(begin.sys, seen, group, folderIds[n]);
        StandsSince(setting, now, sys, seen, group);
        MarkStands(setting, now, sys, folder);
        ghost var before, was := sys, Here();
        assert forall i :: i in group ==> i !in now.done;
        if current { ListedStands(setting, from, was, pending, group, now.done); }
        flow := ExecuteFolderGroup(me, seen, group, folder);
        OnwardTransitive(setting, begin.sys, before, sys);
        if !flow.On? { return; }
        if current { DroveGroup(setting, from, was, Here(), now.done, group); }
        SinceTransitive(setting, now, before, sys, -1);
        if !setting.peace.Open? {
          MarkMore(setting, now, sys, group);
          now := Mark(now.sys, now.done + Members(group));
        }
        assert folderIds[..n + 1] == folderIds[..n] + [folderIds[n]];
      }
      assert folderIds[..|folderIds|] == folderIds;
      assert !setting.peace.Open? ==> now.done == Members(pending);
      DoneStands(setting, now, sys, begin);
      SinceKeepsItems(setting, begin, sys, -1);
      return On;
    }

    /** The items a run has just read as pending: all conflicted when their destination is gone, or driven by groups. */
    method ExecuteListed(me: nat, seen: seq<ItemStatus>, gone: bool, folder: string, ghost read: Mark)
      returns (flow: Flow)
      requires Valid() && InWork(me, seen) && seen == Statuses(sys.world.ledger.items) && read == Mark(sys, {})
      requires if gone then RequiresDestination(sys.world.ledger.kind) else GoesTo(sys.world, folder)
      modifies this`sys, this`trace
      ensures Valid() && Onward(setting, read.sys, sys)
      ensures flow.On? ==> Since(setting, read, sys, -1) && me in sys.runs
      ensures flow.On? && !setting.peace.Open? ==> forall i :: 0 <= i < |sys.world.ledger.items| ==> !Pends(sys, i)
      ensures flow.Off? ==> me in sys.runs && flow.verdict != Go && !Well(setting, read.sys)
      ensures flow.Dead? ==> me !in sys.runs
      ensures flow.On? && setting.peace.Calm? && old(Parted(sys.world) && !MeetsClaim(sys.world.ledger))
              && gone == !old(DestinationStands(sys.world)) ==>
                Drove(setting, old(Here()), Here(), PendingIn(old(sys).world))
    {
      WellIsReplayable(setting, sys);
      hide Healthy, Agrees, Lawful, After, Falls, Drove, Parted, Listed, AllConflict, PendingIn, Well,
          DestinationStands;
      SinceReflexive(setting, sys);
      var pending := PendingOf(seen);
      assert forall k :: 0 <= k < |pending| ==> pending[k] in pending;
      if Parted(sys.world) && !MeetsClaim(sys.world.ledger) { PendingDecides(sys.world, seen, pending); }
      if gone {
        flow := ConflictItems(me, seen, pending, "destination_removed", read);
      } else {
        flow := ExecuteGroups(me, seen, pending, folder, read);
      }
      if flow.On? && !setting.peace.Open? { NothingPends(setting, read.sys, sys, seen, pending); }
    }

    /** The destination of a kind that moves is resolved, then the pending items are read and driven. */
    method ExecutePending(me: nat, ghost begin: Mark) returns (flow: Flow)
      requires Valid() && me in sys.runs && sys.runs[me].Holding? && Since(setting, begin, sys, -1)
      requires !setting.peace.Open? ==> !MeetsClaim(sys.world.ledger)
      modifies this`sys, this`trace
      ensures Valid() && Onward(setting, begin.sys, sys)
      ensures flow.On? ==> Since(setting, begin, sys, -1) && me in sys.runs
      ensures flow.On? && !setting.peace.Open? ==> forall i :: 0 <= i < |sys.world.ledger.items| ==> !Pends(sys, i)
      ensures flow.Off? ==> me in sys.runs && flow.verdict != Go && !Well(setting, begin.sys)
      ensures flow.Dead? ==> me !in sys.runs
      ensures flow.On? && setting.peace.Calm? && old(Parted(sys.world)) ==>
        Drove(setting, old(Here()), Here(), PendingIn(old(sys).world))
    {
      hide Healthy, Agrees, Lawful, After, Falls, Drove, Parted, PendingIn, Well;
      ghost var from, current := Here(), setting.peace.Calm? && Parted(sys.world);
      var gone := RequiresDestination(sys.world.ledger.kind)
          && (sys.world.destination !in sys.world.folders || sys.world.destination !in sys.world.names);
      var folder := if sys.world.destination in sys.world.names then sys.world.names[sys.world.destination] else "";
      var alive, seen := ReadPending(me, begin);
      if !alive { return Dead; }
      ghost var read, listed := Mark(sys, {}), Here();
      if current { ReadDrives(setting, from, listed); }
      flow := ExecuteListed(me, seen, gone, folder, read);
      OnwardTransitive(setting, begin.sys, read.sys, sys);
      if flow.On? {
        if current { DroveAfter(setting, from, listed, Here(), PendingIn(listed.world)); }
        SinceTransitive(setting, begin, read.sys, sys, -1);
      }
    }

    /** Drive the action once through the procedure. */
    method Execute(me: nat) returns (result: RunResult)
      requires Valid() && me !in sys.runs && (!setting.peace.Open? ==> sys.runs == map[])
      modifies this`sys, this`trace
      ensures Valid() && me !in sys.runs && SameAction(old(sys), sys) && KeepsDisposed(old(sys), sys)
      ensures !setting.peace.Open? ==> sys.runs == map[] && sys.overlap == old(sys).overlap
      ensures !setting.peace.Open? && result.Executed? ==> forall i :: 0 <= i < |sys.world.ledger.items| ==>
        !Pends(sys, i)
      ensures Well(setting, old(sys)) ==>
        Well(setting, sys) && KeepsDesired(old(sys), sys) && (result.Executed? || result.Crashed?)
      ensures result.Executed? && setting.peace.Calm? && old(Parted(sys.world)) ==>
        Drove(setting, old(Here()), Here(), Below(|old(sys).world.ledger.items|))
      ensures setting.peace.Calm? ==> StoppedAsAssessed(old(sys).world, sys.world, result)
      ensures result.Executed? && setting.peace.Calm? && old(Parted(sys.world))
              && RequiresDestination(old(sys).world.ledger.kind) ==>
                forall i :: 0 <= i < |old(sys).world.ledger.items| ==>
                    ConfirmedStandsThere(old(sys).world, sys.world, i)
    {
      hide Healthy, Lawful, After, Falls, Drove, Parted, Below;
      ghost var from := Here();
      StartKeepsWell(setting, sys, me);
      Do(Start(me));
      ghost var begin, started := Mark(sys, {}), Here();
      SinceReflexive(setting, sys);
      result := ExecuteLoaded(me, begin);
      if result.Executed? && setting.peace.Calm? && Parted(from.world) {
        ReadDrives(setting, from, started);
        DroveAfter(setting, from, started, Here(), Below(|from.world.ledger.items|));
        ConfirmedStand(setting, from, Here());
      }
    }

    /** A run that has just read its action. */
    method ExecuteLoaded(me: nat, ghost begin: Mark) returns (result: RunResult)
      requires Valid() && me in sys.runs && sys.runs[me].Loaded? && begin == Mark(sys, {})
      modifies this`sys, this`trace
      ensures Valid() && me !in sys.runs && Onward(setting, begin.sys, sys)
      ensures !setting.peace.Open? && result.Executed? ==> forall i :: 0 <= i < |sys.world.ledger.items| ==>
        !Pends(sys, i)
      ensures Well(setting, begin.sys) ==> result.Executed? || result.Crashed?
      ensures result.Executed? && setting.peace.Calm? && old(Parted(sys.world)) ==>
        Drove(setting, old(Here()), Here(), Below(|old(sys).world.ledger.items|))
      ensures setting.peace.Calm? ==> StoppedAsAssessed(old(sys).world, sys.world, result)
    {
      hide Healthy, Lawful, After, Falls, Drove, Parted;
      SinceReflexive(setting, sys);
      ghost var from := Here();
      var status := sys.world.ledger.status;
      if status == ActionComplete {
        Take(Stop(me), begin, -1);
        if Parted(from.world) { CompleteStands(setting, from, Here()); }
        return Executed;
      }
      var alive := Await(me, begin, -1);
      if !alive { return Crashed; }
      if sys.world.verdict != Go {
        result := BlockedResult(sys.world.verdict);
        Take(Stop(me), begin, -1);
        return;
      }
      result := ExecuteAssessed(me, begin);
    }

    /**
     The exclusive worker queue: reconciliation passes one after another, each driving the
     action while it is pending, each free to crash anywhere. A move is issued at most once an
     item; a well flag action stays well, and has converged once a pass ran to its end.
     */
    method Reconcile(passes: nat) returns (executed: bool)
      requires Valid() && !setting.peace.Open? && sys.runs == map[] && sys == start && Submitted(sys)
      modifies this`sys, this`trace
      ensures Valid() && sys.runs == map[] && |sys.moves| == |sys.world.ledger.items|
      ensures RequiresDestination(sys.world.ledger.kind) ==> forall i :: 0 <= i < |sys.moves| ==> sys.moves[i] <= 1
      ensures executed ==> sys.world.ledger.status == ActionComplete
      ensures Well(setting, old(sys)) ==> Well(setting, sys) && (executed ==> Converged(setting, sys))
    {
      hide Healthy, Lawful, After, Falls;
      executed := false;
      for pass := 0 to passes
        invariant Valid() && sys.runs == map[] && !sys.overlap && SameAction(old(sys), sys)
        invariant executed ==> forall i :: 0 <= i < |sys.world.ledger.items| ==> !Pends(sys, i)
        invariant Well(setting, old(sys)) ==> Well(setting, sys)
      {
        if PendingAction(sys.world.ledger.status) {
          var result := Execute(pass);
          executed := executed || result.Executed?;
        }
      }
      MovesOnce();
      if executed { AllDisposed(setting, sys); }
    }

    /** In every state reached without an overlapping pending read, each move was issued at most once. */
    lemma MovesOnce()
      requires Valid() && Submitted(start) && !sys.overlap
      ensures |sys.moves| == |sys.world.ledger.items| && sys.world.ledger.kind == start.world.ledger.kind
      ensures RequiresDestination(sys.world.ledger.kind) ==> forall i :: 0 <= i < |sys.moves| ==> sys.moves[i] <= 1
    {
      ActionStands(start, trace);
      MovesKeepLength(start, trace);
      if RequiresDestination(sys.world.ledger.kind) {
        forall i | 0 <= i < |sys.moves| ensures sys.moves[i] <= 1 {
          AtMostOneMove(start, trace, i);
        }
      }
    }

    /** The run after its first recovery check. */
    method ExecuteAssessed(me: nat, ghost begin: Mark) returns (result: RunResult)
      requires Valid() && me in sys.runs && sys.runs[me].Loaded? && Since(setting, begin, sys, -1)
      modifies this`sys, this`trace
      ensures Valid() && me !in sys.runs && Onward(setting, begin.sys, sys)
      ensures !setting.peace.Open? && result.Executed? ==> forall i :: 0 <= i < |sys.world.ledger.items| ==>
        !Pends(sys, i)
      ensures Well(setting, begin.sys) ==> result.Executed? || result.Crashed?
      ensures result.Executed? && setting.peace.Calm? && old(Parted(sys.world)) ==>
        Drove(setting, old(Here()), Here(), Below(|old(sys).world.ledger.items|))
    {
      hide Healthy, Agrees, Lawful, After, Falls, Drove, Parted, PendingIn, ClaimedBelow, Finalize;
      ghost var from, current := Here(), setting.peace.Calm? && Parted(sys.world);
      var alive := HoldInterrupted(me, begin);
      if !alive { return Crashed; }
      ghost var held := Here();
      if current { HeldKeepsParted(setting, from, held); }
      var flow := ExecutePending(me, begin);
      ghost var driven := Here();
      match flow {
        case Dead => return Crashed;
        case Off(verdict) =>
          result := BlockedResult(verdict);
          OnwardByStop(setting, begin.sys, sys, me);
          Do(Stop(me));
        case On =>
          result := Refreshed(me, begin);
          if current && result.Executed? {
            RunDrove(setting, from, held, driven, Here(), [Refresh(me)] + [Stop(me)]);
          }
      }
    }

    /** Finalize the status and answer. */
    method Refreshed(me: nat, ghost begin: Mark) returns (result: RunResult)
      requires Valid() && me in sys.runs && Since(setting, begin, sys, -1)
      requires !setting.peace.Open? ==> forall i :: 0 <= i < |sys.world.ledger.items| ==> !Pends(sys, i)
      modifies this`sys, this`trace
      ensures Valid() && me !in sys.runs && Onward(setting, begin.sys, sys)
      ensures !setting.peace.Open? && result.Executed? ==> forall i :: 0 <= i < |sys.world.ledger.items| ==>
        !Pends(sys, i)
      ensures result.Executed? || result.Crashed?
      ensures result.Executed? && setting.peace.Calm? ==>
        Here() == Point(old(sys).world.(ledger := Finalize(old(sys).world.ledger)),
                        old(trace) + [Refresh(me)] + [Stop(me)])
    {
      hide Healthy, Agrees, Lawful, After, Falls;
      var alive := Await(me, begin, -1);
      if !alive { return Crashed; }
      ghost var waited := sys;
      Take(Refresh(me), begin, -1);
      Take(Stop(me), begin, -1);
      RefreshDisposes(waited, sys);
      return Executed;
    }
  }

  /** Without other runs, the claims of the action are among those listed from `i` on. */
  predicate ClaimsFrom(g: Setting, s: Sys, seen: seq<ItemStatus>, i: nat) {
    |seen| == |s.world.ledger.items| &&
    (!g.peace.Open? ==>
       forall k :: 0 <= k < |seen| && s.world.ledger.items[k].status == Executing ==> i <= k && seen[k] == Executing)
  }

  lemma ClaimsStand(g: Setting, s: Sys, t: Sys, seen: seq<ItemStatus>, i: nat)
    requires Since(g, Mark(s, {}), t, -1) && ClaimsFrom(g, s, seen, i)
    ensures ClaimsFrom(g, t, seen, i) && t.world.ledger.kind == s.world.ledger.kind
  {
  }

  lemma HoldClears(g: Setting, me: nat, s: Sys, seen: seq<ItemStatus>, i: nat)
    requires ClaimsFrom(g, s, seen, i) && Legal(s, Hold(me, i))
    ensures ClaimsFrom(g, Next(s, Hold(me, i)), seen, i + 1)
  {
    LedgerKeepsDisposed(s.world.ledger, Hold(me, i));
  }

  lemma OnwardTransitive(g: Setting, s: Sys, t: Sys, u: Sys)
    requires Onward(g, s, t) && Onward(g, t, u)
    ensures Onward(g, s, u)
    ensures Well(g, s) ==> Well(g, t)
  {
  }

  /** A list read when the mark was set still tracks the items of a group. */
  lemma StandsSince(g: Setting, m: Mark, t: Sys, seen: seq<ItemStatus>, group: seq<nat>)
    requires Since(g, m, t, -1) && seen == Statuses(m.sys.world.ledger.items) && IsGroup(m.sys, seen, group)
    ensures IsGroup(t, seen, group)
    ensures forall k :: 0 <= k < |group| ==> Tracks(g, t, seen, group[k])
  {
  }

  /** The indices of the pending items, in order. */
  method PendingOf(seen: seq<ItemStatus>) returns (pending: seq<nat>)
    ensures forall i :: i in pending <==> 0 <= i < |seen| && PendingItem(seen[i])
    ensures Ascends(pending)
  {
    pending := [];
    for i := 0 to |seen|
      invariant Ascends(pending) && forall k :: 0 <= k < |pending| ==> pending[k] < i
      invariant forall k :: k in pending <==> 0 <= k < i && PendingItem(seen[k])
    {
      if PendingItem(seen[i]) { pending := pending + [i]; }
    }
  }

  /** The folders of the listed items, each once, in order of appearance; `first` says where each appears. */
  method FolderIds(items: seq<Item>, listed: seq<nat>) returns (ids: seq<nat>, ghost first: seq<nat>)
    requires forall k :: 0 <= k < |listed| ==> listed[k] < |items|
    ensures forall k :: 0 <= k < |listed| ==> items[listed[k]].target.folder in ids
    ensures |first| == |ids| && forall n :: 0 <= n < |ids| ==>
      first[n] < |listed| && items[listed[first[n]]].target.folder == ids[n]
    ensures forall a, b :: 0 <= a < b < |ids| ==> ids[a] != ids[b]
  {
    ids, first := [], [];
    for k := 0 to |listed|
      invariant forall j :: 0 <= j < k ==> items[listed[j]].target.folder in ids
      invariant |first| == |ids| && forall n :: 0 <= n < |ids| ==>
        first[n] < k && items[listed[first[n]]].target.folder == ids[n]
      invariant forall a, b :: 0 <= a < b < |ids| ==> ids[a] != ids[b]
    {
      var id := items[listed[k]].target.folder;
      if id !in ids {
        ids, first := ids + [id], first + [k];
      }
    }
  }

  /** The listed items of one folder, in order. */
  method GroupOf(items: seq<Item>, listed: seq<nat>, id: nat) returns (group: seq<nat>)
    requires forall k :: 0 <= k < |listed| ==> listed[k] < |items|
    ensures forall k :: 0 <= k < |group| ==>
      group[k] in listed && group[k] < |items| && items[group[k]].target.folder == id
    ensures forall k :: 0 <= k < |listed| && items[listed[k]].target.folder == id ==> listed[k] in group
    ensures Ascends(listed) ==> Ascends(group)
  {
    group := [];
    for k := 0 to |listed|
      invariant Ascends(listed) ==>
                  Ascends(group) && forall j, l :: 0 <= j < |group| && k <= l < |listed| ==> group[j] < listed[l]
      invariant forall j :: 0 <= j < |group| ==>
        group[j] in listed && group[j] < |items| && items[group[j]].target.folder == id
      invariant forall j :: 0 <= j < k && items[listed[j]].target.folder == id ==> listed[j] in group
    {
      if items[listed[k]].target.folder == id { group := group + [listed[k]]; }
    }
  }

  /** Every item confirmed, every flag as desired, everything else as it was before the action. */
  ghost predicate Converged(g: Setting, s: Sys) {
    && FlagDesireOf(s.world.ledger.kind).Some?
    && (forall i :: 0 <= i < |s.world.ledger.items| ==> s.world.ledger.items[i].status == Confirmed && DesiredNow(s, i))
    && Spared(g.origin, s.world, FlagDesireOf(s.world.ledger.kind).value.flag)
  }

  /** Once nothing is pending the action is complete, and a well one has converged. */
  lemma AllDisposed(g: Setting, s: Sys)
    requires Agrees(s.world.ledger) && forall i :: 0 <= i < |s.world.ledger.items| ==> !Pends(s, i)
    ensures s.world.ledger.status == ActionComplete
    ensures Well(g, s) ==> Converged(g, s)
  {
    assert !AnyPending(s.world.ledger.items) by {
      forall i | 0 <= i < |s.world.ledger.items| ensures !PendingItem(s.world.ledger.items[i].status) {
        assert !Pends(s, i);
      }
    }
    if Well(g, s) {
      forall i | 0 <= i < |s.world.ledger.items| ensures s.world.ledger.items[i].status == Confirmed
          && DesiredNow(s, i) {
        assert !Pends(s, i);
        assert OnItsWay(s.world, i, FlagDesireOf(s.world.ledger.kind).value, g.condstore);
      }
    }
  }

  lemma {:induction false} ActionStands(s: Sys, steps: seq<Step>)
    requires Lawful(s, steps)
    ensures After(s, steps).world.ledger.kind == s.world.ledger.kind
    ensures |After(s, steps).world.ledger.items| == |s.world.ledger.items|
    decreases |steps|
  {
    if steps != [] {
      StepKeepsItems(s, steps[0]);
      ActionStands(Next(s, steps[0]), steps[1..]);
    }
  }

  function BlockedResult(verdict: Verdict): RunResult {
    if verdict == Stale then GenerationMismatch else Held
  }

  lemma StartKeepsWell(g: Setting, s: Sys, me: nat)
    requires me !in s.runs
    ensures var t := Next(s, Start(me));
            && t.world == s.world && t.overlap == s.overlap && (Well(g, s) <==> Well(g, t))
            && (s.runs == map[] ==> t.runs.Keys == {me})
  {
  }

  lemma RefreshDisposes(s: Sys, t: Sys)
    requires t.world.ledger == Finalize(s.world.ledger)
    ensures |t.world.ledger.items| == |s.world.ledger.items|
    ensures forall i :: 0 <= i < |t.world.ledger.items| && !Pends(s, i) ==> !Pends(t, i)
  {
    assert t.world.ledger.items == s.world.ledger.items;
    forall i | 0 <= i < |t.world.ledger.items| && !Pends(s, i) ensures !Pends(t, i) {
      assert t.world.ledger.items[i] == s.world.ledger.items[i];
    }
  }

  lemma OnwardByStop(g: Setting, begin: Sys, s: Sys, me: nat)
    requires Onward(g, begin, s) && me in s.runs
    ensures Onward(g, begin, Next(s, Stop(me)))
  {
  }

  lemma NothingPends(g: Setting, s: Sys, t: Sys, seen: seq<ItemStatus>, pending: seq<nat>)
    requires Since(g, Mark(s, {}), t, -1) && seen == Statuses(s.world.ledger.items)
    requires forall i :: i in pending <==> 0 <= i < |seen| && PendingItem(seen[i])
    requires forall k :: 0 <= k < |pending| ==> pending[k] < |t.world.ledger.items| && !Pends(t, pending[k])
    ensures forall i :: 0 <= i < |t.world.ledger.items| ==> !Pends(t, i)
  {
    forall i | 0 <= i < |t.world.ledger.items| ensures !Pends(t, i) {
      assert Pends(s, i) ==> i in pending;
    }
  }

  /** A group: items the run read as pending, all of one folder. */
  ghost predicate IsGroup(s: Sys, seen: seq<ItemStatus>, group: seq<nat>) {
    && group != [] && |seen| == |s.world.ledger.items|
    && (forall k :: 0 <= k < |group| ==> group[k] < |seen| && PendingItem(seen[group[k]]))
    && (forall k :: 0 <= k < |group| ==>
          s.world.ledger.items[group[k]].target.folder == s.world.ledger.items[group[0]].target.folder)
  }

  ghost predicate GroupAt(g: Setting, s: Sys, seen: seq<ItemStatus>, group: seq<nat>, path: string) {
    && IsGroup(s, seen, group)
    && forall k :: 0 <= k < |group| ==> Tracks(g, s, seen, group[k]) && TargetPath(s.world, group[k]) == Some(path)
  }

  lemma GroupStands(g: Setting, m: Mark, t: Sys, seen: seq<ItemStatus>, group: seq<nat>, path: string, recorded: nat,
                    remotes: map<nat, Observed>, folder: string)
    requires Since(g, m, t, -1) && GroupAt(g, m.sys, seen, group, path) && GoesTo(m.sys.world, folder)
    requires Well(g, m.sys) ==> GroupReads(m.sys.world, group, path, recorded, remotes)
    ensures GroupAt(g, t, seen, group, path) && GoesTo(t.world, folder)
    ensures Well(g, m.sys) ==> GroupReads(t.world, group, path, recorded, remotes)
  {
    if Well(g, m.sys) {
      WellPresent(g, t, group[0]);
      assert m.sys.world.ledger.items[group[0]].target.uidValidity == recorded;
    }
  }

  lemma MarkStands(g: Setting, m: Mark, t: Sys, folder: string)
    requires Since(g, m, t, -1) && GoesTo(m.sys.world, folder)
    ensures Onward(g, m.sys, t) && GoesTo(t.world, folder)
  {
  }

  lemma MarkMore(g: Setting, m: Mark, t: Sys, group: seq<nat>)
    requires Since(g, m, t, -1)
    requires forall k :: 0 <= k < |group| && group[k] < |t.world.ledger.items| ==> !Pends(t, group[k])
    ensures Since(g, Mark(m.sys, m.done + Members(group)), t, -1)
  {
  }

  lemma GroupIsOne(s: Sys, seen: seq<ItemStatus>, group: seq<nat>, id: nat)
    requires |seen| == |s.world.ledger.items| && group != []
    requires forall k :: 0 <= k < |group| ==>
               && group[k] < |seen| && PendingItem(seen[group[k]])
               && s.world.ledger.items[group[k]].target.folder == id
    ensures IsGroup(s, seen, group)
  {
  }

  lemma DoneStands(g: Setting, m: Mark, t: Sys, begin: Mark)
    requires Since(g, m, t, -1) && begin == Mark(m.sys, {})
    ensures Since(g, begin, t, -1)
    ensures forall i :: i in m.done && i < |t.world.ledger.items| ==> !Pends(t, i)
  {
  }

  /** In a well action every item of a group is where it was frozen, and the refresh shows it. */
  lemma WellGroup(g: Setting, s: Sys, group: seq<nat>)
    requires Well(g, s) && group != [] && forall k :: 0 <= k < |group| ==> group[k] < |s.world.ledger.items|
    requires forall k :: 0 <= k < |group| ==>
               s.world.ledger.items[group[k]].target.folder == s.world.ledger.items[group[0]].target.folder
    ensures Present(s.world, group[0])
    ensures var t := s.world.ledger.items[group[0]].target; var path := s.world.names[t.folder];
            GroupReads(s.world, group, path, t.uidValidity, RemoteFlags(s.world, path, group, g.condstore))
  {
    WellPresent(g, s, group[0]);
    var t := s.world.ledger.items[group[0]].target;
    var path := s.world.names[t.folder];
    var remotes := RemoteFlags(s.world, path, group, g.condstore);
    forall k | 0 <= k < |group|
      ensures s.world.ledger.items[group[k]].target.uidValidity == t.uidValidity
      ensures group[k] in remotes && TellsDesired(s.world, group[k], remotes[group[k]])
    {
      WellPresent(g, s, group[k]);
      assert group[k] in group;
    }
  }

  /** In a well action the refresh found every item of the group under the generation it froze. */
  predicate GroupReads(w: World, group: seq<nat>, path: string, recorded: nat, remotes: map<nat, Observed>) {
    && path in w.mailbox && w.mailbox[path].uidValidity == recorded
    && forall k :: 0 <= k < |group| ==>
         && group[k] < |w.ledger.items| && w.ledger.items[group[k]].target.uidValidity == recorded
         && group[k] in remotes && TellsDesired(w, group[k], remotes[group[k]])
  }

  /** A pending item of a well action has a row as fresh as it froze it. */
  lemma PendingIsFresh(g: Setting, s: Sys, i: nat)
    requires Well(g, s) && i < |s.world.ledger.items|
             && s.world.ledger.items[i].target.occurrence in s.world.ledger.occurrences
    ensures Pends(s, i) ==> StaleConflict(s.world, i).None?
  {
    assert OnItsWay(s.world, i, FlagDesireOf(s.world.ledger.kind).value, g.condstore);
  }

  /** The write of an undisturbed action makes its item read as desired. */
  lemma WellWriteLands(g: Setting, s: Sys, step: Step)
    requires step.Remote? && Legal(s, step) && Well(g, s) && WellStep(g, s, step)
    ensures step.item < |Next(s, step).world.ledger.items|
    ensures Desired(Next(s, step).world, step.item, FlagDesireOf(s.world.ledger.kind).value)
  {
    var desire := FlagDesireOf(s.world.ledger.kind).value;
    WriteKeepsHealthy(s.world, g.origin, step.session, step.item, desire, g.condstore);
    assert Next(s, step).world == WrittenWorld(s.world, step.session, step.item, desire, g.condstore);
  }

  /** The items of a well action are present. */
  lemma WellPresent(g: Setting, s: Sys, i: nat)
    requires Well(g, s) && i < |s.world.ledger.items|
    ensures Present(s.world, i) && TargetPath(s.world, i) == Some(Place(s.world, i).0)
  {
    assert OnItsWay(s.world, i, FlagDesireOf(s.world.ledger.kind).value, g.condstore);
  }

  lemma StepSince(g: Setting, begin: Mark, s: Sys, step: Step, except: int)
    requires Legal(s, step) && !step.Start? && !step.ReadPending? && (step.ClaimItem? ==> step.item == except)
    requires Since(g, begin, s, except) && (Well(g, begin.sys) ==> WellStep(g, s, step))
    ensures Since(g, begin, Next(s, step), except)
  {
    StepSameAction(s, step);
    LedgerKeepsDisposed(s.world.ledger, step);
    if Well(g, begin.sys) { WellStepKeeps(g, s, step); }
  }

  lemma InterferenceOnward(g: Setting, me: nat, s: Sys, step: Step)
    requires Legal(s, step) && MayAct(g, me, step)
    ensures Since(g, Mark(s, {}), Next(s, step), -1)
  {
    StepSameAction(s, step);
    LedgerKeepsDisposed(s.world.ledger, step);
  }
}
