/**
 Any number of runs of one action over one mailbox, as a machine of atomic steps: each
 guarded update or transaction is one step, each remote call is another, and a run that
 crashes simply stops. Other actions, synchronization and the server itself act in between.
 */
module ActionProtocol {
  import opened Wrappers
  import opened ActionKinds
  import opened ActionLedger
  import opened MailboxStore
  import opened ImapCommands

  datatype Verdict = Go | Blocked | Stale

  /** How a session spells one flag value as a STORE: as its port promises, or as the shipped session does. */
  datatype Session = Promised | Shipped

  datatype RemoteOp = SetFlag(flag: Flag, value: bool, unchangedSince: Option<nat>) | MoveTo(path: string)

  /**
   `names` is the fixed path of every folder id, `destination` the folder the immutable request
   froze for the kinds that move; `folders` holds the recorded generations.
   */
  datatype World = World(ledger: Ledger, names: map<nat, string>, destination: nat, folders: map<nat, Option<nat>>,
                         mailbox: map<string, FolderState>, verdict: Verdict)

  /**
   Where one run stands; `seen` is the status of every item when the run last read them, and
   `applied` whether its call reached the server.
   */
  datatype Stage =
    | Loaded
    | Holding(seen: seq<ItemStatus>)
    | Working(seen: seq<ItemStatus>)
    | Fresh(seen: seq<ItemStatus>, item: nat, path: string, generation: nat)
    | Armed(seen: seq<ItemStatus>, item: nat, path: string, generation: nat)
    | Written(seen: seq<ItemStatus>, item: nat, applied: bool)

  datatype Change =
    | Arrives(path: string, bytes: string, flags: seq<string>, internalDate: int)
    | Expunges(path: string, uid: nat)
    | Reflags(path: string, uid: nat, flags: seq<string>)
    | Resets(path: string, folder: FolderState)
    | OccurrenceChanges(occurrence: nat, row: Option<Occurrence>)
    | FolderChanges(id: nat, recorded: Option<Option<nat>>)
    | VerdictChanges(verdict: Verdict)

  datatype Step =
    | Start(run: nat)
    | LoadForHold(run: nat)
    | Hold(run: nat, item: nat)
    | ReadPending(run: nat)
    | Dispose(run: nat, item: nat, write: Write)
    | Revalidate(run: nat, item: nat)
    | ClaimItem(run: nat, item: nat)
    | Remote(run: nat, item: nat, session: Session, op: RemoteOp, applied: bool)
    | CommitReceipt(run: nat, item: nat, write: Write)
    | Refresh(run: nat)
    | Stop(run: nat)
    | RestoreAll(current: nat)
    | Outside(change: Change)

  /**
   `moves[i]` counts the remote moves issued for item `i`; `overlap` records a pending read that met
   a claim of a move.
   */
  datatype Sys = Sys(world: World, runs: map<nat, Stage>, moves: seq<nat>, overlap: bool)

  // ---- the mailbox ----

  const SEEN := "\\Seen"
  const FLAGGED := "\\Flagged"

  function Keyword(flag: Flag): string {
    if flag == Unread then SEEN else FLAGGED
  }

  function StoreMode(session: Session, flag: Flag, value: bool): Mode {
    match session
    case Promised => if (flag == Unread) == value then Remove else Add
    case Shipped => if value then Add else Remove
  }

  function ReadFlags(m: Message, condstore: bool): Observed {
    Observed(SEEN !in m.flags, FLAGGED in m.flags, if condstore then Some(m.modseq) else None)
  }

  function FlagOf(o: Observed, flag: Flag): bool {
    if flag == Unread then o.unread else o.flagged
  }

  function Perform(session: Session, mailbox: map<string, FolderState>, path: string, uid: nat,
                   op: RemoteOp): map<string, FolderState> {
    if path !in mailbox then mailbox
    else
      var f := mailbox[path];
      match op
      case SetFlag(flag, value, since) =>
        mailbox[path := StoreOne(f, uid, StoreMode(session, flag, value), [Keyword(flag)], since)]
      case MoveTo(destination) =>
        if destination !in mailbox || uid !in f.messages then mailbox
        else
          var copied := mailbox[destination := CopyOne(mailbox[destination], f.messages[uid])];
          copied[path := Without(copied[path], uid)]
  }

  // ---- steps ----

  const INTERRUPTED_HOLD := Write(Unknown, Lost(INTERRUPTED, None), None, false, false, false)

  predicate PlainWrite(write: Write) {
    ProperWrite(write) && !write.supersedesHold && write.status != Unknown
  }

  predicate ReceiptWrite(write: Write) {
    ProperWrite(write) && write.supersedesHold
  }

  function Statuses(items: seq<Item>): (r: seq<ItemStatus>)
    ensures |r| == |items| && forall i :: 0 <= i < |items| ==> r[i] == items[i].status
  {
    seq(|items|, i requires 0 <= i < |items| => items[i].status)
  }

  predicate LegalChange(w: World, change: Change) {
    match change
    case Resets(path, folder) => path in w.mailbox && w.mailbox[path].uidValidity < folder.uidValidity
        && FreshFolder(folder)
    case _ => true
  }

  /** A replaced folder is an ordinary coherent folder; stated without quantifier pairs. */
  predicate FreshFolder(f: FolderState) {
    forall uid :: uid in f.messages ==> uid < f.nextUid
  }

  function TargetPath(w: World, i: nat): Option<string>
    requires i < |w.ledger.items|
  {
    var folder := w.ledger.items[i].target.folder;
    if folder in w.names then Some(w.names[folder]) else None
  }

  /** The path of the frozen destination, while its row names one. */
  function DestinationPath(w: World): Option<string> {
    if w.destination in w.names then Some(w.names[w.destination]) else None
  }

  predicate At(s: Sys, run: nat, item: nat) {
    && run in s.runs && item < |s.world.ledger.items|
    && match s.runs[run]
       case Working(seen) => item < |seen| && PendingItem(seen[item])
       case Fresh(seen, i, _, _) => i == item && item < |seen| && PendingItem(seen[item])
       case _ => false
  }

  /** What a run may do next, and what the rest of the world may do at any time. */
  predicate Legal(s: Sys, step: Step) {
    var items := s.world.ledger.items;
    match step
    case Start(r) => r !in s.runs
    case LoadForHold(r) => r in s.runs && s.runs[r].Loaded?
    case Hold(r, i) =>
      && r in s.runs && s.runs[r].Holding? && i < |s.runs[r].seen| && i < |items|
      && s.runs[r].seen[i] == Executing && !IsReplayableKind(s.world.ledger.kind)
    case ReadPending(r) => r in s.runs && s.runs[r].Holding?
    case Dispose(r, i, write) =>
      At(s, r, i) && PlainWrite(write) && (write.status == Confirmed ==> IsReplayableKind(s.world.ledger.kind))
    case Revalidate(r, i) =>
      At(s, r, i) && s.runs[r].Working? && TargetPath(s.world, i).Some?
          && TargetPath(s.world, i).value in s.world.mailbox
    case ClaimItem(r, i) =>
      At(s, r, i) && s.runs[r].Fresh? && s.runs[r].generation == items[i].target.uidValidity
    case Remote(r, i, _, op, applied) =>
      && r in s.runs && s.runs[r].Armed? && s.runs[r].item == i && i < |items|
      && (match op
          case MoveTo(path) => RequiresDestination(s.world.ledger.kind) && DestinationPath(s.world) == Some(path)
              && (applied ==> path in s.world.mailbox)
          case SetFlag(flag, value, _) => FlagDesireOf(s.world.ledger.kind) == Some(FlagDesire(flag, value)))
    case CommitReceipt(r, i, write) =>
      && r in s.runs && i < |items| && ReceiptWrite(write)
      && ((s.runs[r].Armed? && s.runs[r].item == i) || (s.runs[r].Written? && s.runs[r].item == i))
      && (write.status == Confirmed && RequiresDestination(s.world.ledger.kind) ==>
            s.runs[r].Written? && s.runs[r].applied)
    case Refresh(r) => r in s.runs
    case Stop(r) => r in s.runs
    case RestoreAll(current) => s.world.ledger.generation != current
    case Outside(change) => LegalChange(s.world, change)
  }

  predicate MeetsClaim(l: Ledger) {
    !IsReplayableKind(l.kind) && exists i :: 0 <= i < |l.items| && l.items[i].status == Executing
  }

  /** The rows after a step: the transaction the step names, and nothing else. */
  function LedgerNext(l: Ledger, step: Step): Ledger {
    match step
    case Hold(_, i) => Commit(l, i, INTERRUPTED_HOLD)
    case Dispose(_, i, write) => Commit(l, i, write)
    case CommitReceipt(_, i, write) => Commit(l, i, write)
    case ClaimItem(_, i) => Claim(l, i)
    case Refresh(_) => Finalize(l)
    case RestoreAll(_) => Restore(l)
    case Outside(OccurrenceChanges(id, row)) =>
      l.(occurrences := if row.Some? then l.occurrences[id := row.value] else l.occurrences - {id})
    case _ => l
  }

  function ChangeMailbox(m: map<string, FolderState>, change: Change): map<string, FolderState> {
    match change
    case Arrives(path, bytes, flags, date) =>
      if path in m then m[path := Arrive(m[path], Load(None, bytes, flags, date))] else m
    case Expunges(path, uid) => if path in m then m[path := Without(m[path], uid)] else m
    case Reflags(path, uid, flags) =>
      if path in m && uid in m[path].messages then m[path := Stamp(m[path], uid, flags)] else m
    case Resets(path, folder) => m[path := folder]
    case _ => m
  }

  /** The server after a step: a remote call that reached it, or a change from outside. */
  function MailboxNext(s: Sys, step: Step): map<string, FolderState>
    requires Legal(s, step)
  {
    match step
    case Remote(r, i, session, op, applied) =>
      if applied then Perform(session, s.world.mailbox, s.runs[r].path, s.world.ledger.items[i].target.uid, op)
          else s.world.mailbox
    case Outside(change) => ChangeMailbox(s.world.mailbox, change)
    case _ => s.world.mailbox
  }

  function WorldNext(s: Sys, step: Step): World
    requires Legal(s, step)
  {
    var w := s.world.(ledger := LedgerNext(s.world.ledger, step), mailbox := MailboxNext(s, step));
    match step
    case Outside(FolderChanges(id, recorded)) =>
      w.(folders := if recorded.Some? then w.folders[id := recorded.value] else w.folders - {id})
    case Outside(VerdictChanges(v)) => w.(verdict := v)
    case _ => w
  }

  function StageNext(s: Sys, step: Step): Stage
    requires Legal(s, step) && !step.RestoreAll? && !step.Outside? && !step.Stop?
  {
    match step
    case Start(r) => Loaded
    case LoadForHold(r) => Holding(Statuses(s.world.ledger.items))
    case ReadPending(r) => Working(Statuses(s.world.ledger.items))
    case Dispose(r, _, _) => Working(s.runs[r].seen)
    case Revalidate(r, i) =>
      var path := TargetPath(s.world, i).value;
      Fresh(s.runs[r].seen, i, path, s.world.mailbox[path].uidValidity)
    case ClaimItem(r, i) =>
      var at := s.runs[r];
      if s.world.ledger.items[i].status == Queued || at.seen[i] == Executing
      then Armed(at.seen, i, at.path, at.generation)
      else Working(at.seen)
    case Remote(r, i, _, _, applied) => Written(s.runs[r].seen, i, applied)
    case CommitReceipt(r, _, _) => Working(s.runs[r].seen)
    case Hold(r, _) => s.runs[r]
    case Refresh(r) => s.runs[r]
  }

  function RunsNext(s: Sys, step: Step): map<nat, Stage>
    requires Legal(s, step)
  {
    match step
    case RestoreAll(_) => s.runs
    case Outside(_) => s.runs
    case Stop(r) => s.runs - {r}
    case _ => s.runs[step.run := StageNext(s, step)]
  }

  function MovesNext(moves: seq<nat>, step: Step): seq<nat> {
    if step.Remote? && step.op.MoveTo? && step.item < |moves| then moves[step.item := moves[step.item] + 1] else moves
  }

  function Next(s: Sys, step: Step): Sys
    requires Legal(s, step)
  {
    Sys(WorldNext(s, step), RunsNext(s, step), MovesNext(s.moves, step),
        s.overlap || (step.ReadPending? && MeetsClaim(s.world.ledger)))
  }

  // ---- lawful histories ----

  predicate Lawful(s: Sys, steps: seq<Step>)
    decreases |steps|
  {
    steps == [] || (Legal(s, steps[0]) && Lawful(Next(s, steps[0]), steps[1..]))
  }

  function After(s: Sys, steps: seq<Step>): Sys
    requires Lawful(s, steps)
    decreases |steps|
  {
    if steps == [] then s else After(Next(s, steps[0]), steps[1..])
  }

  lemma {:induction false} LawfulAppend(s: Sys, steps: seq<Step>, step: Step)
    requires Lawful(s, steps) && Legal(After(s, steps), step)
    ensures Lawful(s, steps + [step]) && After(s, steps + [step]) == Next(After(s, steps), step)
    decreases |steps|
  {
    var all := steps + [step];
    if steps == [] {
      assert all == [step] && all[1..] == [];
    } else {
      assert all[0] == steps[0] && all[1..] == steps[1..] + [step];
      LawfulAppend(Next(s, steps[0]), steps[1..], step);
    }
  }
}
