/**
 How an undisturbed run ends each item, told from the rows and the server before it: what the
 receipt says, what the occurrence row shows, and what became of the message.
 */
module ActionOutcomes {
  import opened Wrappers
  import opened ActionKinds
  import opened ActionLedger
  import opened MailboxStore
  import opened ImapCommands
  import opened ActionProtocol
  import opened ActionIdentity
  import opened ActionHealth

  /** Who else acts during a run: anybody, anybody but other runs of the action, or nobody. */
  datatype Peace = Open | Alone | Calm

  /** What a run works against; `origin` is the mailbox before the action touched it. */
  datatype Setting = Setting(peace: Peace, session: Session, condstore: bool, move: bool,
                             origin: map<string, FolderState>)

  datatype ExecutorOutcome =
    | OutcomeConfirmed(observed: Observed, movedTo: Option<Landing>)
    | OutcomeConflicted(reason: string, observed: Observed)
    | OutcomeUnknown(reason: string, last: Option<Observed>)
    | OutcomeFailed(code: string)

  function ConflictWrite(reason: string): Write {
    Write(Conflicted, Receipt.Refused(reason, None), None, false, false, false)
  }

  function NoopWrite(remote: Observed): Write {
    Write(Confirmed, Noop(remote), Some(remote), true, false, false)
  }

  /** The receipt of the claim that ran the remote write. */
  function ReceiptOf(outcome: ExecutorOutcome): Write {
    match outcome
    case OutcomeConfirmed(observed, movedTo) => Write(Confirmed, Applied(observed, movedTo), Some(observed), true,
                                                      movedTo.Some?, true)
    case OutcomeConflicted(reason, observed) => Write(Conflicted, Receipt.Refused(reason, Some(observed)),
                                                      Some(observed), false, false, true)
    case OutcomeUnknown(reason, last) => Write(Unknown, Lost(reason, last), None, false, false, true)
    case OutcomeFailed(code) => Write(Failed, Broken(code), None, false, false, true)
  }

  /** The flags one folder shows for the UID of item `i`, if it is there. */
  function FlagsAt(w: World, i: nat, path: string, condstore: bool): Option<Observed>
    requires i < |w.ledger.items|
  {
    var uid := w.ledger.items[i].target.uid;
    if path in w.mailbox && uid in w.mailbox[path].messages
        then Some(ReadFlags(w.mailbox[path].messages[uid], condstore)) else None
  }

  /** Everything a run looks at for one item. */
  datatype View = View(item: Item, row: Option<Occurrence>, recorded: Option<Option<nat>>, path: Option<string>,
                       generation: Option<nat>, message: Option<Message>)

  function MessageAt(mailbox: map<string, FolderState>, path: string, uid: nat): Option<Message> {
    if path in mailbox && uid in mailbox[path].messages then Some(mailbox[path].messages[uid]) else None
  }

  function ViewOf(w: World, i: nat): View
    requires i < |w.ledger.items|
  {
    var t := w.ledger.items[i].target;
    var path := TargetPath(w, i);
    View(w.ledger.items[i],
         if t.occurrence in w.ledger.occurrences then Some(w.ledger.occurrences[t.occurrence]) else None,
         if t.folder in w.folders then Some(w.folders[t.folder]) else None,
         path,
         if path.Some? && path.value in w.mailbox then Some(w.mailbox[path.value].uidValidity) else None,
         if path.Some? then MessageAt(w.mailbox, path.value, t.uid) else None)
  }

  /** What the state before a run decides about an item. */
  datatype Fate = Stands | Interrupted | Conflicts(reason: string) | Already | Writes

  /** The order of the decisions: the first that applies counts. */
  ghost function FateOf(w: World, i: nat): Fate
    requires i < |w.ledger.items|
  {
    var b := ViewOf(w, i);
    var moves := RequiresDestination(w.ledger.kind);
    if b.item.status !in {Queued, Executing} then Stands
    else if moves && b.item.status == Executing then Interrupted
    else if moves && (w.destination !in w.folders || DestinationPath(w).None?) then Conflicts("destination_removed")
    else if b.recorded.None? || b.path.None? then Conflicts("folder_removed")
    else if b.recorded == Some(None) then Conflicts("folder_uninitialized")
    else if b.recorded != Some(b.generation) then Conflicts("generation_changed")
    else if b.message.None? then Conflicts("absent_remote")
    else if b.row.None? then Conflicts("occurrence_missing")
    else if b.row.value.expunged then Conflicts("expunged")
    else if b.row.value.invalidated then Conflicts("invalidated")
    else if b.row.value.uidValidity != b.item.target.uidValidity || Some(b.row.value.uidValidity) != b.generation
    then Conflicts("generation_changed")
    else if Holds(w.ledger.kind, b.message.value) then Already
    else if b.row.value.revision != b.item.target.revision then Conflicts("stale_revision")
    else if b.row.value.modseq != b.item.target.modseq then Conflicts("modseq_changed")
    else Writes
  }

  /** The message shows what a flag kind wants. */
  predicate Holds(kind: ActionKind, m: Message) {
    match kind
    case MarkRead => "\\Seen" in m.flags
    case MarkUnread => "\\Seen" !in m.flags
    case Star => "\\Flagged" in m.flags
    case Unstar => "\\Flagged" !in m.flags
    case _ => false
  }

  /** The flag write of an item whose rows are fresh: message, receipt and row after it. */
  ghost predicate FlagWritten(g: Setting, kind: ActionKind, b: View, a: View)
    requires FlagDesireOf(kind).Some? && b.message.Some? && b.row.Some?
  {
    var desire := FlagDesireOf(kind).value;
    var since := if g.condstore then b.item.target.modseq else None;
    && a.message.Some? && a.row.Some?
    && var shown := ReadFlags(a.message.value, g.condstore);
    && a == b.(item := a.item, row := a.row, message := a.message)
    && (if since.Some? && since.value < b.message.value.modseq then a.message == b.message
        else
          && Spares(b.message.value, a.message.value, true, desire.flag)
          && (Holds(kind, a.message.value) <==> Sound(g.session, desire.flag)))
    && Noted(b.row.value, a.row.value, shown, false)
    && a.item == if Holds(kind, a.message.value) || since.None?
                 then b.item.(status := Confirmed, receipt := Applied(shown, None))
                 else b.item.(status := Conflicted, receipt := Refused("condstore_rejected", Some(shown)))
  }

  /** A message of the given content stands at a UID of the destination allocated since `w`. */
  ghost predicate Landed(w: World, v: World, to: string, at: nat, m: Message) {
    && to in w.mailbox && to in v.mailbox && w.mailbox[to].nextUid <= at < v.mailbox[to].nextUid
    && at in v.mailbox[to].messages && PayloadOf(v.mailbox[to].messages[at]) == PayloadOf(m)
  }

  /** The receipt of a move names the destination, and the coordinates of the copy if the server reported them. */
  predicate Reports(receipt: Receipt, shown: Observed, to: string, generation: nat, at: nat) {
    || receipt == Applied(shown, Some(Landing(to, None, None)))
    || receipt == Applied(shown, Some(Landing(to, Some(generation), Some(at))))
  }

  /** The move of an item whose rows are fresh. */
  ghost predicate MoveMade(g: Setting, w: World, v: World, b: View, a: View)
    requires b.message.Some? && b.row.Some?
  {
    var shown := ReadFlags(b.message.value, g.condstore);
    if !g.move then a == b.(item := b.item.(status := Failed, receipt := Broken("move_unsupported")))
    else if DestinationPath(w).None? || DestinationPath(w).value !in w.mailbox
    then a == b.(item := b.item.(status := Failed, receipt := Broken("move_rejected")))
    else
      var to := DestinationPath(w).value;
      && a == b.(item := b.item.(status := Confirmed, receipt := a.item.receipt), row := a.row, message := None)
      && a.row.Some? && Noted(b.row.value, a.row.value, shown, true)
      && exists at :: Landed(w, v, to, at, b.message.value)
           && Reports(a.item.receipt, shown, to, w.mailbox[to].uidValidity, at)
  }

  /** How item `i` stands in `v` after the run that began in `w` has dealt with it. */
  ghost predicate Ended(g: Setting, w: World, v: World, i: nat)
    requires i < |w.ledger.items| && |v.ledger.items| == |w.ledger.items|
  {
    var b, a := ViewOf(w, i), ViewOf(v, i);
    match FateOf(w, i)
    case Stands => a == b
    case Interrupted => a == b.(item := b.item.(status := Unknown, receipt := Lost("interrupted", None)))
    case Conflicts(reason) => a == b.(item := b.item.(status := Conflicted, receipt := Refused(reason, None)))
    case Already =>
      var shown := ReadFlags(b.message.value, g.condstore);
      && a == b.(item := b.item.(status := Confirmed, receipt := Noop(shown)), row := a.row)
      && a.row.Some? && Noted(b.row.value, a.row.value, shown, false)
    case Writes =>
      if RequiresDestination(w.ledger.kind) then MoveMade(g, w, v, b, a) else FlagWritten(g, w.ledger.kind, b, a)
  }

  /** Names, folders, targets and generations stand; UIDs are only allocated upwards. */
  ghost predicate SameFrame(w: World, v: World) {
    && v.names == w.names && v.destination == w.destination && v.folders == w.folders && v.verdict == w.verdict
    && v.ledger.kind == w.ledger.kind && |v.ledger.items| == |w.ledger.items|
    && (forall i :: 0 <= i < |w.ledger.items| ==> v.ledger.items[i].target == w.ledger.items[i].target)
    && v.mailbox.Keys == w.mailbox.Keys
    && (forall p :: p in w.mailbox ==>
          v.mailbox[p].uidValidity == w.mailbox[p].uidValidity && w.mailbox[p].nextUid <= v.mailbox[p].nextUid)
  }

  /** A message of one of the moved items. */
  ghost predicate CameFrom(w: World, m: Message, done: set<nat>) {
    exists i :: i in done && i < |w.ledger.items| && FateOf(w, i).Writes?
      && ViewOf(w, i).message.Some? && PayloadOf(ViewOf(w, i).message.value) == PayloadOf(m)
  }

  /** The messages off the items' places stand, and what is new was moved. */
  ghost predicate OthersStand(w: World, v: World, done: set<nat>)
    requires SameFrame(w, v)
  {
    && (forall p, u :: p in w.mailbox && u in w.mailbox[p].messages && !IsPlace(w, p, u) ==>
          u in v.mailbox[p].messages && v.mailbox[p].messages[u] == w.mailbox[p].messages[u])
    && (forall p, u :: p in w.mailbox && u in v.mailbox[p].messages && u !in w.mailbox[p].messages ==>
          && RequiresDestination(w.ledger.kind) && DestinationPath(w) == Some(p) && w.mailbox[p].nextUid <= u
          && CameFrom(w, v.mailbox[p].messages[u], done))
  }

  /**
   The state before a run: items apart, UIDs below the next one, and so the frozen UIDs of a move
   that start in its own destination.
   */
  ghost predicate Parted(w: World) {
    && Apart(w) && Tidy(w.mailbox)
    && (RequiresDestination(w.ledger.kind) ==> forall i :: 0 <= i < |w.ledger.items| ==>
          TargetPath(w, i).Some? && TargetPath(w, i) == DestinationPath(w) && TargetPath(w, i).value in w.mailbox ==>
            w.ledger.items[i].target.uid < w.mailbox[TargetPath(w, i).value].nextUid)
  }

  /** Where a run stands, and every step since the service began. */
  datatype Point = Point(world: World, trace: seq<Step>)

  /** The server was called for fresh items alone. */
  ghost predicate CallsFresh(w: World, before: seq<Step>, after: seq<Step>, done: set<nat>) {
    && before <= after
    && forall k :: |before| <= k < |after| && after[k].Remote? ==>
         after[k].item in done && after[k].item < |w.ledger.items| && FateOf(w, after[k].item).Writes?
  }

  /** From one point to another the items in `done` were dealt with, and nothing else changed. */
  ghost predicate Drove(g: Setting, b: Point, a: Point, done: set<nat>) {
    && SameFrame(b.world, a.world) && Tidy(a.world.mailbox) && OthersStand(b.world, a.world, done)
    && (forall i :: 0 <= i < |b.world.ledger.items| ==>
          if i in done then Ended(g, b.world, a.world, i) else ViewOf(a.world, i) == ViewOf(b.world, i))
    && CallsFresh(b.world, b.trace, a.trace, done)
  }

  /** A lost answer and a failure leave every occurrence row as it was: neither shows what the server holds. */
  lemma NothingShown(l: Ledger, i: nat, outcome: ExecutorOutcome)
    requires i < |l.items| && Eligible(l.items[i], ReceiptOf(outcome))
             && (outcome.OutcomeUnknown? || outcome.OutcomeFailed?)
    ensures var m := Commit(l, i, ReceiptOf(outcome));
            && m.occurrences == l.occurrences && |m.items| == |l.items|
            && m.items[i].status == (if outcome.OutcomeUnknown? then Unknown else Failed)
  {
    CommitNotes(l, i, ReceiptOf(outcome));
    assert ObserveIn(l.occurrences, l.items[i].target.occurrence, ReceiptOf(outcome)) == l.occurrences;
  }

  // ---- what one step does to the views ----

  /** A disposition touches its item and the row it observed. */
  lemma CommitViews(w: World, i: nat, write: Write)
    requires Apart(w) && i < |w.ledger.items| && Eligible(w.ledger.items[i], write)
    ensures var v := w.(ledger := Commit(w.ledger, i, write));
            && SameFrame(w, v) && (forall j :: 0 <= j < |w.ledger.items| && j != i ==> ViewOf(v, j) == ViewOf(w, j))
            && var b, a := ViewOf(w, i), ViewOf(v, i);
            && a == b.(item := b.item.(status := write.status, receipt := write.receipt), row := a.row)
            && (a.row.Some? <==> b.row.Some?)
            && (b.row.Some? && !b.row.value.expunged && write.observed.Some? ==>
                  Noted(b.row.value, a.row.value, write.observed.value, write.expunge))
            && (write.observed.None? && !write.expunge ==> a.row == b.row)
  {
    hide Commit, Noted, Eligible;
    CommitNotes(w.ledger, i, write);
    LedgerKeepsKind(w.ledger, i, write);
    var v := w.(ledger := Commit(w.ledger, i, write));
    forall j | 0 <= j < |w.ledger.items| && j != i ensures ViewOf(v, j) == ViewOf(w, j) {
      assert w.ledger.items[j].target.occurrence != w.ledger.items[i].target.occurrence;
    }
    if b :| b == ViewOf(w, i).row && b.Some? && b.value.expunged {
      assert ViewOf(v, i).row == b;
    }
  }

  lemma LedgerKeepsKind(l: Ledger, i: nat, write: Write)
    ensures Commit(l, i, write).kind == l.kind && Claim(l, i).kind == l.kind
  {
  }

  lemma ClaimViews(w: World, i: nat)
    requires i < |w.ledger.items|
    ensures var v := w.(ledger := Claim(w.ledger, i));
            && SameFrame(w, v) && (forall j :: 0 <= j < |w.ledger.items| && j != i ==> ViewOf(v, j) == ViewOf(w, j))
            && var b := ViewOf(w, i);
            ViewOf(v, i) ==
            if b.item.status == Queued then b.(item := b.item.(status := Executing)) else b
  {
  }

  /** An item whose place shows what it showed keeps its view. */
  lemma SpotStands(w: World, v: World, j: nat)
    requires SameFrame(w, v) && v == w.(mailbox := v.mailbox) && j < |w.ledger.items|
    requires TargetPath(w, j).Some? ==>
               MessageAt(v.mailbox, TargetPath(w, j).value, w.ledger.items[j].target.uid) ==
               MessageAt(w.mailbox, TargetPath(w, j).value, w.ledger.items[j].target.uid)
    ensures ViewOf(v, j) == ViewOf(w, j)
  {
  }

  /** The place of another item. */
  lemma OtherSpot(w: World, i: nat, j: nat)
    requires Apart(w) && i < |w.ledger.items| && j < |w.ledger.items| && i != j
    requires TargetPath(w, i).Some? && TargetPath(w, j).Some?
    ensures (TargetPath(w, i), w.ledger.items[i].target.uid) != (TargetPath(w, j), w.ledger.items[j].target.uid)
  {
    assert Place(w, i) != Place(w, j);
  }

  /** The message a flag write leaves. */
  function Rewritten(session: Session, desire: FlagDesire, m: Message, since: Option<nat>, highest: nat): Message {
    if since.Some? && since.value < m.modseq then m
    else m.(flags := NextFlags(StoreMode(session, desire.flag, desire.value), m.flags, [Keyword(desire.flag)]),
            modseq := highest + 1)
  }

  /** A flag write, seen in its folder: one message may change, and its UID stays. */
  lemma FlagWrites(session: Session, m: map<string, FolderState>, path: string, uid: nat, flag: Flag, value: bool,
                   since: Option<nat>)
    requires path in m && uid in m[path].messages
    ensures var n := Perform(session, m, path, uid, SetFlag(flag, value, since)); var was := m[path].messages[uid];
            && n.Keys == m.Keys && MessageAt(n, path, uid) ==
               Some(Rewritten(session, FlagDesire(flag, value), was, since, m[path].highestModseq))
            && (forall p :: p in m ==>
                  n[p].uidValidity == m[p].uidValidity && n[p].nextUid == m[p].nextUid
                  && n[p].messages.Keys == m[p].messages.Keys)
            && (forall p, u :: p in m && u in m[p].messages && !(p == path && u == uid) ==>
                  n[p].messages[u] == m[p].messages[u])
  {
    hide NextFlags;
  }

  /** A flag write touches the message of its item. */
  lemma FlagViews(w: World, session: Session, i: nat, path: string, flag: Flag, value: bool, since: Option<nat>)
    requires Apart(w) && Tidy(w.mailbox) && i < |w.ledger.items| && TargetPath(w, i) == Some(path)
    requires ViewOf(w, i).message.Some?
    ensures var n := Perform(session, w.mailbox, path, w.ledger.items[i].target.uid, SetFlag(flag, value, since));
            var v := w.(mailbox := n); var m := ViewOf(w, i).message.value;
            && SameFrame(w, v) && Tidy(n) && OthersStand(w, v, {i})
            && (forall j :: 0 <= j < |w.ledger.items| && j != i ==> ViewOf(v, j) == ViewOf(w, j))
            && path in w.mailbox
            && ViewOf(v, i) == ViewOf(w, i).(message :=
                 Some(Rewritten(session, FlagDesire(flag, value), m, since, w.mailbox[path].highestModseq)))
  {
    hide NextFlags, Perform, Apart, FateOf;
    var uid := w.ledger.items[i].target.uid;
    var v := w.(mailbox := Perform(session, w.mailbox, path, uid, SetFlag(flag, value, since)));
    PerformKeepsTidy(session, w.mailbox, path, uid, SetFlag(flag, value, since));
    FlagWrites(session, w.mailbox, path, uid, flag, value, since);
    assert IsPlace(w, path, uid) by { assert Place(w, i) == (path, uid); }
    forall j | 0 <= j < |w.ledger.items| && j != i ensures ViewOf(v, j) == ViewOf(w, j) {
      hide ViewOf;
      if TargetPath(w, j).Some? { OtherSpot(w, i, j); }
      SpotStands(w, v, j);
    }
  }

  /**
   What an accepted move of one message does to the server: the message is no longer where it
   was, one of the same content stands at the old next UID of the destination, and every other
   message of every folder is as it was.
   */
  ghost predicate Relocated(m: map<string, FolderState>, n: map<string, FolderState>, path: string, uid: nat,
                            to: string)
    requires path in m && to in m && uid in m[path].messages
  {
    var at := m[to].nextUid;
    && n.Keys == m.Keys
    && at in n[to].messages && PayloadOf(n[to].messages[at]) == PayloadOf(m[path].messages[uid])
    && (forall p, u :: p in m ==>
          (u in n[p].messages <==> (p == to && u == at) || (u in m[p].messages && !(p == path && u == uid))))
    && (forall p, u :: p in m && u in m[p].messages && u in n[p].messages ==> n[p].messages[u] == m[p].messages[u])
    && (forall p :: p in m ==>
          n[p].uidValidity == m[p].uidValidity && n[p].nextUid == m[p].nextUid + if p == to then 1 else 0)
  }

  lemma MoveRelocates(session: Session, m: map<string, FolderState>, path: string, uid: nat, to: string)
    requires Tidy(m) && path in m && to in m && uid in m[path].messages
    ensures Relocated(m, Perform(session, m, path, uid, MoveTo(to)), path, uid, to)
  {
    assert FreshFolder(m[path]) && FreshFolder(m[to]);
  }

  lemma MoveSpares(w: World, n: map<string, FolderState>, i: nat, path: string, to: string)
    requires Apart(w) && i < |w.ledger.items| && TargetPath(w, i) == Some(path)
    requires path in w.mailbox && to in w.mailbox && w.ledger.items[i].target.uid in w.mailbox[path].messages
    requires Relocated(w.mailbox, n, path, w.ledger.items[i].target.uid, to) && SameFrame(w, w.(mailbox := n))
    requires forall j :: 0 <= j < |w.ledger.items| && TargetPath(w, j) == Some(to) ==>
               w.ledger.items[j].target.uid < w.mailbox[to].nextUid
    ensures forall j :: 0 <= j < |w.ledger.items| && j != i ==> ViewOf(w.(mailbox := n), j) == ViewOf(w, j)
  {
    hide ViewOf, Apart;
    var v := w.(mailbox := n);
    forall j | 0 <= j < |w.ledger.items| && j != i ensures ViewOf(v, j) == ViewOf(w, j) {
      if TargetPath(w, j).Some? { OtherSpot(w, i, j); }
      SpotStands(w, v, j);
    }
  }

  lemma MoveArrives(w: World, n: map<string, FolderState>, i: nat, path: string, to: string)
    requires i < |w.ledger.items| && TargetPath(w, i) == Some(path)
    requires RequiresDestination(w.ledger.kind) && DestinationPath(w) == Some(to) && to in w.mailbox
    requires path in w.mailbox && w.ledger.items[i].target.uid in w.mailbox[path].messages && FateOf(w, i).Writes?
    requires Relocated(w.mailbox, n, path, w.ledger.items[i].target.uid, to) && SameFrame(w, w.(mailbox := n))
    ensures OthersStand(w, w.(mailbox := n), {i})
  {
    hide FateOf;
    var uid := w.ledger.items[i].target.uid;
    assert IsPlace(w, path, uid) by { assert Place(w, i) == (path, uid); }
    assert CameFrom(w, n[to].messages[w.mailbox[to].nextUid], {i}) by {
      assert ViewOf(w, i).message == Some(w.mailbox[path].messages[uid]);
    }
  }

  /** An accepted move takes the message of its item away and lands it off every place. */
  lemma MoveViews(w: World, session: Session, i: nat, path: string, to: string)
    requires Parted(w) && i < |w.ledger.items| && TargetPath(w, i) == Some(path)
    requires RequiresDestination(w.ledger.kind) && DestinationPath(w) == Some(to) && to in w.mailbox
    requires ViewOf(w, i).message.Some? && FateOf(w, i).Writes?
    ensures var n := Perform(session, w.mailbox, path, w.ledger.items[i].target.uid, MoveTo(to));
            var v := w.(mailbox := n);
            && SameFrame(w, v) && Tidy(n) && OthersStand(w, v, {i})
            && (forall j :: 0 <= j < |w.ledger.items| && j != i ==> ViewOf(v, j) == ViewOf(w, j))
            && ViewOf(v, i) == ViewOf(w, i).(message := None)
            && Landed(w, v, to, w.mailbox[to].nextUid, ViewOf(w, i).message.value)
  {
    hide Perform, FateOf, OthersStand, Apart;
    var uid := w.ledger.items[i].target.uid;
    var n := Perform(session, w.mailbox, path, uid, MoveTo(to));
    PerformKeepsTidy(session, w.mailbox, path, uid, MoveTo(to));
    MoveRelocates(session, w.mailbox, path, uid, to);
    assert SameFrame(w, w.(mailbox := n));
    MoveSpares(w, n, i, path, to);
    MoveArrives(w, n, i, path, to);
    assert path == to ==> uid < w.mailbox[to].nextUid;
  }

  // ---- putting parts of a run together ----

  lemma FrameKeepsPlaces(w: World, v: World)
    requires SameFrame(w, v)
    ensures forall p, u :: IsPlace(v, p, u) <==> IsPlace(w, p, u)
    ensures Apart(w) ==> Apart(v)
    ensures DestinationPath(v) == DestinationPath(w)
    ensures forall i :: 0 <= i < |w.ledger.items| ==> TargetPath(v, i) == TargetPath(w, i)
  {
    SamePlaces(w, v);
  }

  lemma DroveKeepsParted(g: Setting, b: Point, a: Point, done: set<nat>)
    requires Drove(g, b, a, done) && Parted(b.world)
    ensures Parted(a.world)
  {
    FrameKeepsPlaces(b.world, a.world);
  }

  /** An item whose view, kind and destination stand has the same fate. */
  lemma SameFate(w: World, v: World, i: nat)
    requires SameFrame(w, v) && i < |w.ledger.items| && ViewOf(v, i) == ViewOf(w, i)
    ensures FateOf(v, i) == FateOf(w, i)
  {
  }

  /** A message that landed off every frozen place stays. */
  lemma LandedStands(w: World, m: World, v: World, to: string, at: nat, message: Message, done: set<nat>)
    requires Parted(w) && SameFrame(w, m) && SameFrame(m, v) && OthersStand(m, v, done)
    requires RequiresDestination(w.ledger.kind) && DestinationPath(w) == Some(to) && Landed(w, m, to, at, message)
    ensures Landed(w, v, to, at, message)
  {
    FrameKeepsPlaces(w, m);
    if IsPlace(w, to, at) { FrozenIsAllocated(w, to, at); }
  }

  lemma EndedStands(g: Setting, w: World, m: World, v: World, i: nat, done: set<nat>)
    requires Parted(w) && SameFrame(w, m) && SameFrame(m, v) && OthersStand(m, v, done)
    requires i < |w.ledger.items| && Ended(g, w, m, i) && ViewOf(v, i) == ViewOf(m, i)
    ensures Ended(g, w, v, i)
  {
    var b, a := ViewOf(w, i), ViewOf(m, i);
    if FateOf(w, i).Writes? && RequiresDestination(w.ledger.kind) && g.move && DestinationPath(w).Some?
      && DestinationPath(w).value in w.mailbox {
      var to := DestinationPath(w).value;
      var shown := ReadFlags(b.message.value, g.condstore);
      var at :| Landed(w, m, to, at, b.message.value)
             && Reports(a.item.receipt, shown, to, w.mailbox[to].uidValidity, at);
      LandedStands(w, m, v, to, at, b.message.value, done);
    }
  }

  lemma LaterEnded(g: Setting, w: World, m: World, v: World, i: nat)
    requires SameFrame(w, m) && SameFrame(m, v) && i < |w.ledger.items|
    requires ViewOf(m, i) == ViewOf(w, i) && Ended(g, m, v, i)
    ensures Ended(g, w, v, i)
  {
    SameFate(w, m, i);
    var b, a := ViewOf(w, i), ViewOf(v, i);
    if FateOf(w, i).Writes? && RequiresDestination(w.ledger.kind) && g.move && DestinationPath(w).Some?
      && DestinationPath(w).value in w.mailbox {
      var to := DestinationPath(w).value;
      var shown := ReadFlags(b.message.value, g.condstore);
      var at :| Landed(m, v, to, at, b.message.value)
             && Reports(a.item.receipt, shown, to, w.mailbox[to].uidValidity, at);
      assert Landed(w, v, to, at, b.message.value);
    }
  }

  lemma FrameCompose(w: World, m: World, v: World)
    requires SameFrame(w, m) && SameFrame(m, v)
    ensures SameFrame(w, v)
  {
  }

  lemma CameFromEarlier(w: World, m: World, message: Message, done: set<nat>, before: set<nat>)
    requires SameFrame(w, m) && CameFrom(m, message, done) && before !! done
    requires forall i :: 0 <= i < |w.ledger.items| && i !in before ==> ViewOf(m, i) == ViewOf(w, i)
    ensures CameFrom(w, message, before + done)
  {
    var i :| i in done && i < |m.ledger.items| && FateOf(m, i).Writes?
      && ViewOf(m, i).message.Some? && PayloadOf(ViewOf(m, i).message.value) == PayloadOf(message);
    SameFate(w, m, i);
    assert i in before + done;
  }

  lemma CameFromMore(w: World, message: Message, done: set<nat>, more: set<nat>)
    requires CameFrom(w, message, done) && done <= more
    ensures CameFrom(w, message, more)
  {
  }

  /** No frozen place of a move in its destination waits to be allocated. */
  lemma FrozenIsAllocated(w: World, p: string, u: nat)
    requires Parted(w) && RequiresDestination(w.ledger.kind) && DestinationPath(w) == Some(p) && p in w.mailbox
    requires IsPlace(w, p, u)
    ensures u < w.mailbox[p].nextUid
  {
    var i :| 0 <= i < |w.ledger.items| && w.ledger.items[i].target.folder in w.names && Place(w, i) == (p, u);
    assert TargetPath(w, i) == Some(p);
  }

  lemma OthersCompose(w: World, m: World, v: World, before: set<nat>, done: set<nat>)
    requires Parted(w) && SameFrame(w, m) && SameFrame(m, v) && SameFrame(w, v)
    requires OthersStand(w, m, before) && OthersStand(m, v, done) && before !! done && Tidy(m.mailbox)
    requires forall i :: 0 <= i < |w.ledger.items| && i !in before ==> ViewOf(m, i) == ViewOf(w, i)
    ensures OthersStand(w, v, before + done)
  {
    hide FateOf, ViewOf, Apart;
    FrameKeepsPlaces(w, m);
    forall p, u | p in w.mailbox && u in v.mailbox[p].messages && u !in w.mailbox[p].messages
      ensures RequiresDestination(w.ledger.kind) && DestinationPath(w) == Some(p) && w.mailbox[p].nextUid <= u
      ensures CameFrom(w, v.mailbox[p].messages[u], before + done)
    {
      if u in m.mailbox[p].messages {
        CameFromMore(w, m.mailbox[p].messages[u], before, before + done);
        if IsPlace(w, p, u) { FrozenIsAllocated(w, p, u); }
      } else {
        CameFromEarlier(w, m, v.mailbox[p].messages[u], done, before);
      }
    }
  }

  lemma CallsCompose(w: World, m: World, t0: seq<Step>, t1: seq<Step>, t2: seq<Step>, before: set<nat>, done: set<nat>)
    requires SameFrame(w, m) && CallsFresh(w, t0, t1, before) && CallsFresh(m, t1, t2, done) && before !! done
    requires forall i :: 0 <= i < |w.ledger.items| && i !in before ==> ViewOf(m, i) == ViewOf(w, i)
    ensures CallsFresh(w, t0, t2, before + done)
  {
    hide FateOf, ViewOf;
    forall k | |t0| <= k < |t2| && t2[k].Remote?
      ensures t2[k].item in before + done && t2[k].item < |w.ledger.items| && FateOf(w, t2[k].item).Writes?
    {
      if k < |t1| {
        assert t2[k] == t1[k];
      } else {
        SameFate(w, m, t2[k].item);
      }
    }
  }

  /** Two parts of a run that dealt with different items. */
  lemma DroveCompose(g: Setting, b: Point, m: Point, a: Point, before: set<nat>, done: set<nat>)
    requires Parted(b.world) && Drove(g, b, m, before) && Drove(g, m, a, done) && before !! done
    ensures Drove(g, b, a, before + done)
  {
    hide FateOf, ViewOf, Ended, Parted, OthersStand, CallsFresh, SameFrame;
    var w, n, v := b.world, m.world, a.world;
    FrameCompose(w, n, v);
    SizeOf(w, n);
    OthersCompose(w, n, v, before, done);
    CallsCompose(w, n, b.trace, m.trace, a.trace, before, done);
    forall i | 0 <= i < |w.ledger.items|
      ensures if i in before + done then Ended(g, w, v, i) else ViewOf(v, i) == ViewOf(w, i)
    {
      if i in before {
        EndedStands(g, w, n, v, i, done);
      } else if i in done {
        LaterEnded(g, w, n, v, i);
      }
    }
  }

  lemma SizeOf(w: World, v: World)
    requires SameFrame(w, v)
    ensures |v.ledger.items| == |w.ledger.items|
  {
  }

  /** Steps that touch neither rows nor the server. */
  lemma DroveNothing(g: Setting, b: Point, a: Point)
    requires Tidy(b.world.mailbox) && b.trace <= a.trace
    requires a.world == b.world.(ledger := a.world.ledger)
    requires a.world.ledger.kind == b.world.ledger.kind && a.world.ledger.items == b.world.ledger.items
    requires a.world.ledger.occurrences == b.world.ledger.occurrences
    requires forall k :: |b.trace| <= k < |a.trace| ==> !a.trace[k].Remote?
    ensures Drove(g, b, a, {})
  {
    forall i | 0 <= i < |b.world.ledger.items| ensures ViewOf(a.world, i) == ViewOf(b.world, i) {
    }
  }

  // ---- one item ----

  /** A part of a run that changed the rows of one item alone. */
  lemma RowsEnd(g: Setting, b: Point, a: Point, i: nat)
    requires Tidy(b.world.mailbox) && SameFrame(b.world, a.world) && a.world.mailbox == b.world.mailbox
    requires i < |b.world.ledger.items| && Ended(g, b.world, a.world, i)
    requires forall j :: 0 <= j < |b.world.ledger.items| && j != i ==> ViewOf(a.world, j) == ViewOf(b.world, j)
    requires CallsFresh(b.world, b.trace, a.trace, {i})
    ensures Drove(g, b, a, {i})
  {
    hide Ended, ViewOf, CallsFresh;
  }

  lemma NoCall(b: Point, step: Step, i: nat)
    requires !step.Remote?
    ensures CallsFresh(b.world, b.trace, b.trace + [step], {i})
  {
  }

  /** A conflict recorded for the reason the state gives. */
  lemma ConflictEnds(g: Setting, b: Point, i: nat, reason: string, step: Step)
    requires Parted(b.world) && i < |b.world.ledger.items| && FateOf(b.world, i) == Conflicts(reason)
    requires !step.Remote?
    ensures Drove(g, b, Point(b.world.(ledger := Commit(b.world.ledger, i, ConflictWrite(reason))), b.trace + [step]),
                  {i})
  {
    CommitViews(b.world, i, ConflictWrite(reason));
    NoCall(b, step, i);
    RowsEnd(g, b, Point(b.world.(ledger := Commit(b.world.ledger, i, ConflictWrite(reason))), b.trace + [step]), i);
  }

  /** A no-op recorded for a flag that is as desired. */
  lemma NoopEnds(g: Setting, b: Point, i: nat, shown: Observed, step: Step)
    requires Parted(b.world) && i < |b.world.ledger.items| && FateOf(b.world, i) == Already && !step.Remote?
    requires ViewOf(b.world, i).message.Some? && shown == ReadFlags(ViewOf(b.world, i).message.value, g.condstore)
    ensures Drove(g, b, Point(b.world.(ledger := Commit(b.world.ledger, i, NoopWrite(shown))), b.trace + [step]), {i})
  {
    CommitViews(b.world, i, NoopWrite(shown));
    NoCall(b, step, i);
    RowsEnd(g, b, Point(b.world.(ledger := Commit(b.world.ledger, i, NoopWrite(shown))), b.trace + [step]), i);
  }

  /** The hold of an interrupted claim. */
  lemma HoldEnds(g: Setting, b: Point, i: nat, step: Step)
    requires Parted(b.world) && i < |b.world.ledger.items| && FateOf(b.world, i) == Interrupted && !step.Remote?
    ensures Drove(g, b, Point(b.world.(ledger := Commit(b.world.ledger, i, INTERRUPTED_HOLD)), b.trace + [step]), {i})
  {
    CommitViews(b.world, i, INTERRUPTED_HOLD);
    NoCall(b, step, i);
    RowsEnd(g, b, Point(b.world.(ledger := Commit(b.world.ledger, i, INTERRUPTED_HOLD)), b.trace + [step]), i);
  }

  ghost function Below(n: nat): (r: set<nat>)
    ensures forall i :: i in r <==> 0 <= i < n
  {
    if n == 0 then {} else Below(n - 1) + {n - 1}
  }

  /** Once every pending item was dealt with, every item ended. */
  lemma DroveAll(g: Setting, b: Point, a: Point, done: set<nat>)
    requires Drove(g, b, a, done)
    requires forall i :: 0 <= i < |b.world.ledger.items| && PendingItem(b.world.ledger.items[i].status) ==> i in done
    requires done <= Below(|b.world.ledger.items|)
    ensures Drove(g, b, a, Below(|b.world.ledger.items|))
  {
    hide Ended;
    var all := Below(|b.world.ledger.items|);
    forall i | 0 <= i < |b.world.ledger.items| ensures Ended(g, b.world, a.world, i) {
      if i !in done { StandsEnds(g, b.world, a.world, i); }
    }
    hide FateOf, ViewOf, IsPlace;
    forall p, u | p in b.world.mailbox && u in a.world.mailbox[p].messages && u !in b.world.mailbox[p].messages
      ensures CameFrom(b.world, a.world.mailbox[p].messages[u], all)
    {
      CameFromMore(b.world, a.world.mailbox[p].messages[u], done, all);
    }
  }

  lemma StandsEnds(g: Setting, w: World, v: World, i: nat)
    requires i < |w.ledger.items| && |v.ledger.items| == |w.ledger.items| && ViewOf(v, i) == ViewOf(w, i)
    requires !PendingItem(w.ledger.items[i].status)
    ensures Ended(g, w, v, i)
  {
  }

  // ---- the write of one item ----

  /** What the executor does and answers for a claimed item that nothing disturbs. */
  ghost predicate Answered(g: Setting, w: World, v: World, i: nat, path: string, remote: Observed,
                           outcome: ExecutorOutcome)
    requires i < |w.ledger.items|
  {
    var uid := w.ledger.items[i].target.uid;
    match FlagDesireOf(w.ledger.kind)
    case Some(desire) =>
      var since := Condition(w, i, g.condstore);
      && v == w.(mailbox := Perform(g.session, w.mailbox, path, uid, SetFlag(desire.flag, desire.value, since)))
      && (FlagsAt(v, i, path, g.condstore).Some? ==>
            var shown := FlagsAt(v, i, path, g.condstore).value;
            outcome == if FlagOf(shown, desire.flag) == desire.value || since.None?
                       then OutcomeConfirmed(shown, None) else OutcomeConflicted("condstore_rejected", shown))
    case None =>
      if !g.move then v == w && outcome == OutcomeFailed("move_unsupported")
      else if DestinationPath(w).None? || DestinationPath(w).value !in w.mailbox
      then v == w && outcome == OutcomeFailed("move_rejected")
      else
        var to := DestinationPath(w).value;
        && v == w.(mailbox := Perform(g.session, w.mailbox, path, uid, MoveTo(to)))
        && outcome.OutcomeConfirmed? && outcome.observed == remote && outcome.movedTo.Some?
        && Reports(Applied(remote, outcome.movedTo), remote, to, w.mailbox[to].uidValidity, w.mailbox[to].nextUid)
  }

  lemma HoldsReads(kind: ActionKind, m: Message, condstore: bool)
    requires FlagDesireOf(kind).Some?
    ensures var desire := FlagDesireOf(kind).value;
            && (Holds(kind, m) <==> FlagOf(ReadFlags(m, condstore), desire.flag) == desire.value)
            && (Holds(kind, m) <==> ReadsAs(m, desire))
  {
  }

  /** One item from its claim to its receipt, around a call that left the server as in `called`. */
  ghost predicate Chained(w: World, called: World, u: World, i: nat, write: Write)
    requires i < |w.ledger.items|
  {
    && |called.ledger.items| == |w.ledger.items| && |u.ledger.items| == |w.ledger.items|
    && SameFrame(w, u) && u.mailbox == called.mailbox
    && (forall j :: 0 <= j < |w.ledger.items| && j != i ==> ViewOf(u, j) == ViewOf(w, j))
    && var b, a := ViewOf(called, i), ViewOf(u, i);
    && a == b.(item := w.ledger.items[i].(status := write.status, receipt := write.receipt), row := a.row)
    && (a.row.Some? <==> b.row.Some?)
    && (b.row.Some? && !b.row.value.expunged && write.observed.Some? ==>
          Noted(b.row.value, a.row.value, write.observed.value, write.expunge))
    && (write.observed.None? && !write.expunge ==> a.row == b.row)
  }

  /** Claim and receipt around a call: the rows of one item change, the server is as the call left it. */
  lemma WriteChain(w: World, called: World, u: World, i: nat, write: Write)
    requires Apart(w) && i < |w.ledger.items| && PendingItem(w.ledger.items[i].status)
    requires SameFrame(w, called) && called == w.(mailbox := called.mailbox)
    requires forall j :: 0 <= j < |w.ledger.items| && j != i ==> ViewOf(called, j) == ViewOf(w, j)
    requires u == called.(ledger := Commit(Claim(w.ledger, i), i, write))
    ensures Chained(w, called, u, i, write)
  {
    hide Commit, Apart, Noted, CameFrom, IsPlace;
    ClaimViews(called, i);
    var c := called.(ledger := Claim(w.ledger, i));
    FrameCompose(w, called, c);
    FrameKeepsPlaces(w, c);
    assert Eligible(c.ledger.items[i], write);
    hide Claim;
    CommitViews(c, i, write);
    FrameCompose(w, c, u);
  }

  /** Rows do not matter to the messages of others. */
  lemma OthersThrough(w: World, called: World, u: World, i: nat)
    requires SameFrame(w, called) && SameFrame(w, u) && u.mailbox == called.mailbox && OthersStand(w, called, {i})
    ensures OthersStand(w, u, {i})
  {
  }

  /** The receipt of a flag write, read off the message it left. */
  lemma FlagReceipt(g: Setting, kind: ActionKind, b: View, a: View, highest: nat, outcome: ExecutorOutcome)
    requires FlagDesireOf(kind).Some? && b.message.Some? && b.row.Some? && a.row.Some?
    requires var desire := FlagDesireOf(kind).value;
             var since := if g.condstore then b.item.target.modseq else None;
             var n := Rewritten(g.session, desire, b.message.value, since, highest);
             var shown := ReadFlags(n, g.condstore);
             && outcome == (if FlagOf(shown, desire.flag) == desire.value || since.None?
                            then OutcomeConfirmed(shown, None) else OutcomeConflicted("condstore_rejected", shown))
             && a == b.(item := b.item.(status := ReceiptOf(outcome).status, receipt := ReceiptOf(outcome).receipt),
                        row := a.row, message := Some(n))
             && Noted(b.row.value, a.row.value, shown, false)
    ensures FlagWritten(g, kind, b, a)
  {
    hide Noted, NextFlags, StoreMode, Spares, ReadsAs;
    WriteReadsExactly(g.session, b.message.value, FlagDesireOf(kind).value, highest + 1);
    HoldsReads(kind, a.message.value, g.condstore);
  }

  /** What stands where an item is to be written. */
  lemma WritesNeeds(w: World, i: nat)
    requires i < |w.ledger.items| && FateOf(w, i).Writes?
    ensures var b := ViewOf(w, i);
            && PendingItem(w.ledger.items[i].status) && b.message.Some? && b.row.Some? && !b.row.value.expunged
            && b.path.Some? && b.path.value in w.mailbox
               && w.ledger.items[i].target.uid in w.mailbox[b.path.value].messages
            && !Holds(w.ledger.kind, b.message.value) && b.item == w.ledger.items[i]
  {
  }

  lemma ShownAt(w: World, i: nat, path: string, condstore: bool)
    requires i < |w.ledger.items| && TargetPath(w, i) == Some(path)
    ensures ViewOf(w, i).message.Some? ==>
              FlagsAt(w, i, path, condstore) == Some(ReadFlags(ViewOf(w, i).message.value, condstore))
  {
  }

  /** The end of a flag write, from the views after the call and after the receipt. */
  lemma WrittenEnds(g: Setting, w: World, v: World, u: World, i: nat, highest: nat, outcome: ExecutorOutcome)
    requires i < |w.ledger.items| == |v.ledger.items| == |u.ledger.items|
    requires FateOf(w, i).Writes? && FlagDesireOf(w.ledger.kind).Some?
    requires Chained(w, v, u, i, ReceiptOf(outcome))
    requires var desire := FlagDesireOf(w.ledger.kind).value; var since := Condition(w, i, g.condstore);
             var b, c := ViewOf(w, i), ViewOf(v, i);
             && b.message.Some? && b.row.Some? && !b.row.value.expunged && b.item == w.ledger.items[i]
             && c == b.(message := Some(Rewritten(g.session, desire, b.message.value, since, highest)))
             && var shown := ReadFlags(c.message.value, g.condstore);
             outcome == if FlagOf(shown, desire.flag) == desire.value || since.None?
                        then OutcomeConfirmed(shown, None) else OutcomeConflicted("condstore_rejected", shown)
    ensures Ended(g, w, u, i)
  {
    KindsPartition(w.ledger.kind);
    assert Condition(w, i, g.condstore) == if g.condstore then ViewOf(w, i).item.target.modseq else None;
    hide ViewOf, FateOf, Condition, Noted, NextFlags, StoreMode, FlagWritten, SameFrame;
    FlagReceipt(g, w.ledger.kind, ViewOf(w, i), ViewOf(u, i), highest, outcome);
  }

  lemma FlagEnds(g: Setting, w: World, v: World, i: nat, path: string, remote: Observed, outcome: ExecutorOutcome)
    requires Parted(w) && i < |w.ledger.items| && FateOf(w, i).Writes? && FlagDesireOf(w.ledger.kind).Some?
    requires TargetPath(w, i) == Some(path)
    requires Answered(g, w.(ledger := Claim(w.ledger, i)), v, i, path, remote, outcome)
    ensures |v.ledger.items| == |w.ledger.items|
    ensures var u := v.(ledger := Commit(v.ledger, i, ReceiptOf(outcome)));
            && SameFrame(w, u) && Tidy(u.mailbox) && OthersStand(w, u, {i}) && Ended(g, w, u, i)
            && (forall j :: 0 <= j < |w.ledger.items| && j != i ==> ViewOf(u, j) == ViewOf(w, j))
  {
    ClaimKeepsRest(w.ledger, i, ReceiptOf(outcome));
    var called, u := w.(mailbox := v.mailbox), v.(ledger := Commit(v.ledger, i, ReceiptOf(outcome)));
    ShownAt(called, i, path, g.condstore);
    assert FlagsAt(v, i, path, g.condstore) == FlagsAt(called, i, path, g.condstore);
    hide Commit, Claim, Perform, OthersStand, Tidy, SameFrame, FateOf, ViewOf, Noted, Ended, Apart, Holds, Rewritten,
         FlagsAt, ReadFlags, TargetPath, FlagOf, Chained;
    WritesNeeds(w, i);
    var desire := FlagDesireOf(w.ledger.kind).value;
    FlagViews(w, g.session, i, path, desire.flag, desire.value, Condition(w, i, g.condstore));
    hide FlagDesireOf;
    WriteChain(w, called, u, i, ReceiptOf(outcome));
    OthersThrough(w, called, u, i);
    ChainedFrame(w, called, u, i, ReceiptOf(outcome));
    WrittenEnds(g, w, called, u, i, w.mailbox[path].highestModseq, outcome);
  }

  lemma ChainedFrame(w: World, called: World, u: World, i: nat, write: Write)
    requires i < |w.ledger.items| && Chained(w, called, u, i, write)
    ensures |u.ledger.items| == |w.ledger.items| && SameFrame(w, u) && u.mailbox == called.mailbox
    ensures forall j :: 0 <= j < |w.ledger.items| && j != i ==> ViewOf(u, j) == ViewOf(w, j)
  {
  }

  lemma ClaimKeepsRest(l: Ledger, i: nat, write: Write)
    requires i < |l.items|
    ensures Claim(l, i).kind == l.kind && |Claim(l, i).items| == |l.items|
    ensures Claim(l, i).items[i].target == l.items[i].target
    ensures |Commit(Claim(l, i), i, write).items| == |l.items|
  {
  }

  /** A move that was not made leaves everything but its receipt. */
  lemma UnmovedEnds(g: Setting, w: World, i: nat, code: string)
    requires Parted(w) && i < |w.ledger.items| && FateOf(w, i).Writes? && RequiresDestination(w.ledger.kind)
    requires if !g.move then code == "move_unsupported"
             else code == "move_rejected" && (DestinationPath(w).None? || DestinationPath(w).value !in w.mailbox)
    ensures |Claim(w.ledger, i).items| == |w.ledger.items|
    ensures var u := w.(ledger := Commit(Claim(w.ledger, i), i, ReceiptOf(OutcomeFailed(code))));
            && SameFrame(w, u) && OthersStand(w, u, {i})
            && (forall j :: 0 <= j < |w.ledger.items| && j != i ==> ViewOf(u, j) == ViewOf(w, j))
            && Ended(g, w, u, i)
  {
    hide Commit, Apart, Noted;
    assert w.(mailbox := w.mailbox) == w;
    var u := w.(ledger := Commit(Claim(w.ledger, i), i, ReceiptOf(OutcomeFailed(code))));
    WriteChain(w, w, u, i, ReceiptOf(OutcomeFailed(code)));
    ClaimKeepsRest(w.ledger, i, ReceiptOf(OutcomeFailed(code)));
    OthersThrough(w, w, u, i);
    hide Claim, OthersStand, SameFrame;
  }

  /** The end of a move, from the views after the call and after the receipt. */
  lemma MovedEnds(g: Setting, w: World, called: World, u: World, i: nat, to: string, landing: Landing)
    requires i < |w.ledger.items| && FateOf(w, i).Writes? && ViewOf(w, i).message.Some? && ViewOf(w, i).row.Some?
    requires RequiresDestination(w.ledger.kind) && DestinationPath(w) == Some(to) && to in w.mailbox && g.move
    requires var remote := ReadFlags(ViewOf(w, i).message.value, g.condstore);
             && Chained(w, called, u, i, ReceiptOf(OutcomeConfirmed(remote, Some(landing))))
             && Reports(Applied(remote, Some(landing)), remote, to, w.mailbox[to].uidValidity, w.mailbox[to].nextUid)
    requires ViewOf(called, i) == ViewOf(w, i).(message := None) && !ViewOf(w, i).row.value.expunged
    requires ViewOf(w, i).item == w.ledger.items[i]
    requires Landed(w, called, to, w.mailbox[to].nextUid, ViewOf(w, i).message.value)
    ensures Ended(g, w, u, i)
  {
    hide ViewOf, FateOf, SameFrame, ReadFlags;
    assert Landed(w, u, to, w.mailbox[to].nextUid, ViewOf(w, i).message.value);
  }

  lemma MoveEnds(g: Setting, w: World, v: World, i: nat, path: string, remote: Observed, outcome: ExecutorOutcome)
    requires Parted(w) && i < |w.ledger.items| && FateOf(w, i).Writes? && RequiresDestination(w.ledger.kind)
    requires TargetPath(w, i) == Some(path) && remote == ReadFlags(ViewOf(w, i).message.value, g.condstore)
    requires Answered(g, w.(ledger := Claim(w.ledger, i)), v, i, path, remote, outcome)
    ensures |v.ledger.items| == |w.ledger.items|
    ensures var u := v.(ledger := Commit(v.ledger, i, ReceiptOf(outcome)));
            && SameFrame(w, u) && Tidy(u.mailbox) && OthersStand(w, u, {i}) && Ended(g, w, u, i)
            && (forall j :: 0 <= j < |w.ledger.items| && j != i ==> ViewOf(u, j) == ViewOf(w, j))
  {
    ClaimKeepsRest(w.ledger, i, ReceiptOf(outcome));
    WritesNeeds(w, i);
    KindsPartition(w.ledger.kind);
    var to, called, u := DestinationPath(w), w.(mailbox := v.mailbox),
        v.(ledger := Commit(v.ledger, i, ReceiptOf(outcome)));
    if !g.move || to.None? || to.value !in w.mailbox {
      hide Commit, Claim, Apart, OthersStand, SameFrame, Ended, FateOf, ViewOf, Tidy;
      UnmovedEnds(g, w, i, if !g.move then "move_unsupported" else "move_rejected");
      assert v.(ledger := w.ledger) == w;
    } else {
      MoveViews(w, g.session, i, path, to.value);
      hide Commit, Claim, Perform, Apart, OthersStand, SameFrame, Ended, FateOf, ViewOf, Tidy, Noted, Landed, Holds;
      WriteChain(w, called, u, i, ReceiptOf(outcome));
      OthersThrough(w, called, u, i);
      MovedEnds(g, w, called, u, i, to.value, outcome.movedTo.value);
    }
  }

  /** The whole write of one item, from its claim to its receipt. */
  lemma WriteEnds(g: Setting, b: Point, a: Point, v: World, i: nat, path: string, remote: Observed,
                  outcome: ExecutorOutcome)
    requires Parted(b.world) && i < |b.world.ledger.items| && FateOf(b.world, i).Writes?
    requires TargetPath(b.world, i) == Some(path)
    requires remote == ReadFlags(ViewOf(b.world, i).message.value, g.condstore)
    requires |Claim(b.world.ledger, i).items| == |b.world.ledger.items|
    requires Answered(g, b.world.(ledger := Claim(b.world.ledger, i)), v, i, path, remote, outcome)
    requires a.world == v.(ledger := Commit(v.ledger, i, ReceiptOf(outcome)))
    requires b.trace <= a.trace
             && forall k :: |b.trace| <= k < |a.trace| && a.trace[k].Remote? ==> a.trace[k].item == i
    ensures Drove(g, b, a, {i})
  {
    hide Commit, Claim, Perform, Parted, OthersStand, Tidy, SameFrame, Answered, Ended, ViewOf;
    KindsPartition(b.world.ledger.kind);
    if FlagDesireOf(b.world.ledger.kind).Some? {
      FlagEnds(g, b.world, v, i, path, remote, outcome);
    } else {
      MoveEnds(g, b.world, v, i, path, remote, outcome);
    }
  }

  /**
   A move that a run confirmed: the message stands under the path of the frozen destination, at
   a UID allocated since, and no longer at its frozen place.
   */
  ghost predicate ConfirmedStandsThere(w: World, v: World, i: nat)
    requires i < |w.ledger.items|
  {
    i < |v.ledger.items| &&
    (PendingItem(w.ledger.items[i].status) && v.ledger.items[i].status == Confirmed ==>
       && DestinationPath(w).Some? && TargetPath(w, i).Some?
       && var to, path, uid := DestinationPath(w).value, TargetPath(w, i).value, w.ledger.items[i].target.uid;
       && MessageAt(w.mailbox, path, uid).Some? && MessageAt(v.mailbox, path, uid).None?
       && exists at :: Landed(w, v, to, at, MessageAt(w.mailbox, path, uid).value))
  }

  lemma MovedStands(g: Setting, w: World, v: World, i: nat)
    requires i < |w.ledger.items| && |v.ledger.items| == |w.ledger.items| && RequiresDestination(w.ledger.kind)
    requires Ended(g, w, v, i)
    ensures ConfirmedStandsThere(w, v, i)
  {
    var b, a := ViewOf(w, i), ViewOf(v, i);
    assert a.item == v.ledger.items[i];
    if PendingItem(b.item.status) && a.item.status == Confirmed {
      assert FateOf(w, i).Writes? && a.message.None?;
    }
  }
}
