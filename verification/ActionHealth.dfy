/** What a flag action in a quiet world keeps true of every item, claimed, written or not yet begun. */
module ActionHealth {
  import opened Wrappers
  import opened ActionKinds
  import opened ActionLedger
  import opened MailboxStore
  import opened ImapCommands
  import opened ActionProtocol
  import opened ActionIdentity

  /** The server place an item names. */
  function Place(w: World, i: nat): (string, nat)
    requires i < |w.ledger.items| && w.ledger.items[i].target.folder in w.names
  {
    (w.names[w.ledger.items[i].target.folder], w.ledger.items[i].target.uid)
  }

  /** The item's folder is recorded and stands, its message and its occurrence row are there. */
  predicate Present(w: World, i: nat)
    requires i < |w.ledger.items|
  {
    var t := w.ledger.items[i].target;
    && t.folder in w.names && t.folder in w.folders && w.folders[t.folder] == Some(t.uidValidity)
    && w.names[t.folder] in w.mailbox
    && w.mailbox[w.names[t.folder]].uidValidity == t.uidValidity
    && t.uid in w.mailbox[w.names[t.folder]].messages
    && t.occurrence in w.ledger.occurrences
    && !w.ledger.occurrences[t.occurrence].expunged && !w.ledger.occurrences[t.occurrence].invalidated
    && w.ledger.occurrences[t.occurrence].uidValidity == t.uidValidity
  }

  function MessageOf(w: World, i: nat): Message
    requires i < |w.ledger.items| && Present(w, i)
  {
    w.mailbox[Place(w, i).0].messages[Place(w, i).1]
  }

  predicate ReadsAs(m: Message, desire: FlagDesire) {
    FlagOf(ReadFlags(m, false), desire.flag) == desire.value
  }

  predicate Desired(w: World, i: nat, desire: FlagDesire)
    requires i < |w.ledger.items|
  {
    Present(w, i) && ReadsAs(MessageOf(w, i), desire)
  }

  /** The condition a conditional write of item `i` carries. */
  function Condition(w: World, i: nat, condstore: bool): Option<nat>
    requires i < |w.ledger.items|
  {
    if condstore then w.ledger.items[i].target.modseq else None
  }

  /** An item on its way to confirmation: what it froze still holds until its write, and its flag after. */
  predicate OnItsWay(w: World, i: nat, desire: FlagDesire, condstore: bool)
    requires i < |w.ledger.items|
  {
    var item := w.ledger.items[i];
    && Present(w, i)
    && item.status in {Queued, Executing, Confirmed}
    && (PendingItem(item.status) ==>
          && w.ledger.occurrences[item.target.occurrence].revision == item.target.revision
          && w.ledger.occurrences[item.target.occurrence].modseq == item.target.modseq)
    && (PendingItem(item.status) && !ReadsAs(MessageOf(w, i), desire) && Condition(w, i, condstore).Some? ==>
          MessageOf(w, i).modseq <= Condition(w, i, condstore).value)
    && (item.status == Confirmed ==> ReadsAs(MessageOf(w, i), desire))
  }

  /** Items name different occurrences and different places. */
  ghost predicate Apart(w: World) {
    forall i, j :: 0 <= i < |w.ledger.items| && 0 <= j < |w.ledger.items| && i != j ==>
      && w.ledger.items[i].target.occurrence != w.ledger.items[j].target.occurrence
      && (w.ledger.items[i].target.folder in w.names && w.ledger.items[j].target.folder in w.names ==>
            Place(w, i) != Place(w, j))
  }

  ghost predicate IsPlace(w: World, p: string, u: nat) {
    exists i :: 0 <= i < |w.ledger.items| && w.ledger.items[i].target.folder in w.names && Place(w, i) == (p, u)
  }

  /** Against the message before the action: content and every other flag stand; off target, everything does. */
  ghost predicate Spares(before: Message, after: Message, target: bool, flag: Flag) {
    if target
    then SameMessage(after, before) && forall x :: UpperText(x) != UpperText(Keyword(flag)) ==>
        (x in after.flags <==> x in before.flags)
    else after == before
  }

  ghost predicate Spared(origin: map<string, FolderState>, w: World, flag: Flag) {
    && w.mailbox.Keys == origin.Keys
    && (forall p :: p in origin ==>
          && w.mailbox[p].uidValidity == origin[p].uidValidity && w.mailbox[p].nextUid == origin[p].nextUid
          && w.mailbox[p].messages.Keys == origin[p].messages.Keys)
    && (forall p, u :: p in origin && u in origin[p].messages ==>
          Spares(origin[p].messages[u], w.mailbox[p].messages[u], IsPlace(w, p, u), flag))
  }

  ghost predicate Healthy(w: World, origin: map<string, FolderState>, desire: FlagDesire, condstore: bool) {
    && FlagDesireOf(w.ledger.kind) == Some(desire)
    && Apart(w)
    && (forall i :: 0 <= i < |w.ledger.items| ==> OnItsWay(w, i, desire, condstore))
    && Spared(origin, w, desire.flag)
  }

  /** Submitting against rows and messages as they were just observed starts a healthy action. */
  lemma QueuedIsHealthy(w: World, targets: seq<Target>, generation: nat, desire: FlagDesire, condstore: bool)
    requires FlagDesireOf(w.ledger.kind) == Some(desire) && Apart(w)
    requires w.ledger == QueuedLedger(w.ledger.kind, generation, targets, w.ledger.occurrences)
    requires forall i :: 0 <= i < |targets| ==>
               && Present(w, i)
               && w.ledger.occurrences[targets[i].occurrence].revision == targets[i].revision
               && w.ledger.occurrences[targets[i].occurrence].modseq == targets[i].modseq
               && (condstore && targets[i].modseq.Some? ==> MessageOf(w, i).modseq <= targets[i].modseq.value)
    ensures Healthy(w, w.mailbox, desire, condstore)
  {
    forall i | 0 <= i < |w.ledger.items| ensures OnItsWay(w, i, desire, condstore) {
      assert Present(w, i) && w.ledger.items[i].target == targets[i];
    }
  }

  /** A session whose write of `flag` sets the value it was asked for. */
  predicate Sound(session: Session, flag: Flag) {
    session.Promised? || flag.Flagged?
  }

  // ---- what one write does to one message ----

  lemma AddReads(current: seq<string>, word: string)
    ensures word in NextFlags(Add, current, [word])
    ensures forall x :: x != word ==> (x in NextFlags(Add, current, [word]) <==> x in current)
  {
  }

  lemma RemoveReads(current: seq<string>, word: string)
    ensures word !in NextFlags(Remove, current, [word])
    ensures forall x :: UpperText(x) != UpperText(word) ==> (x in NextFlags(Remove, current, [word]) <==> x in current)
  {
    assert word in [word];
  }

  /**
   What an applied flag write leaves to read: the requested value exactly when the session is
   sound for that flag. Through the shipped session an unread write always leaves the opposite.
   */
  lemma WriteReadsExactly(session: Session, m: Message, desire: FlagDesire, modseq: nat)
    ensures var after := m.(flags := NextFlags(StoreMode(session, desire.flag, desire.value), m.flags,
                                               [Keyword(desire.flag)]), modseq := modseq);
            && (ReadsAs(after, desire) <==> Sound(session, desire.flag))
            && Spares(m, after, true, desire.flag)
  {
    AddReads(m.flags, Keyword(desire.flag));
    RemoveReads(m.flags, Keyword(desire.flag));
  }

  /**
   What each kind leaves in the flags of its message through a session that keeps the promise of
   its port: read ones carry the seen flag, unread ones do not, starred ones carry the flagged
   one, unstarred ones do not.
   */
  lemma KindLeaves(kind: ActionKind, m: Message)
    requires IsReplayableKind(kind)
    ensures FlagDesireOf(kind).Some?
    ensures var desire := FlagDesireOf(kind).value;
            var after := NextFlags(StoreMode(Promised, desire.flag, desire.value), m.flags, [Keyword(desire.flag)]);
            match kind
            case MarkRead => "\\Seen" in after && ("\\Flagged" in after <==> "\\Flagged" in m.flags)
            case MarkUnread => "\\Seen" !in after && ("\\Flagged" in after <==> "\\Flagged" in m.flags)
            case Star => "\\Flagged" in after && ("\\Seen" in after <==> "\\Seen" in m.flags)
            case Unstar => "\\Flagged" !in after && ("\\Seen" in after <==> "\\Seen" in m.flags)
            case _ => true
  {
    AddReads(m.flags, SEEN);
    AddReads(m.flags, FLAGGED);
    RemoveReads(m.flags, SEEN);
    RemoveReads(m.flags, FLAGGED);
    assert |UpperText(SEEN)| == |SEEN| && |UpperText(FLAGGED)| == |FLAGGED|;
  }

  // ---- every step of a quiet run keeps the world healthy ----

  /** What a disposition leaves of the row and the item at `j`. */
  lemma CommitAt(l: Ledger, i: nat, write: Write, j: nat)
    requires i < |l.items| && j < |l.items| && !write.expunge
    requires j != i ==> l.items[i].target.occurrence != l.items[j].target.occurrence
    ensures var m := Commit(l, i, write); var id := l.items[j].target.occurrence;
            && |m.items| == |l.items| && m.items[j].target == l.items[j].target
            && (j != i ==>
                  m.items[j] == l.items[j]
                      && (id in l.occurrences ==> id in m.occurrences && m.occurrences[id] == l.occurrences[id]))
            && (m.items[j].status in {l.items[j].status, write.status})
            && (j == i && PendingItem(l.items[j].status) ==> m.items[j].status == write.status)
            && (id in l.occurrences ==> id in m.occurrences
                                        && m.occurrences[id].expunged == l.occurrences[id].expunged
                                        && m.occurrences[id].invalidated == l.occurrences[id].invalidated
                                        && m.occurrences[id].uidValidity == l.occurrences[id].uidValidity)
  {
  }

  lemma ConfirmKeepsItem(w: World, desire: FlagDesire, condstore: bool, i: nat, write: Write, j: nat)
    requires i < |w.ledger.items| && j < |w.ledger.items| && OnItsWay(w, j, desire, condstore)
    requires j != i ==> w.ledger.items[i].target.occurrence != w.ledger.items[j].target.occurrence
    requires write.status == Confirmed && !write.expunge && Desired(w, i, desire)
    ensures OnItsWay(w.(ledger := Commit(w.ledger, i, write)), j, desire, condstore)
  {
    CommitAt(w.ledger, i, write, j);
    var v := w.(ledger := Commit(w.ledger, i, write));
    assert Present(v, j) && MessageOf(v, j) == MessageOf(w, j);
  }

  /** Item `i` gets its confirmed receipt. */
  lemma ConfirmKeepsHealthy(w: World, origin: map<string, FolderState>, desire: FlagDesire, condstore: bool, i: nat,
                            write: Write)
    requires Healthy(w, origin, desire, condstore) && i < |w.ledger.items|
    requires write.status == Confirmed && !write.expunge && Desired(w, i, desire)
    ensures Healthy(w.(ledger := Commit(w.ledger, i, write)), origin, desire, condstore)
  {
    var v := w.(ledger := Commit(w.ledger, i, write));
    SamePlaces(w, v);
    forall j | 0 <= j < |w.ledger.items| ensures OnItsWay(v, j, desire, condstore) {
      assert OnItsWay(w, j, desire, condstore);
      ConfirmKeepsItem(w, desire, condstore, i, write, j);
    }
  }

  /** Rows that keep their targets keep their places. */
  lemma SamePlaces(w: World, v: World)
    requires v.names == w.names && |v.ledger.items| == |w.ledger.items|
    requires forall j :: 0 <= j < |w.ledger.items| ==> v.ledger.items[j].target == w.ledger.items[j].target
    ensures forall p, u :: IsPlace(v, p, u) <==> IsPlace(w, p, u)
    ensures Apart(w) ==> Apart(v)
  {
    forall p: string, u: nat ensures IsPlace(v, p, u) <==> IsPlace(w, p, u) {
      if IsPlace(w, p, u) {
        var i :| 0 <= i < |w.ledger.items| && w.ledger.items[i].target.folder in w.names && Place(w, i) == (p, u);
        assert Place(v, i) == (p, u);
      }
      if IsPlace(v, p, u) {
        var i :| 0 <= i < |v.ledger.items| && v.ledger.items[i].target.folder in v.names && Place(v, i) == (p, u);
        assert Place(w, i) == (p, u);
      }
    }
    if Apart(w) {
      forall i, j | 0 <= i < |v.ledger.items| && 0 <= j < |v.ledger.items| && i != j
        ensures v.ledger.items[i].target.occurrence != v.ledger.items[j].target.occurrence
        ensures v.ledger.items[i].target.folder in v.names && v.ledger.items[j].target.folder in v.names ==>
          Place(v, i) != Place(v, j)
      {
        assert w.ledger.items[i].target.occurrence != w.ledger.items[j].target.occurrence;
      }
    }
  }

  lemma ClaimKeepsHealthy(w: World, origin: map<string, FolderState>, desire: FlagDesire, condstore: bool, i: nat)
    requires Healthy(w, origin, desire, condstore) && i < |w.ledger.items|
    ensures Healthy(w.(ledger := Claim(w.ledger, i)), origin, desire, condstore)
  {
    var v := w.(ledger := Claim(w.ledger, i));
    SamePlaces(w, v);
    forall j | 0 <= j < |v.ledger.items| ensures OnItsWay(v, j, desire, condstore) {
      assert OnItsWay(w, j, desire, condstore);
    }
  }

  lemma FinalizeKeepsHealthy(w: World, origin: map<string, FolderState>, desire: FlagDesire, condstore: bool)
    requires Healthy(w, origin, desire, condstore)
    ensures Healthy(w.(ledger := Finalize(w.ledger)), origin, desire, condstore)
  {
    var v := w.(ledger := Finalize(w.ledger));
    SamePlaces(w, v);
    forall j | 0 <= j < |v.ledger.items| ensures OnItsWay(v, j, desire, condstore) {
      assert OnItsWay(w, j, desire, condstore);
    }
  }

  /** The server state after the write of item `i`. */
  function WrittenWorld(w: World, session: Session, i: nat, desire: FlagDesire, condstore: bool): World
    requires i < |w.ledger.items| && Present(w, i)
  {
    var at := Place(w, i);
    w.(mailbox := Perform(session, w.mailbox, at.0, at.1,
                          SetFlag(desire.flag, desire.value, Condition(w, i, condstore))))
  }

  /** The write of an item leaves its flag as desired and only its own message changed. */
  lemma WriteLands(w: World, session: Session, i: nat, desire: FlagDesire, condstore: bool)
    requires i < |w.ledger.items| && OnItsWay(w, i, desire, condstore)
    requires Sound(session, desire.flag)
    ensures var v := WrittenWorld(w, session, i, desire, condstore);
            && Present(v, i) && ReadsAs(MessageOf(v, i), desire)
            && Spares(MessageOf(w, i), MessageOf(v, i), true, desire.flag)
            && OnItsWay(v, i, desire, condstore)
  {
    var f := w.mailbox[Place(w, i).0];
    WriteReadsExactly(session, MessageOf(w, i), desire, f.highestModseq + 1);
  }

  /**
   What the undisturbed write of an item whose flag does not read as desired yet leaves: the
   flag reads as desired exactly on a session that is sound for it.
   */
  lemma WriteDecides(w: World, session: Session, i: nat, desire: FlagDesire, condstore: bool)
    requires i < |w.ledger.items| && OnItsWay(w, i, desire, condstore) && PendingItem(w.ledger.items[i].status)
    requires !ReadsAs(MessageOf(w, i), desire)
    ensures var v := WrittenWorld(w, session, i, desire, condstore);
            Present(v, i) && (ReadsAs(MessageOf(v, i), desire) <==> Sound(session, desire.flag))
  {
    var f := w.mailbox[Place(w, i).0];
    WriteReadsExactly(session, MessageOf(w, i), desire, f.highestModseq + 1);
  }

  lemma WriteSpares(w: World, session: Session, i: nat, desire: FlagDesire, condstore: bool, p: string, u: nat)
    requires i < |w.ledger.items| && Present(w, i)
    requires p in w.mailbox && u in w.mailbox[p].messages && (p, u) != Place(w, i)
    ensures var v := WrittenWorld(w, session, i, desire, condstore);
            p in v.mailbox && u in v.mailbox[p].messages && v.mailbox[p].messages[u] == w.mailbox[p].messages[u]
  {
  }

  lemma WriteKeepsFolders(w: World, session: Session, i: nat, desire: FlagDesire, condstore: bool)
    requires i < |w.ledger.items| && Present(w, i)
    ensures var v := WrittenWorld(w, session, i, desire, condstore);
            && v.mailbox.Keys == w.mailbox.Keys
            && forall p :: p in w.mailbox ==> && v.mailbox[p].messages.Keys == w.mailbox[p].messages.Keys
                                              && v.mailbox[p].uidValidity == w.mailbox[p].uidValidity
                                              && v.mailbox[p].nextUid == w.mailbox[p].nextUid
  {
  }

  lemma SparesCompose(a: Message, b: Message, c: Message, flag: Flag)
    requires Spares(a, b, true, flag) && Spares(b, c, true, flag)
    ensures Spares(a, c, true, flag)
  {
  }

  lemma WriteKeepsSpared(w: World, origin: map<string, FolderState>, session: Session, i: nat, desire: FlagDesire,
                         condstore: bool)
    requires Healthy(w, origin, desire, condstore)
    requires i < |w.ledger.items| && Present(w, i)
    requires Sound(session, desire.flag)
    ensures Spared(origin, WrittenWorld(w, session, i, desire, condstore), desire.flag)
  {
    assert OnItsWay(w, i, desire, condstore);
    var v := WrittenWorld(w, session, i, desire, condstore);
    SamePlaces(w, v);
    WriteKeepsFolders(w, session, i, desire, condstore);
    WriteLands(w, session, i, desire, condstore);
    forall p, u | p in origin && u in origin[p].messages
      ensures Spares(origin[p].messages[u], v.mailbox[p].messages[u], IsPlace(v, p, u), desire.flag)
    {
      assert Spares(origin[p].messages[u], w.mailbox[p].messages[u], IsPlace(w, p, u), desire.flag);
      if (p, u) == Place(w, i) {
        assert IsPlace(w, p, u);
        SparesCompose(origin[p].messages[u], MessageOf(w, i), MessageOf(v, i), desire.flag);
      } else {
        WriteSpares(w, session, i, desire, condstore, p, u);
      }
    }
  }

  lemma WriteKeepsOthers(w: World, session: Session, i: nat, j: nat, desire: FlagDesire, condstore: bool)
    requires Apart(w) && i < |w.ledger.items| && j < |w.ledger.items| && i != j
    requires Present(w, i) && OnItsWay(w, j, desire, condstore)
    ensures OnItsWay(WrittenWorld(w, session, i, desire, condstore), j, desire, condstore)
    ensures Desired(w, j, desire) ==> Desired(WrittenWorld(w, session, i, desire, condstore), j, desire)
  {
    WriteKeepsFolders(w, session, i, desire, condstore);
    WriteSpares(w, session, i, desire, condstore, Place(w, j).0, Place(w, j).1);
  }

  /** A sound write of an item keeps the world healthy and leaves every desired flag desired, its own included. */
  lemma WriteKeepsHealthy(w: World, origin: map<string, FolderState>, session: Session, i: nat, desire: FlagDesire,
                          condstore: bool)
    requires Healthy(w, origin, desire, condstore)
    requires i < |w.ledger.items| && Present(w, i)
    requires Sound(session, desire.flag)
    ensures var v := WrittenWorld(w, session, i, desire, condstore);
            && Healthy(v, origin, desire, condstore) && Desired(v, i, desire)
            && forall j :: 0 <= j < |w.ledger.items| && Desired(w, j, desire) ==> Desired(v, j, desire)
  {
    var v := WrittenWorld(w, session, i, desire, condstore);
    assert OnItsWay(w, i, desire, condstore);
    SamePlaces(w, v);
    WriteLands(w, session, i, desire, condstore);
    WriteKeepsSpared(w, origin, session, i, desire, condstore);
    forall j | 0 <= j < |w.ledger.items|
      ensures OnItsWay(v, j, desire, condstore) && (Desired(w, j, desire) ==> Desired(v, j, desire))
    {
      if j != i {
        assert OnItsWay(w, j, desire, condstore);
        WriteKeepsOthers(w, session, i, j, desire, condstore);
      }
    }
  }
}
