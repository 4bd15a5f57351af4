/** One connection of the scripted server: its selected folder, its view and its answers. */
module ImapConnection {
  import opened Wrappers
  import opened Ascending
  import opened MailboxStore
  import opened SequenceSets
  import opened ImapView
  import opened ImapCommands

  function Unseen(actual: seq<nat>, view: seq<nat>): (r: seq<nat>)
    ensures forall u :: u in r <==> u in actual && u !in view
  {
    if actual == [] then []
    else
      var n := |actual| - 1;
      assert actual == actual[..n] + [actual[n]];
      if actual[n] in view then Unseen(actual[..n], view) else Unseen(actual[..n], view) + [actual[n]]
  }

  lemma {:induction false} UnseenDistinct(actual: seq<nat>, view: seq<nat>)
    requires StrictlyAscending(actual)
    ensures Distinct(Unseen(actual, view))
  {
    if actual != [] {
      var n := |actual| - 1;
      UnseenDistinct(actual[..n], view);
      var head := Unseen(actual[..n], view);
      forall i | 0 <= i < |head| ensures head[i] != actual[n] {
        assert head[i] in head && head[i] in actual[..n];
      }
    }
  }

  /** Merging what is left of a view with what it never saw lists the folder. */
  lemma MergedView(kept: seq<nat>, f: FolderState)
    requires StrictlyAscending(kept) && forall v :: v in kept ==> v in f.messages
    ensures var arrivals := Unseen(UidsAscending(f), kept);
            && SortValues(kept + arrivals) == UidsAscending(f)
            && (arrivals == [] ==> kept == UidsAscending(f))
  {
    var all := UidsAscending(f);
    var arrivals := Unseen(all, kept);
    var whole := kept + arrivals;
    UnseenDistinct(all, kept);
    forall i, j | 0 <= i < j < |whole| ensures whole[i] != whole[j] {
      if i < |kept| <= j { assert whole[i] in kept && whole[j] in arrivals; }
    }
    SortLists(whole);
    assert forall u :: u in whole <==> u in all;
    ListingIsUnique(SortValues(whole), all);
    if arrivals == [] {
      assert whole == kept;
      ListingIsUnique(kept, all);
    }
  }

  /** A view without one UID, when it holds it. */
  function Dropped(view: seq<nat>, uid: nat): seq<nat> {
    var index := IndexOf(view, uid);
    if index < |view| then RemoveAt(view, index) else view
  }

  lemma DroppedKeepsOrder(view: seq<nat>, uid: nat)
    requires StrictlyAscending(view)
    ensures StrictlyAscending(Dropped(view, uid))
    ensures forall v :: v in Dropped(view, uid) <==> v in view && v != uid
  {
    if uid in view {
      RemoveAtKeepsOrder(view, IndexOf(view, uid));
    }
  }

  class Connection {
    var selected: StoredFolder?
    var view: seq<nat>
    var condstore: bool
    var socket: seq<Response>
    /** The client at the other end: the list it holds, and whether something happened that no answer can tell it. */
    ghost var known: seq<nat>
    ghost var lost: bool

    constructor ()
      ensures Valid() && selected == null && socket == [] && !condstore && known == [] && !lost
    {
      selected, view, condstore, socket := null, [], false, [];
      known, lost := [], false;
    }

    /** The view lists UIDs in ascending order, and only a selected folder has one. */
    ghost predicate Valid()
      reads this
    {
      StrictlyAscending(view) && (selected == null ==> view == [])
    }

    method Write(r: Response)
      modifies this`socket
      ensures socket == old(socket) + [r]
    {
      socket := socket + [r];
    }

    /** SELECT starts the client's list over. */
    method HandleSelect(tag: string, folder: StoredFolder?)
      requires Valid()
      modifies this`selected, this`view, this`socket
      ensures Valid()
      ensures folder == null ==>
        selected == old(selected) && view == old(view) && socket == old(socket) + [Tagged(tag, NO, NoCode)]
      ensures folder != null ==>
        && selected == folder && view == UidsAscending(folder.State())
        && old(socket) <= socket && Mirrors([], socket[|old(socket)|..], view)
    {
      if folder == null {
        Write(Tagged(tag, NO, NoCode));
        return;
      }
      selected := folder;
      view := ListUids(folder);
      ghost var start := socket;
      Write(Exists(|view|));
      Write(Tagged(tag, OK, NoCode));
      SelectMirrors(view, Tagged(tag, OK, NoCode));
      assert socket[|start|..] == [Exists(|view|), Tagged(tag, OK, NoCode)];
    }

    /** CLOSE and UNSELECT: no folder, no view. */
    method HandleClose(tag: string)
      modifies this`selected, this`view, this`socket
      ensures Valid() && selected == null && view == [] && socket == old(socket) + [Tagged(tag, OK, NoCode)]
    {
      selected, view := null, [];
      Write(Tagged(tag, OK, NoCode));
    }

    /** Take one UID out of the view and report it, when the view holds it. */
    method ReportGone(uid: nat) returns (ghost sent: seq<Response>)
      modifies this`view, this`socket
      ensures view == Dropped(old(view), uid)
      ensures socket == old(socket) + sent && Told(old(view), sent, view)
    {
      var index := IndexOf(view, uid);
      sent := [];
      ToldNothing(view);
      if index < |view| {
        Write(Expunged(index + 1));
        sent := [Expunged(index + 1)];
        ToldOne(view, index);
        view := RemoveAt(view, index);
      }
    }

    /**
     Report what the connection has not seen: expunges in view order, then the arrival count.
     The view always ends up listing the folder, and the client ends up with the same list
     exactly when every arrival lies above what it had kept.
     */
    method FlushView()
      requires Valid()
      modifies this`view, this`socket
      ensures Valid() && old(socket) <= socket
      ensures selected == null ==> view == old(view) && socket == old(socket)
      ensures selected != null ==> view == UidsAscending(selected.State())
      ensures selected != null ==>
        (Mirrors(old(view), socket[|old(socket)|..], view) <==>
         AppendOnly(Kept(old(view), selected.State()), selected.State()))
    {
      hide Mirrors, AppendOnly, Kept, Told, Unseen, SortValues;
      if selected == null {
        return;
      }
      ghost var f := selected.State();
      ghost var snapshot := view;
      ghost var sent := ReportExpunges();
      var actual := ListUids(selected);
      var arrivals := Unseen(actual, view);
      FlushMirrors(snapshot, sent, f);
      if |arrivals| > 0 {
        view := SortValues(view + arrivals);
        Write(Exists(|view|));
        assert socket[|old(socket)|..] == sent + [Exists(|view|)];
      } else {
        assert socket[|old(socket)|..] == sent;
      }
    }

    /** The first half of a flush: every view entry whose message is gone, in view order. */
    method ReportExpunges() returns (ghost sent: seq<Response>)
      requires Valid() && selected != null
      modifies this`view, this`socket
      ensures view == Kept(old(view), selected.State())
      ensures socket == old(socket) + sent && Told(old(view), sent, view)
    {
      var snapshot := view;
      var present := selected.messages;
      sent := [];
      ToldNothing(view);
      for i := 0 to |snapshot|
        invariant StrictlyAscending(view)
        invariant forall v :: v in view <==> v in snapshot && (v in snapshot[..i] ==> v in present)
        invariant socket == old(socket) + sent && Told(snapshot, sent, view)
      {
        var uid := snapshot[i];
        assert forall v :: v in snapshot[..i + 1] <==> v in snapshot[..i] || v == uid;
        if uid !in present {
          ghost var was := view;
          DroppedKeepsOrder(view, uid);
          ghost var more := ReportGone(uid);
          ToldMore(snapshot, sent, was, more, view);
          sent := sent + more;
        }
      }
      assert snapshot[..|snapshot|] == snapshot;
      ListingIsUnique(view, Kept(snapshot, selected.State()));
    }

    /** Work commands need a selected folder. */
    method RequireSelected(tag: string) returns (ok: bool)
      modifies this`socket
      ensures ok == (selected != null)
      ensures socket == if ok then old(socket) else old(socket) + [Tagged(tag, BAD, NoCode)]
    {
      ok := selected != null;
      if !ok {
        Write(Tagged(tag, BAD, NoCode));
      }
    }

    /** NOOP, and CHECK alike: report the world, then answer; without a folder there is nothing to report. */
    method HandleNoop(tag: string)
      requires Valid()
      modifies this`view, this`socket
      ensures Valid() && old(socket) <= socket
      ensures selected == null ==> view == old(view) && socket == old(socket) + [Tagged(tag, OK, NoCode)]
      ensures selected != null ==> view == UidsAscending(selected.State())
      ensures selected != null ==>
        (Mirrors(old(view), socket[|old(socket)|..], view) <==>
         AppendOnly(Kept(old(view), selected.State()), selected.State()))
    {
      if selected == null {
        Write(Tagged(tag, OK, NoCode));
        return;
      }
      ToldNothing(view);
      ghost var tail := FlushAndAnswer(view, [], Tagged(tag, OK, NoCode));
      assert socket[|old(socket)|..] == [] + tail;
    }

    /**
     STORE with an optional UNCHANGEDSINCE condition. The tagged answer names the refused
     UIDs and is a NO exactly when every addressed message was refused.
     */
    method HandleStore(tag: string, range: string, byUid: bool, mode: Option<Mode>, silent: bool,
                       flags: seq<string>, unchangedSince: Option<nat>)
      requires Valid() && selected != null
      modifies this`view, this`socket, selected`messages, selected`highestModseq
      ensures Valid() && selected == old(selected) && old(socket) < socket
      ensures mode.None? ==> selected.State() == old(selected.State()) && view == old(view)
                             && socket == old(socket) + [Tagged(tag, BAD, NoCode)]
      ensures mode.Some? ==>
        selected.State() ==
            StoreAll(old(selected.State()), Matched(old(selected.State()), range, byUid), mode.value, flags,
                     unchangedSince)
      ensures mode.Some? ==>
        StoredByPosition(old(selected.State()), selected.State(), range, byUid, mode.value, flags, unchangedSince)
      ensures mode.Some? ==>
        old(socket) + FetchLines(old(selected.State()), selected.State(), old(Matched(selected.State(), range, byUid)),
                                 silent, condstore, unchangedSince) <= socket
      ensures mode.Some? ==> view == UidsAscending(selected.State())
      ensures mode.Some? ==>
        socket[|socket| - 1] ==
            StoreAnswer(tag, old(selected.State()), Matched(old(selected.State()), range, byUid), unchangedSince)
      ensures mode.Some? ==>
        (AppendOnly(Kept(old(view), selected.State()), selected.State()) <==>
            Mirrors(old(view), socket[|old(socket)|..], view))
    {
      hide Told, Mirrors, AppendOnly, Kept, StoreAll, Refused, Matched, FetchLines, StoredByPosition;
      if mode.None? {
        Write(Tagged(tag, BAD, NoCode));
        return;
      }
      var matched := MatchRange(range, byUid);
      ghost var sent: seq<Response>;
      var modified: seq<nat>;
      sent, modified := ApplyStore(matched, mode.value, silent, flags, unchangedSince);
      StoreReachesPositions(old(selected.State()), range, byUid, mode.value, flags, unchangedSince);
      ghost var stored := selected.State();
      ghost var tail := FlushAndAnswer(old(view), sent,
        if |modified| == 0 then Tagged(tag, OK, NoCode)
        else Tagged(tag, if |modified| == |matched| then NO else OK, Modified(modified)));
      assert selected.State() == stored;
      assert socket[|old(socket)|..] == sent + tail;
      assert socket == old(socket) + sent + tail;
    }

    /**
     COPY or MOVE of the matched messages. Both leave the copies at fresh UIDs; a MOVE then
     takes the originals away, also when the destination is the selected folder itself.
     */
    method HandleCopyMove(tag: string, range: string, byUid: bool, destination: StoredFolder?, isMove: bool)
      requires Valid() && selected != null
      modifies this`view, this`socket, selected`messages
      modifies if destination == null then {} else {destination}
      ensures Valid() && selected == old(selected) && old(socket) < socket
      ensures destination == null || Matched(old(selected.State()), range, byUid) == [] ==>
        && selected.State() == old(selected.State()) && view == old(view)
        && (destination != null ==> destination.State() == old(destination.State()))
        && socket == old(socket) + [if destination == null then Tagged(tag, NO, TryCreate) else Tagged(tag, OK, NoCode)]
      ensures destination != null && Matched(old(selected.State()), range, byUid) != [] ==>
        && destination.State() ==
           Delivered(old(selected.State()), old(destination.State()), Matched(old(selected.State()), range, byUid),
                     isMove && destination == selected)
        && (destination != selected ==>
              selected.State() == if isMove
                  then RemoveAll(old(selected.State()), Matched(old(selected.State()), range, byUid))
                      else old(selected.State()))
        && socket[|socket| - 1] ==
           Tagged(tag, OK, CopyUidOf(old(destination.State()), Matched(old(selected.State()), range, byUid)))
      ensures destination != null && Matched(old(selected.State()), range, byUid) != [] ==>
        && view == UidsAscending(selected.State())
        && (AppendOnly(Kept(old(view), selected.State()), selected.State()) <==>
              Mirrors(old(view), socket[|old(socket)|..], view))
      ensures destination != null && destination != selected ==>
        forall k :: 0 <= k < |old(UidsAscending(selected.State()))| ==>
          (old(UidsAscending(selected.State()))[k] in selected.messages <==>
             !(isMove && Addressed(old(selected.State()), range, byUid, k)))
      ensures destination != null && !(isMove && destination == selected) && old(Coherent(destination.State())) ==>
        CopiedByPosition(old(selected.State()), old(destination.State()), destination.State(), range, byUid)
      ensures destination == selected && isMove && old(Coherent(selected.State())) ==>
        MovedWithinByPosition(old(selected.State()), selected.State(), range, byUid)
    {
      hide Told, Mirrors, AppendOnly, Kept, CopyAll, CopyUidOf, RemoveAll, Matched, Addressed, CopiedByPosition,
           MovedWithinByPosition;
      if destination == null {
        Write(Tagged(tag, NO, TryCreate));
        return;
      }
      ghost var f, d := selected.State(), destination.State();
      var matched := MatchRange(range, byUid);
      MatchedIsAddressed(f, range, byUid);
      MoveTakesPositions(f, range, byUid);
      ListingHolds(f);
      if Coherent(d) {
        CopyReachesPositions(f, d, range, byUid);
        assert CopyAll(d, []) == d by { CopyOfNothing(d); }
        if destination == selected {
          MoveWithinReachesPositions(f, range, byUid);
          NothingRemoved(d);
        }
      }
      if |matched| == 0 {
        Write(Tagged(tag, OK, NoCode));
        return;
      }
      CopyMoveMatched(tag, matched, destination, isMove);
    }

    /** COPY or MOVE of some matched messages: copies, the reported coordinates, removals, one flush. */
    method CopyMoveMatched(tag: string, matched: seq<nat>, destination: StoredFolder, isMove: bool)
      requires Valid() && selected != null && forall u :: u in matched ==> u in selected.messages
      modifies this`view, this`socket, selected`messages, destination
      ensures Valid() && selected == old(selected) && old(socket) < socket
      ensures destination.State() ==
              old(Delivered(selected.State(), destination.State(), matched, isMove && destination == selected))
      ensures destination != selected ==>
        selected.State() == if isMove then RemoveAll(old(selected.State()), matched) else old(selected.State())
      ensures socket[|socket| - 1] == Tagged(tag, OK, CopyUidOf(old(destination.State()), matched))
      ensures view == UidsAscending(selected.State())
      ensures AppendOnly(Kept(old(view), selected.State()), selected.State()) <==>
        Mirrors(old(view), socket[|old(socket)|..], view)
    {
      hide Told, Mirrors, AppendOnly, Kept, CopyAll, CopyUidOf;
      var code := CopyMatched(matched, destination);
      ToldStatus(view, Untagged(code));
      ghost var sent := [Untagged(code)];
      Write(Untagged(code));
      if isMove {
        ghost var more := RemoveReporting(matched);
        ToldMore(old(view), sent, old(view), more, view);
        sent := sent + more;
      }
      ghost var here, there, held := selected.State(), destination.State(), view;
      ghost var tail := FlushAndAnswer(old(view), sent, Tagged(tag, OK, code));
      assert selected.State() == here && destination.State() == there;
      ListingIsUnique(Kept(old(view), here), Kept(held, here));
      assert socket[|old(socket)|..] == sent + tail;
    }

    /** The copying loop: one fresh UID a message, then the two range texts. */
    method CopyMatched(matched: seq<nat>, destination: StoredFolder) returns (code: Code)
      requires selected != null && forall u :: u in matched ==> u in selected.messages
      modifies destination
      ensures destination.State() == CopyAll(old(destination.State()), old(Pick(selected.State(), matched)))
      ensures code == CopyUidOf(old(destination.State()), matched)
    {
      var picked := Pick(selected.State(), matched);
      var destinationUids: seq<nat> := [];
      ghost var before := destination.State();
      for i := 0 to |picked|
        invariant destination.State() == CopyAll(before, picked[..i])
        invariant destinationUids == NewUids(before, i) && destination.nextUid == before.nextUid + i
      {
        assert picked[..i + 1][..i] == picked[..i];
        var uid := destination.nextUid;
        destination.nextUid := destination.nextUid + 1;
        destination.highestModseq := destination.highestModseq + 1;
        destination.messages := destination.messages[uid := picked[i].(modseq := destination.highestModseq)];
        destinationUids := destinationUids + [uid];
      }
      assert picked[..|picked|] == picked;
      CopyKeepsGeneration(before, picked);
      var source := JoinRanges(matched);
      var copies := JoinRanges(destinationUids);
      code := CopyUid(destination.uidValidity, source, copies);
    }

    /**
     APPEND. When the target is the selected folder the view is replaced, so the client keeps
     up exactly when nothing it holds was expunged unseen. A lost answer stores all the same.
     */
    method HandleAppend(tag: string, folder: StoredFolder?, bytes: Option<string>, flags: seq<string>,
                        internalDate: int, lost: bool)
      requires Valid()
      modifies this`view, this`socket
      modifies if folder == null then {} else {folder}
      ensures Valid() && old(socket) <= socket
      ensures folder == null || bytes.None? ==>
        && view == old(view) && socket == old(socket) + [Tagged(tag, NO, TryCreate)]
        && (folder != null ==> folder.State() == old(folder.State()))
      ensures folder != null && bytes.Some? ==>
        && folder.State() == Arrive(old(folder.State()), Load(None, bytes.value, flags, internalDate))
        && view == (if selected == folder then UidsAscending(folder.State()) else old(view))
        && (!lost ==>
              socket != []
                  && socket[|socket| - 1] == Tagged(tag, OK, AppendUid(folder.uidValidity, old(folder.nextUid))))
        && (selected != folder ==>
              socket == old(socket) + if lost then []
                  else [Tagged(tag, OK, AppendUid(folder.uidValidity, old(folder.nextUid)))])
      ensures folder != null && bytes.Some? && selected == folder && old(InStep(view, folder.State())) ==>
        (Mirrors(old(view), socket[|old(socket)|..], view) <==> forall v :: v in old(view) ==> v in folder.messages)
    {
      if folder == null || bytes.None? {
        Write(Tagged(tag, NO, TryCreate));
        return;
      }
      var uid := AppendMessage(folder, bytes.value, flags, internalDate);
      ghost var f := folder.State();
      ghost var sent := [];
      if selected == folder {
        view := ListUids(folder);
        ListingSize(view, folder.messages.Keys);
        Write(Exists(|folder.messages|));
        sent := [Exists(|view|)];
        if old(InStep(view, folder.State())) {
          AppendMirrorsExactly(old(view), f, uid);
        }
      }
      if !lost {
        var answer := Tagged(tag, OK, AppendUid(folder.uidValidity, uid));
        MirrorsStatus(old(view), sent, view, answer);
        Write(answer);
        sent := sent + [answer];
      }
      assert socket[|old(socket)|..] == sent;
    }

    /** Store one appended message at the folder's next UID. */
    method AppendMessage(folder: StoredFolder, bytes: string, flags: seq<string>, internalDate: int) returns (uid: nat)
      modifies folder
      ensures uid == old(folder.nextUid)
              && folder.State() == Arrive(old(folder.State()), Load(None, bytes, flags, internalDate))
    {
      uid := folder.nextUid;
      folder.nextUid := folder.nextUid + 1;
      folder.highestModseq := folder.highestModseq + 1;
      folder.messages := folder.messages[uid := Message(bytes, flags, internalDate, folder.highestModseq)];
    }

    /** The end of a command: one flush, then its status line, seen from the client of `origin`. */
    method FlushAndAnswer(ghost origin: seq<nat>, ghost sent: seq<Response>, answer: Response)
      returns (ghost tail: seq<Response>)
      requires Valid() && selected != null && Told(origin, sent, view)
      requires !answer.Exists? && !answer.Expunged?
      modifies this`view, this`socket
      ensures Valid() && view == UidsAscending(selected.State())
      ensures socket == old(socket) + tail && |tail| > 0 && tail[|tail| - 1] == answer
      ensures Mirrors(origin, sent + tail, view) <==> AppendOnly(Kept(old(view), selected.State()), selected.State())
    {
      FlushView();
      ghost var flushed := socket[|old(socket)|..];
      tail := flushed + [answer];
      MirrorsCompose(origin, sent, old(view), flushed, view);
      MirrorsStatus(origin, sent + flushed, view, answer);
      assert sent + flushed + [answer] == sent + tail;
      Write(answer);
    }

    /** The UIDs of the selected folder a range addresses, ascending. */
    method MatchRange(range: string, byUid: bool) returns (matched: seq<nat>)
      requires selected != null
      ensures matched == Matched(selected.State(), range, byUid)
      ensures StrictlyAscending(matched) && forall u :: u in matched ==> u in selected.messages
    {
      var uids := ListUids(selected);
      var wanted := ExpandSequenceSet(range, if byUid then uids else Positions(|uids|));
      matched := MatchedIn(uids, wanted, byUid);
      MatchedAscends(uids, wanted, byUid);
    }

    /** One message of a STORE: refused by its condition, or stamped and reported. */
    method StoreMessage(uid: nat, mode: Mode, silent: bool, flags: seq<string>, unchangedSince: Option<nat>)
      returns (ghost sent: seq<Response>, refused: bool)
      requires selected != null && uid in selected.messages
      modifies this`socket, selected`messages, selected`highestModseq
      ensures selected.State() == StoreOne(old(selected.State()), uid, mode, flags, unchangedSince)
      ensures refused <==> IsRefused(old(selected.State()), uid, unchangedSince)
      ensures socket == old(socket) + sent && Told(view, sent, view)
      ensures sent == if refused || silent then [] else [FetchLine(selected.State(), uid, condstore)]
    {
      sent := [];
      ToldNothing(view);
      refused := unchangedSince.Some? && selected.messages[uid].modseq > unchangedSince.value;
      if !refused {
        var message := selected.messages[uid];
        var next := NextFlags(mode, message.flags, flags);
        selected.highestModseq := selected.highestModseq + 1;
        selected.messages := selected.messages[uid := message.(flags := next, modseq := selected.highestModseq)];
        if !silent {
          var live := ListUids(selected);
          var r := Fetched(IndexOf(live, uid) + 1, uid, next, if condstore then Some(selected.highestModseq) else None);
          ToldStatus(view, r);
          sent := [r];
          Write(r);
        }
      }
    }

    /** The loop of STORE over the matched UIDs, with its FETCH answers. */
    method ApplyStore(matched: seq<nat>, mode: Mode, silent: bool, flags: seq<string>, unchangedSince: Option<nat>)
      returns (ghost sent: seq<Response>, modified: seq<nat>)
      requires Valid() && selected != null
      requires StrictlyAscending(matched) && forall u :: u in matched ==> u in selected.messages
      modifies this`socket, selected`messages, selected`highestModseq
      ensures selected.State() == StoreAll(old(selected.State()), matched, mode, flags, unchangedSince)
      ensures modified == Refused(old(selected.State()), matched, unchangedSince)
      ensures socket == old(socket) + sent && Told(view, sent, view)
      ensures forall u :: u in matched ==> u in selected.messages
      ensures sent == FetchLines(old(selected.State()), selected.State(), matched, silent, condstore, unchangedSince)
    {
      hide Told, StoreOne, NextFlags, IsRefused, FetchLine;
      ghost var before := selected.State();
      sent, modified := [], [];
      ToldNothing(view);
      for i := 0 to |matched|
        invariant selected.State() == StoreAll(before, matched[..i], mode, flags, unchangedSince)
        invariant modified == Refused(before, matched[..i], unchangedSince)
        invariant socket == old(socket) + sent && Told(view, sent, view)
        invariant forall u :: u in matched ==> u in selected.messages
        invariant sent == FetchLines(before, selected.State(), matched[..i], silent, condstore, unchangedSince)
      {
        StoreTurn(before, matched, i, mode, flags, unchangedSince);
        ghost var more: seq<Response>;
        var refused: bool;
        more, refused := StoreMessage(matched[i], mode, silent, flags, unchangedSince);
        ToldMore(view, sent, view, more, view);
        sent := sent + more;
        FetchTurn(before, matched, i, mode, flags, unchangedSince, silent, condstore);
        if refused {
          modified := modified + [matched[i]];
        }
      }
      assert matched[..|matched|] == matched;
    }

    /** Expunge what carries the deleted flag; nothing else is reported here. */
    method HandleExpunge(tag: string)
      requires Valid() && selected != null
      modifies this`view, this`socket, selected`messages
      ensures Valid() && selected == old(selected) && old(socket) <= socket
      ensures Told(old(view), socket[|old(socket)|..], view)
      ensures selected.State() == RemoveAll(old(selected.State()), Doomed(old(selected.State())))
      ensures forall v :: v in view <==> v in old(view) && v !in Doomed(old(selected.State()))
    {
      var uids := ListUids(selected);
      var doomed := DeletedIn(selected.State(), uids);
      ghost var sent := RemoveReporting(doomed);
      var answer := Tagged(tag, OK, NoCode);
      Write(answer);
      ToldStatus(view, answer);
      ToldMore(old(view), sent, view, [answer], view);
      assert socket[|old(socket)|..] == sent + [answer];
    }

    /** The shared loop of EXPUNGE and MOVE: delete each UID, reporting those in the view. */
    method RemoveReporting(uids: seq<nat>) returns (ghost sent: seq<Response>)
      requires Valid() && selected != null
      modifies this`view, this`socket, selected`messages
      ensures Valid() && selected == old(selected)
      ensures selected.State() == RemoveAll(old(selected.State()), uids)
      ensures forall v :: v in view <==> v in old(view) && v !in uids
      ensures socket == old(socket) + sent && Told(old(view), sent, view)
    {
      hide Told, RemoveAll;
      sent := [];
      ToldNothing(view);
      assert uids[..0] == [];
      NothingRemoved(selected.State());
      for i := 0 to |uids|
        invariant Valid() && selected == old(selected)
        invariant selected.State() == RemoveAll(old(selected.State()), uids[..i])
        invariant forall v :: v in view <==> v in old(view) && v !in uids[..i]
        invariant socket == old(socket) + sent && Told(old(view), sent, view)
      {
        ghost var was := view;
        DroppedKeepsOrder(view, uids[i]);
        ghost var more := ReportGone(uids[i]);
        ToldMore(old(view), sent, was, more, view);
        sent := sent + more;
        RemoveTurn(old(selected.State()), uids, i);
        selected.messages := selected.messages - {uids[i]};
      }
      assert uids[..|uids|] == uids;
    }
  }

  lemma CopyOfNothing(d: FolderState)
    ensures CopyAll(d, []) == d
  {
  }

  lemma ListingHolds(f: FolderState)
    ensures forall k :: 0 <= k < |UidsAscending(f)| ==> UidsAscending(f)[k] in f.messages
  {
    forall k | 0 <= k < |UidsAscending(f)| ensures UidsAscending(f)[k] in f.messages {
      assert UidsAscending(f)[k] in UidsAscending(f);
    }
  }

  lemma NothingRemoved(f: FolderState)
    ensures RemoveAll(f, []) == f
  {
    assert f.messages - {} == f.messages;
  }

  /** The destination after a COPY or MOVE; a MOVE within one folder also loses the originals. */
  function Delivered(source: FolderState, destination: FolderState, uids: seq<nat>, within: bool): FolderState
    requires forall u :: u in uids ==> u in source.messages
  {
    var copied := CopyAll(destination, Pick(source, uids));
    if within then RemoveAll(copied, uids) else copied
  }

  /** The coordinates a COPY or MOVE reports. */
  function CopyUidOf(destination: FolderState, uids: seq<nat>): Code {
    CopyUid(destination.uidValidity, RangesText(uids), RangesText(NewUids(destination, |uids|)))
  }

  lemma {:induction false} CopyKeepsGeneration(d: FolderState, ms: seq<Message>)
    ensures CopyAll(d, ms).uidValidity == d.uidValidity
  {
    if ms != [] {
      CopyKeepsGeneration(d, ms[..|ms| - 1]);
    }
  }

  /** The tagged answer of one STORE. */
  function StoreAnswer(tag: string, f: FolderState, matched: seq<nat>, unchangedSince: Option<nat>): Response
  {
    var modified := Refused(f, matched, unchangedSince);
    if |modified| == 0 then Tagged(tag, OK, NoCode)
    else Tagged(tag, if |modified| == |matched| then NO else OK, Modified(modified))
  }

  /** The untagged answer about one stored message: its place, its UID and what it carries now. */
  ghost function FetchLine(g: FolderState, uid: nat, condstore: bool): Response
    requires uid in g.messages
  {
    Fetched(IndexOf(UidsAscending(g), uid) + 1, uid, g.messages[uid].flags,
            if condstore then Some(g.messages[uid].modseq) else None)
  }

  /** The untagged answers of a STORE from `f` to `g`: one for each addressed message that was not refused. */
  ghost function FetchLines(f: FolderState, g: FolderState, matched: seq<nat>, silent: bool, condstore: bool,
                            unchangedSince: Option<nat>): seq<Response>
    requires forall u :: u in matched ==> u in g.messages
  {
    if matched == [] then []
    else
      var n := |matched| - 1;
      assert matched == matched[..n] + [matched[n]];
      FetchLines(f, g, matched[..n], silent, condstore, unchangedSince) +
      if silent || IsRefused(f, matched[n], unchangedSince) then [] else [FetchLine(g, matched[n], condstore)]
  }

  /** Storing another message leaves the answers about these ones true. */
  lemma {:induction false} FetchLinesAgree(f: FolderState, g: FolderState, h: FolderState, matched: seq<nat>,
                                           silent: bool, condstore: bool, unchangedSince: Option<nat>)
    requires g.messages.Keys == h.messages.Keys
    requires forall u :: u in matched ==> u in g.messages && g.messages[u] == h.messages[u]
    ensures FetchLines(f, g, matched, silent, condstore, unchangedSince) ==
            FetchLines(f, h, matched, silent, condstore, unchangedSince)
  {
    if matched != [] {
      var n := |matched| - 1;
      assert matched == matched[..n] + [matched[n]];
      ListingIsUnique(UidsAscending(g), UidsAscending(h));
      FetchLinesAgree(f, g, h, matched[..n], silent, condstore, unchangedSince);
    }
  }

  /** One turn of the STORE loop, seen in its answers. */
  lemma FetchTurn(f: FolderState, matched: seq<nat>, i: nat, mode: Mode, flags: seq<string>,
                  unchangedSince: Option<nat>, silent: bool, condstore: bool)
    requires StrictlyAscending(matched) && i < |matched| && forall u :: u in matched ==> u in f.messages
    ensures var g := StoreAll(f, matched[..i], mode, flags, unchangedSince);
            var h := StoreAll(f, matched[..i + 1], mode, flags, unchangedSince);
            && (forall u :: u in matched ==> u in g.messages && u in h.messages)
            && FetchLines(f, h, matched[..i + 1], silent, condstore, unchangedSince) ==
               FetchLines(f, g, matched[..i], silent, condstore, unchangedSince) +
               if silent || IsRefused(f, matched[i], unchangedSince) then [] else [FetchLine(h, matched[i], condstore)]
  {
    var g := StoreAll(f, matched[..i], mode, flags, unchangedSince);
    var h := StoreAll(f, matched[..i + 1], mode, flags, unchangedSince);
    StoreTurn(f, matched, i, mode, flags, unchangedSince);
    forall u | u in matched[..i] ensures u in f.messages && u != matched[i] { assert u in matched; }
    StoreReaches(f, matched[..i], mode, flags, unchangedSince);
    assert matched[..i + 1][..i] == matched[..i];
    FetchLinesAgree(f, g, h, matched[..i], silent, condstore, unchangedSince);
  }

  /** One turn of the STORE loop: earlier turns left this message and its condition alone. */
  lemma StoreTurn(f: FolderState, matched: seq<nat>, i: nat, mode: Mode, flags: seq<string>,
                  unchangedSince: Option<nat>)
    requires StrictlyAscending(matched) && i < |matched| && forall u :: u in matched ==> u in f.messages
    ensures var g := StoreAll(f, matched[..i], mode, flags, unchangedSince);
            var uid := matched[i];
            && uid in g.messages && (IsRefused(g, uid, unchangedSince) <==> IsRefused(f, uid, unchangedSince))
            && StoreAll(f, matched[..i + 1], mode, flags, unchangedSince) ==
               StoreOne(g, uid, mode, flags, unchangedSince)
            && Refused(f, matched[..i + 1], unchangedSince) ==
                 Refused(f, matched[..i], unchangedSince) + if IsRefused(f, uid, unchangedSince) then [uid] else []
  {
    forall u | u in matched[..i] ensures u in f.messages && u != matched[i] { assert u in matched; }
    assert matched[i] in matched;
    StoreReaches(f, matched[..i], mode, flags, unchangedSince);
    assert Stored(f.messages[matched[i]], StoreAll(f, matched[..i], mode, flags, unchangedSince).messages[matched[i]],
                  false, mode, flags, f.highestModseq);
    assert matched[..i + 1][..i] == matched[..i];
  }

  /** The messages an EXPUNGE removes. */
  ghost function Doomed(f: FolderState): seq<nat> {
    DeletedIn(f, UidsAscending(f))
  }

  function DeletedIn(f: FolderState, uids: seq<nat>): (r: seq<nat>)
    ensures forall u :: u in r <==> u in uids && u in f.messages && "\\Deleted" in f.messages[u].flags
  {
    if uids == [] then []
    else
      var n := |uids| - 1;
      assert uids == uids[..n] + [uids[n]];
      var head := DeletedIn(f, uids[..n]);
      if uids[n] in f.messages && "\\Deleted" in f.messages[uids[n]].flags then head + [uids[n]] else head
  }

  /**
   One flush, seen from the client: with or without an arrival count it ends at the folder's
   listing, and the client follows exactly when the arrivals lie above what the view kept.
   */
  lemma FlushMirrors(snapshot: seq<nat>, sent: seq<Response>, f: FolderState)
    requires StrictlyAscending(snapshot) && Told(snapshot, sent, Kept(snapshot, f))
    ensures var kept := Kept(snapshot, f);
            var arrivals := Unseen(UidsAscending(f), kept);
            var all := UidsAscending(f);
            if |arrivals| > 0
            then SortValues(kept + arrivals) == all
                && (Mirrors(snapshot, sent + [Exists(|all|)], all) <==> AppendOnly(kept, f))
            else kept == all && Mirrors(snapshot, sent, all) && AppendOnly(kept, f)
  {
    var kept := Kept(snapshot, f);
    MergedView(kept, f);
    ToldMirrors(snapshot, sent, kept, Untagged(NoCode));
    if |Unseen(UidsAscending(f), kept)| > 0 {
      ArrivalsMirror(snapshot, sent, kept, f);
    }
  }
}
