/**
 A whole session of the scripted server: any number of connections over shared folders, every
 command of every connection, and an outside world that moves between any two commands. Each
 client holds the list it gets by replaying the answers of its own connection.
 */
module ImapSession {
  import opened Wrappers
  import opened MailboxStore
  import opened ImapView
  import opened ImapCommands
  import opened ImapConnection

  datatype Command =
    | Noop
    | Select(folder: nat)
    | Close
    | Store(range: string, byUid: bool, mode: Option<Mode>, silent: bool, flags: seq<string>,
            unchangedSince: Option<nat>)
    | ExpungeDeleted
    | CopyMove(range: string, byUid: bool, destination: nat, isMove: bool)
    | Append(folder: nat, bytes: Option<string>, flags: seq<string>, internalDate: int, unanswered: bool)

  datatype Event =
    | Connect
    | NewFolder(path: string, specialUse: seq<string>, uidValidity: nat, loads: seq<Load>)
    | Outside(folder: nat, step: FolderStep)
    | Send(client: nat, tag: string, command: Command)

  // ---- what commands do to a folder is nothing a view in step cannot follow ----

  lemma {:induction false} StoreIsLater(f: FolderState, uids: seq<nat>, mode: Mode, flags: seq<string>,
                                        unchangedSince: Option<nat>)
    requires Coherent(f)
    ensures Later(f, StoreAll(f, uids, mode, flags, unchangedSince))
  {
    StoreKeepsCoherent(f, uids, mode, flags, unchangedSince);
    StoreKeepsUids(f, uids, mode, flags, unchangedSince);
  }

  lemma {:induction false} StoreKeepsUids(f: FolderState, uids: seq<nat>, mode: Mode, flags: seq<string>,
                                          unchangedSince: Option<nat>)
    ensures var g := StoreAll(f, uids, mode, flags, unchangedSince);
            g.nextUid == f.nextUid && g.messages.Keys == f.messages.Keys
  {
    hide NextFlags;
    if uids != [] {
      StoreKeepsUids(f, uids[..|uids| - 1], mode, flags, unchangedSince);
    }
  }

  lemma RemoveIsLater(f: FolderState, uids: seq<nat>)
    requires Coherent(f)
    ensures Later(f, RemoveAll(f, uids))
  {
  }

  lemma CopyIsLater(d: FolderState, ms: seq<Message>)
    requires Coherent(d)
    ensures Later(d, CopyAll(d, ms))
  {
    CopyKeepsCoherent(d, ms);
    CopyAllMeans(d, ms);
  }

  lemma DeliveryIsLater(source: FolderState, d: FolderState, uids: seq<nat>, within: bool)
    requires Coherent(d) && forall u :: u in uids ==> u in source.messages
    ensures Later(d, Delivered(source, d, uids, within))
  {
    hide CopyAll, RemoveAll, Later, Pick;
    var copied := CopyAll(d, Pick(source, uids));
    CopyIsLater(d, Pick(source, uids));
    if within {
      assert Coherent(copied) by { LaterIsCoherent(d, copied); }
      RemoveIsLater(copied, uids);
      LaterComposes(d, copied, RemoveAll(copied, uids));
    }
  }

  lemma LaterIsCoherent(f: FolderState, g: FolderState)
    requires Later(f, g)
    ensures Coherent(g)
  {
  }

  lemma SameIsLater(f: FolderState)
    requires Coherent(f)
    ensures Later(f, f)
  {
  }

  lemma AppendIsLater(f: FolderState, load: Load)
    requires Coherent(f) && load.uid.None?
    ensures Later(f, Arrive(f, load))
  {
    ArriveKeepsCoherent(f, load);
  }

  /** The new message itself is nothing a view in step already held. */
  lemma AppendKeepsHeld(view: seq<nat>, f: FolderState, load: Load)
    requires InStep(view, f) && load.uid.None?
    ensures (forall v :: v in view ==> v in Arrive(f, load).messages) <==> (forall v :: v in view ==> v in f.messages)
  {
  }

  lemma LoadedIsCoherent(uidValidity: nat, loads: seq<Load>)
    ensures Coherent(ArriveAll(EmptyFolder(uidValidity), loads))
  {
    ArriveAllKeepsCoherent(EmptyFolder(uidValidity), loads);
  }

  /** What a folder answers a client that asks for the numbers it does not know. */
  ghost function Listing(c: Connection): seq<nat>
    reads c, c.selected
  {
    if c.selected == null then [] else UidsAscending(c.selected.State())
  }

  /** Nothing, or a status line. */
  ghost predicate Quiet(answers: seq<Response>) {
    answers == [] || (|answers| == 1 && !answers[0].Exists? && !answers[0].Expunged?)
  }

  lemma QuietAnswers(known: seq<nat>, answers: seq<Response>, server: seq<nat>)
    requires Quiet(answers)
    ensures Replay(known, answers, server) == known
  {
    if answers != [] {
      assert answers == [] + [answers[0]];
      ReplayOne(known, [], answers[0], server);
    }
  }

  lemma ToldIsHeard(known: seq<nat>, answers: seq<Response>, view: seq<nat>, server: seq<nat>)
    requires Told(known, answers, view)
    ensures Replay(known, answers, server) == view
  {
    ReplayWithoutExists(known, answers, [], server);
  }

  class Session {
    var folders: seq<StoredFolder>
    var clients: seq<Connection>

    constructor ()
      ensures Valid() && folders == [] && clients == []
    {
      folders, clients := [], [];
    }

    /** A client that lost nothing holds exactly its connection's view, and can go on following it. */
    ghost predicate Following(c: Connection)
      reads c, c.selected
    {
      && c.Valid()
      && (!c.lost ==> c.known == c.view && (c.selected != null ==> InStep(c.view, c.selected.State())))
    }

    ghost predicate Valid()
      reads this, folders, clients
    {
      && (forall f :: f in folders ==> Coherent(f.State()))
      && (forall c :: c in clients ==> (c.selected != null ==> c.selected in folders) && Following(c))
    }

    /** Folders by position; past the end there is no such mailbox. */
    function FolderAt(i: nat): (f: StoredFolder?)
      reads this
      ensures f != null ==> f in folders
    {
      if i < |folders| then folders[i] else null
    }

    // ---- the state a command started from ----

    ghost function States(): map<StoredFolder, FolderState>
      reads this, folders
    {
      map f | f in folders :: f.State()
    }

    /** `Following`, with the folders as they were. */
    ghost predicate FollowedAt(c: Connection, was: map<StoredFolder, FolderState>)
      reads c
    {
      && c.Valid() && (c.selected != null ==> c.selected in was)
      && (!c.lost ==> c.known == c.view && (c.selected != null ==> InStep(c.view, was[c.selected])))
    }

    ghost predicate OthersFollowed(c: Connection, was: map<StoredFolder, FolderState>)
      reads this, clients
    {
      forall d :: d in clients && d != c ==> FollowedAt(d, was)
    }

    ghost predicate Moved(was: map<StoredFolder, FolderState>)
      reads this, folders
    {
      was.Keys == (set f | f in folders) && forall f :: f in folders ==> Later(was[f], f.State())
    }

    lemma Snapshot(c: Connection)
      requires Valid() && c in clients
      ensures FollowedAt(c, States()) && OthersFollowed(c, States()) && Moved(States())
      ensures forall f :: f in folders ==> States()[f] == f.State()
    {
      hide InStep, Coherent, Later;
      forall f | f in folders ensures Later(f.State(), f.State()) { SameIsLater(f.State()); }
      forall d | d in clients ensures FollowedAt(d, States()) { assert Following(d); }
    }

    /** One client's command let nothing arrive below a view, so everybody else still follows. */
    lemma Settled(c: Connection, was: map<StoredFolder, FolderState>)
      requires c in clients && OthersFollowed(c, was) && Moved(was)
      requires (c.selected != null ==> c.selected in folders) && Following(c)
      ensures Valid()
    {
      hide InStep, Coherent, Later;
      forall d | d in clients && d != c ensures Following(d) && (d.selected != null ==> d.selected in folders) {
        assert FollowedAt(d, was);
        if !d.lost && d.selected != null { LaterKeepsInStep(d.view, was[d.selected], d.selected.State()); }
      }
      forall f | f in folders ensures Coherent(f.State()) { LaterIsCoherent(was[f], f.State()); }
    }

    /** At most a status line was written, so what the client holds stands. */
    lemma Answered(c: Connection, was: map<StoredFolder, FolderState>, known: seq<nat>, start: nat)
      requires c in clients && OthersFollowed(c, was) && Moved(was) && c.Valid()
      requires c.selected != null ==> c.selected in folders
      requires !c.lost ==> known == c.view && (c.selected != null ==> InStep(c.view, was[c.selected]))
      requires start <= |c.socket| && Quiet(c.socket[start..])
               && c.known == Replay(known, c.socket[start..], Listing(c))
      ensures Valid() && c.known == known
    {
      hide InStep, Coherent, Later, Quiet;
      QuietAnswers(known, c.socket[start..], Listing(c));
      if !c.lost && c.selected != null { LaterKeepsInStep(c.view, was[c.selected], c.selected.State()); }
      Settled(c, was);
    }

    /** The command ended with a flush: its client, if it followed before, holds the listing. */
    lemma Flushed(c: Connection, was: map<StoredFolder, FolderState>, before: seq<nat>, known: seq<nat>, start: nat)
      requires c in clients && OthersFollowed(c, was) && Moved(was) && c.Valid()
      requires c.selected != null && c.selected in folders && c.view == UidsAscending(c.selected.State())
      requires !c.lost ==> known == before && InStep(before, was[c.selected])
      requires start <= |c.socket| && c.known == Replay(known, c.socket[start..], Listing(c))
      requires AppendOnly(Kept(before, c.selected.State()), c.selected.State()) <==>
        Mirrors(before, c.socket[start..], c.view)
      ensures Valid()
    {
      hide InStep, Coherent, Later, AppendOnly, Kept;
      var f, g := was[c.selected], c.selected.State();
      LaterIsCoherent(f, g);
      if !c.lost {
        InStepMirrors(before, f, g, c.socket[start..], c.view);
        FreshViewInStep(g);
      }
      Settled(c, was);
    }

    /** The view was replaced by the listing: a client that followed has it exactly when all it held was still there. */
    lemma AppendedHere(c: Connection, was: map<StoredFolder, FolderState>, before: seq<nat>, known: seq<nat>,
                       start: nat,
                       load: Load, followed: bool)
      requires c in clients && OthersFollowed(c, was) && Moved(was) && c.Valid()
      requires c.selected != null && c.selected in folders && c.view == UidsAscending(c.selected.State())
      requires c.selected.State() == Arrive(was[c.selected], load) && load.uid.None?
      requires start <= |c.socket| && c.known == Replay(known, c.socket[start..], Listing(c))
      requires followed ==> known == before && InStep(before, was[c.selected])
      requires followed ==>
        (Mirrors(before, c.socket[start..], c.view) <==> forall v :: v in before ==> v in c.selected.messages)
      requires c.lost <==> !followed || exists v :: v in before && v !in was[c.selected].messages
      ensures Valid()
      ensures followed ==> (c.lost <==> c.known != c.view)
    {
      hide InStep, Coherent, Later, Arrive;
      LaterIsCoherent(was[c.selected], c.selected.State());
      FreshViewInStep(c.selected.State());
      if followed { AppendKeepsHeld(before, was[c.selected], load); }
      Settled(c, was);
    }

    /** The client reads what its connection wrote since `start`, asking the folder for what it does not know yet. */
    ghost method Listen(c: Connection, start: nat)
      requires start <= |c.socket|
      modifies c`known
      ensures c.known == Replay(old(c.known), c.socket[start..], Listing(c))
    {
      c.known := Replay(c.known, c.socket[start..], Listing(c));
    }

    // ---- the commands ----

    /** NOOP and CHECK: afterwards the client holds the folder's listing. */
    method Poll(c: Connection, tag: string)
      requires Valid() && c in clients
      modifies c`view, c`socket, c`known
      ensures Valid()
      ensures c.selected != null ==> c.view == UidsAscending(c.selected.State())
    {
      hide Replay, Mirrors, AppendOnly, Kept, InStep, Coherent, Later;
      Snapshot(c);
      ghost var was, known, view, start := States(), c.known, c.view, |c.socket|;
      c.HandleNoop(tag);
      Listen(c, start);
      if c.selected == null {
        Answered(c, was, known, start);
      } else {
        Flushed(c, was, view, known, start);
      }
    }

    /** SELECT of a folder starts the client over with its listing, whatever was lost before. */
    method Select(c: Connection, tag: string, folder: nat)
      requires Valid() && c in clients
      modifies c`selected, c`view, c`socket, c`known, c`lost
      ensures Valid()
      ensures folder >= |folders| ==> c.selected == old(c.selected) && c.view == old(c.view) && c.lost == old(c.lost)
      ensures folder < |folders| ==>
        c.selected == folders[folder] && !c.lost && c.view == UidsAscending(c.selected.State())
    {
      hide Replay, AppendOnly, Kept, InStep, Coherent, Later;
      Snapshot(c);
      ghost var was, known, start := States(), c.known, |c.socket|;
      var target := FolderAt(folder);
      c.HandleSelect(tag, target);
      if target == null {
        Listen(c, start);
        Answered(c, was, known, start);
      } else {
        c.known, c.lost := [], false;
        Listen(c, start);
        FreshViewInStep(target.State());
        Settled(c, was);
      }
    }

    /** CLOSE and UNSELECT drop the list on both ends. */
    method Close(c: Connection, tag: string)
      requires Valid() && c in clients
      modifies c`selected, c`view, c`socket, c`known, c`lost
      ensures Valid() && c.selected == null && c.view == [] && !c.lost
    {
      hide InStep, Coherent, Later;
      Snapshot(c);
      ghost var was := States();
      c.HandleClose(tag);
      c.known, c.lost := [], false;
      Settled(c, was);
    }

    /** Commands on messages need a folder; without one the answer is a refusal and nothing moves. */
    method Selected(c: Connection, tag: string) returns (ok: bool)
      requires Valid() && c in clients
      modifies c`socket, c`known
      ensures Valid() && ok == (c.selected != null)
      ensures ok ==> unchanged(c)
    {
      hide Replay, InStep, Coherent, Later;
      Snapshot(c);
      ghost var was, known, start := States(), c.known, |c.socket|;
      ok := c.RequireSelected(tag);
      if !ok {
        Listen(c, start);
        Answered(c, was, known, start);
      }
    }

    method Store(c: Connection, tag: string, range: string, byUid: bool, mode: Option<Mode>, silent: bool,
                 flags: seq<string>, unchangedSince: Option<nat>)
      requires Valid() && c in clients && c.selected != null
      modifies c`view, c`socket, c`known, c.selected
      ensures Valid() && c.selected == old(c.selected)
      ensures c.selected.State() == old(if mode.None? then c.selected.State() else
        StoreAll(c.selected.State(), Matched(c.selected.State(), range, byUid), mode.value, flags, unchangedSince))
      ensures mode.Some? ==> c.view == UidsAscending(c.selected.State())
    {
      hide Replay, Mirrors, AppendOnly, Kept, InStep, Coherent, Later, Matched, StoreAll;
      Snapshot(c);
      ghost var was, known, view, start := States(), c.known, c.view, |c.socket|;
      ghost var f := c.selected.State();
      c.HandleStore(tag, range, byUid, mode, silent, flags, unchangedSince);
      Listen(c, start);
      if mode.None? {
        Answered(c, was, known, start);
      } else {
        StoreIsLater(f, Matched(f, range, byUid), mode.value, flags, unchangedSince);
        Flushed(c, was, view, known, start);
      }
    }

    method ExpungeDeleted(c: Connection, tag: string)
      requires Valid() && c in clients && c.selected != null
      modifies c`view, c`socket, c`known, c.selected
      ensures Valid() && c.selected == old(c.selected)
      ensures c.selected.State() == old(RemoveAll(c.selected.State(), Doomed(c.selected.State())))
    {
      hide Replay, Told, InStep, Coherent, Later;
      Snapshot(c);
      ghost var was, known, view, start := States(), c.known, c.view, |c.socket|;
      ghost var f := c.selected.State();
      c.HandleExpunge(tag);
      Listen(c, start);
      RemoveIsLater(f, Doomed(f));
      if !c.lost {
        ToldIsHeard(view, c.socket[start..], c.view, Listing(c));
        RemovalsKeepInStep(view, f, c.view, c.selected.State());
      }
      Settled(c, was);
    }

    method CopyMove(c: Connection, tag: string, range: string, byUid: bool, destination: nat, isMove: bool)
      requires Valid() && c in clients && c.selected != null
      modifies c`view, c`socket, c`known, folders
      ensures Valid() && c.selected == old(c.selected)
      ensures destination < |folders| && old(Matched(c.selected.State(), range, byUid)) != [] ==>
        && folders[destination].State() ==
           old(Delivered(c.selected.State(), folders[destination].State(), Matched(c.selected.State(), range, byUid),
                         isMove && folders[destination] == c.selected))
        && (folders[destination] != c.selected ==>
              c.selected.State() ==
                  old(if isMove then RemoveAll(c.selected.State(), Matched(c.selected.State(), range, byUid))
                                        else c.selected.State()))
      ensures destination < |folders| && old(Matched(c.selected.State(), range, byUid)) != [] ==>
                c.view == UidsAscending(c.selected.State())
    {
      hide Replay, Mirrors, AppendOnly, Kept, InStep, Coherent, Later, Matched, Delivered, RemoveAll, CopyUidOf, States,
          UidsAscending;
      Snapshot(c);
      ghost var was, known, view, start := States(), c.known, c.view, |c.socket|;
      var target := FolderAt(destination);
      ghost var f := c.selected.State();
      ghost var matched := Matched(f, range, byUid);
      c.HandleCopyMove(tag, range, byUid, target, isMove);
      Listen(c, start);
      if target == null {
        Answered(c, was, known, start);
      } else if matched == [] {
        Answered(c, was, known, start);
      } else {
        DeliveryIsLater(f, was[target], matched, isMove && target == c.selected);
        RemoveIsLater(f, matched);
        Flushed(c, was, view, known, start);
      }
    }

    /** An append to the folder the client sees while something it holds is gone unseen. */
    ghost predicate AppendHides(c: Connection, folder: nat, bytes: Option<string>)
      reads this, c, c.selected
    {
      && folder < |folders| && bytes.Some? && c.selected == folders[folder]
      && exists v :: v in c.view && v !in c.selected.messages
    }

    /** An append to the folder the client sees: its view is replaced. */
    method AppendToSelected(c: Connection, tag: string, target: StoredFolder, bytes: string, flags: seq<string>,
                            internalDate: int, unanswered: bool)
      requires Valid() && c in clients && c.selected == target
      modifies c`view, c`socket, c`known, c`lost, target
      ensures Valid() && target.State() == Arrive(old(target.State()), Load(None, bytes, flags, internalDate))
      ensures c.lost <==> old(c.lost) || exists v :: v in old(c.view) && v !in old(target.messages)
      ensures !old(c.lost) ==> (c.lost <==> c.known != c.view)
    {
      hide Replay, Mirrors, AppendOnly, Kept, InStep, Coherent, Later, Arrive, States, UidsAscending;
      Snapshot(c);
      ghost var was, known, view, start := States(), c.known, c.view, |c.socket|;
      ghost var load := Load(None, bytes, flags, internalDate);
      c.HandleAppend(tag, target, Some(bytes), flags, internalDate, unanswered);
      Listen(c, start);
      AppendIsLater(was[target], load);
      c.lost := c.lost || exists v :: v in view && v !in was[target].messages;
      AppendedHere(c, was, view, known, start, load, !old(c.lost));
    }

    /** An append the client sees nothing of: elsewhere, or refused. */
    method AppendAside(c: Connection, tag: string, target: StoredFolder?, bytes: Option<string>, flags: seq<string>,
                       internalDate: int, unanswered: bool)
      requires Valid() && c in clients && (target != null ==> target in folders)
      requires target == null || bytes.None? || c.selected != target
      modifies c`view, c`socket, c`known
      modifies if target == null then {} else {target}
      ensures Valid() && c.known == old(c.known) && c.view == old(c.view)
      ensures target != null ==>
        target.State() == if bytes.None? then old(target.State())
                          else Arrive(old(target.State()), Load(None, bytes.value, flags, internalDate))
    {
      hide Replay, Mirrors, AppendOnly, Kept, InStep, Coherent, Later, Arrive, States, UidsAscending;
      Snapshot(c);
      ghost var was, known, start := States(), c.known, |c.socket|;
      c.HandleAppend(tag, target, bytes, flags, internalDate, unanswered);
      Listen(c, start);
      if target != null && bytes.Some? {
        AppendIsLater(was[target], Load(None, bytes.value, flags, internalDate));
      }
      Answered(c, was, known, start);
    }

    /**
     APPEND anywhere. Into the selected folder it keeps its own client exactly when nothing the
     client holds was expunged unseen; every other client follows in any case.
     */
    method Append(c: Connection, tag: string, folder: nat, bytes: Option<string>, flags: seq<string>, internalDate: int,
                  unanswered: bool)
      requires Valid() && c in clients
      modifies c`view, c`socket, c`known, c`lost, folders
      ensures Valid() && c.selected == old(c.selected)
      ensures folder < |folders| && bytes.Some? ==>
        folders[folder].State() == old(Arrive(folders[folder].State(), Load(None, bytes.value, flags, internalDate)))
      ensures c.lost <==> old(c.lost) || old(AppendHides(c, folder, bytes))
      ensures !old(c.lost) ==> (c.lost <==> c.known != c.view)
    {
      hide InStep, Coherent, Arrive;
      assert Following(c);
      var target := FolderAt(folder);
      if target != null && bytes.Some? && c.selected == target {
        AppendToSelected(c, tag, target, bytes.value, flags, internalDate, unanswered);
      } else {
        AppendAside(c, tag, target, bytes, flags, internalDate, unanswered);
      }
    }

    // ---- everybody else ----

    /** The folder holds a given value from now on. */
    method Become(folder: StoredFolder, g: FolderState)
      modifies folder
      ensures folder.State() == g
    {
      folder.uidValidity, folder.messages := g.uidValidity, g.messages;
      folder.nextUid, folder.highestModseq := g.nextUid, g.highestModseq;
    }

    /**
     An outside change of a folder. Only an arrival below something a client sees takes that
     client's list from it; arrivals above, expunges, flag changes and new generations never do.
     */
    method Outside(folder: StoredFolder, step: FolderStep)
      requires Valid() && folder in folders
      modifies folder, set c | c in clients :: c`lost
      ensures Valid() && folder.State() == Apply(old(folder.State()), step)
      ensures forall c :: c in clients ==>
        (c.lost <==> old(c.lost) || (c.selected == folder && old(ArrivesBelow(c.view, folder.State(), step))))
    {
      hide InStep, Coherent, Later, Apply, ArrivesBelow;
      ghost var f, g := folder.State(), Apply(folder.State(), step);
      assert forall c :: c in clients ==> Following(c);
      Become(folder, Apply(folder.State(), step));
      forall c | c in clients && c.selected == folder && ArrivesBelow(c.view, f, step) {
        c.lost := true;
      }
      forall c | c in clients ensures Following(c) {
        if !c.lost && c.selected == folder { OutsideKeepsInStep(c.view, f, step); }
      }
      RunOne(f, step);
    }

    /** A new connection has nothing selected. */
    method Connect()
      requires Valid()
      modifies this`clients
      ensures Valid() && |clients| == |old(clients)| + 1 && fresh(clients[|clients| - 1])
      ensures clients[..|clients| - 1] == old(clients)
      ensures !clients[|clients| - 1].lost && clients[|clients| - 1].known == []
    {
      hide InStep, Coherent;
      assert forall c :: c in clients ==> Following(c);
      var c := new Connection();
      clients := clients + [c];
      assert forall d :: d in clients ==> Following(d);
    }

    /** A folder object appears, already holding messages at any UIDs; a replaced folder is a new object too. */
    method NewFolder(path: string, specialUse: seq<string>, uidValidity: nat, loads: seq<Load>)
      requires Valid()
      modifies this`folders
      ensures Valid() && |folders| == |old(folders)| + 1 && fresh(folders[|folders| - 1])
      ensures folders[..|folders| - 1] == old(folders)
      ensures folders[|folders| - 1].State() == ArriveAll(EmptyFolder(uidValidity), loads)
    {
      hide InStep, Coherent, ArriveAll;
      assert forall c :: c in clients ==> Following(c);
      var folder := new StoredFolder(path, specialUse, uidValidity);
      Become(folder, ArriveAll(EmptyFolder(uidValidity), loads));
      LoadedIsCoherent(uidValidity, loads);
      folders := folders + [folder];
      assert forall c :: c in clients ==> Following(c);
    }

    // ---- sessions ----

    /** The commands that end with a flush, and so with the listing. */
    ghost predicate Flushes(c: Connection, command: Command)
      reads this, c, c.selected
    {
      && c.selected != null
      && match command
         case Noop => true
         case Store(_, _, mode, _, _, _) => mode.Some?
         case CopyMove(range, byUid, destination, _) =>
           destination < |folders| && Matched(c.selected.State(), range, byUid) != []
         case _ => false
    }

    /** The client's list starts over. */
    predicate Restarts(command: Command)
      reads this
    {
      command.Close? || (command.Select? && command.folder < |folders|)
    }

    /**
     The two things no answer tells a client: an arrival below its view, and its own append over an
     unseen expunge.
     */
    ghost predicate Loses(c: Connection, e: Event)
      reads this, c, c.selected
    {
      match e
      case Outside(i, step) => i < |folders| && c.selected == folders[i]
          && ArrivesBelow(c.view, c.selected.State(), step)
      case Send(k, _, Append(i, bytes, _, _, _)) => k < |clients| && clients[k] == c && AppendHides(c, i, bytes)
      case _ => false
    }

    /** Any command of any client: it and every other client that lost nothing hold what their connections hold. */
    method Perform(c: Connection, tag: string, command: Command)
      requires Valid() && c in clients
      modifies c, folders
      ensures Valid() && (!c.lost ==> c.known == c.view)
      ensures command.Select? && command.folder < |folders| ==> c.selected == folders[command.folder]
      ensures command.Close? ==> c.selected == null
      ensures command.Store? && command.mode.Some? && old(c.selected) != null ==>
        && c.selected == old(c.selected)
        && c.selected.State() ==
           old(StoreAll(c.selected.State(), Matched(c.selected.State(), command.range, command.byUid),
                                              command.mode.value, command.flags, command.unchangedSince))
      ensures command.ExpungeDeleted? && old(c.selected) != null ==>
        c.selected == old(c.selected)
        && c.selected.State() == old(RemoveAll(c.selected.State(), Doomed(c.selected.State())))
      ensures command.CopyMove? && command.destination < |folders| && old(c.selected) != null &&
              old(Matched(c.selected.State(), command.range, command.byUid)) != [] ==>
        folders[command.destination].State() ==
        old(Delivered(c.selected.State(), folders[command.destination].State(),
                      Matched(c.selected.State(), command.range, command.byUid),
                      command.isMove && folders[command.destination] == c.selected))
      ensures command.Append? && command.folder < |folders| && command.bytes.Some? ==>
        folders[command.folder].State() ==
        old(Arrive(folders[command.folder].State(),
                   Load(None, command.bytes.value, command.flags, command.internalDate)))
      ensures old(Flushes(c, command)) ==> c.selected == old(c.selected) && c.view == UidsAscending(c.selected.State())
      ensures c.lost <==>
              if command.Append? then old(c.lost) || old(AppendHides(c, command.folder, command.bytes))
              else old(c.lost) && !Restarts(command)
    {
      hide InStep, AppendHides, Matched, UidsAscending, Coherent, StoreAll, RemoveAll, Doomed, Delivered, Arrive;
      match command {
        case Noop => Poll(c, tag);
        case Select(folder) => Select(c, tag, folder);
        case Close => Close(c, tag);
        case Append(folder, bytes, flags, internalDate, unanswered) =>
          Append(c, tag, folder, bytes, flags, internalDate, unanswered);
        case Store(range, byUid, mode, silent, flags, unchangedSince) =>
          var ok := Selected(c, tag);
          if ok { Store(c, tag, range, byUid, mode, silent, flags, unchangedSince); }
        case ExpungeDeleted =>
          var ok := Selected(c, tag);
          if ok { ExpungeDeleted(c, tag); }
        case CopyMove(range, byUid, destination, isMove) =>
          var ok := Selected(c, tag);
          if ok { CopyMove(c, tag, range, byUid, destination, isMove); }
      }
      assert Following(c);
    }

    /** New UIDs alone, and nothing appended: no client can lose its list over these. */
    static predicate Harmless(e: Event) {
      match e
      case Outside(_, step) => step.Arrival? ==> step.load.uid.None?
      case Send(_, _, command) => command.Append? ==> command.bytes.None?
      case _ => true
    }

    lemma HarmlessLosesNothing(e: Event)
      requires Valid() && (forall c :: c in clients ==> !c.lost) && Harmless(e)
      ensures forall c :: c in clients ==> !Loses(c, e)
    {
      forall c | c in clients ensures !Loses(c, e) {
        assert Following(c);
        if e.Outside? && c.selected != null { assert forall v :: v in c.view ==> v < c.selected.nextUid; }
      }
    }

    /** Every folder and every connection. */
    ghost function Repr(): (r: set<object>)
      reads this
      ensures (forall f :: f in folders ==> f in r) && (forall c :: c in clients ==> c in r)
    {
      (set f | f in folders :: f as object) + (set c | c in clients :: c as object)
    }

    /** One event of a session. */
    method Act(e: Event)
      requires Valid()
      modifies this, Repr()
      ensures Valid() && old(folders) <= folders && old(clients) <= clients
      ensures fresh(Repr() - old(Repr()))
      ensures forall c :: c in clients && c.lost ==> c in old(clients) && (old(c.lost) || old(Loses(c, e)))
      ensures forall c :: c in old(clients) && old(Loses(c, e)) ==> c.lost
    {
      hide Following, AppendHides, ArrivesBelow, Matched, UidsAscending, Coherent;
      match e {
        case Connect =>
          Connect();
          assert Repr() == old(Repr()) + {clients[|clients| - 1]};
        case NewFolder(path, specialUse, uidValidity, loads) =>
          NewFolder(path, specialUse, uidValidity, loads);
          assert Repr() == old(Repr()) + {folders[|folders| - 1]};
        case Outside(i, step) =>
          if i < |folders| { Outside(folders[i], step); }
        case Send(k, tag, command) =>
          if k < |clients| { Perform(clients[k], tag, command); }
      }
    }

    /**
     Any session of any number of clients: whoever lost nothing holds exactly its connection's
     view, and nobody loses anything unless one of the two silent events happens to it.
     */
    method Play(events: seq<Event>) returns (ghost calm: bool)
      requires Valid() && forall c :: c in clients ==> !c.lost
      modifies this, Repr()
      ensures Valid() && forall c :: c in clients && !c.lost ==> c.known == c.view
      ensures calm ==> forall c :: c in clients ==> !c.lost && c.known == c.view
      ensures (forall e :: e in events ==> Harmless(e)) ==> calm
    {
      hide Loses, Harmless, InStep, Coherent;
      calm := true;
      for i := 0 to |events|
        invariant Valid() && fresh(Repr() - old(Repr()))
        invariant calm ==> forall c :: c in clients ==> !c.lost
        invariant (forall e :: e in events ==> Harmless(e)) ==> calm
      {
        if calm && Harmless(events[i]) { HarmlessLosesNothing(events[i]); }
        calm := calm && forall c :: c in clients ==> !Loses(c, events[i]);
        Act(events[i]);
      }
      assert forall c :: c in clients ==> Following(c);
    }
  }
}
