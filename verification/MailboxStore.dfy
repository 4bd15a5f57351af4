/**
 The server-side state of one scripted mailbox: folders, their generations, their
 messages and one modification-sequence counter a folder.
 */
module MailboxStore {
  import opened Wrappers
  import opened Ascending

  datatype Message = Message(bytes: string, flags: seq<string>, internalDate: int, modseq: nat)

  /** The value one folder holds; messages are keyed by UID. */
  datatype FolderState = FolderState(uidValidity: nat, messages: map<nat, Message>, nextUid: nat, highestModseq: nat)

  datatype Load = Load(uid: Option<nat>, bytes: string, flags: seq<string>, internalDate: int)

  /** What the world may do to one folder object between two commands. */
  datatype FolderStep =
    | Arrival(load: Load)
    | Expunge(uid: nat)
    | Restamp(uid: nat, flags: seq<string>)
    | Generation(uidValidity: nat)

  /** The UIDs one folder holds, ascending. Gaps stay gaps. */
  ghost function UidsAscending(f: FolderState): seq<nat> {
    Sorted(f.messages.Keys)
  }

  function EmptyFolder(uidValidity: nat): FolderState {
    FolderState(uidValidity, map[], 1, 1)
  }

  function ArrivalUid(f: FolderState, load: Load): nat {
    if load.uid.Some? then load.uid.value else f.nextUid
  }

  function Arrive(f: FolderState, load: Load): FolderState {
    var uid := ArrivalUid(f, load);
    var message := Message(load.bytes, load.flags, load.internalDate, f.highestModseq + 1);
    f.(nextUid := Max(f.nextUid, uid + 1),
       highestModseq := f.highestModseq + 1,
       messages := f.messages[uid := message])
  }

  function ArriveAll(f: FolderState, loads: seq<Load>): FolderState {
    if loads == [] then f else Arrive(ArriveAll(f, loads[..|loads| - 1]), loads[|loads| - 1])
  }

  function Without(f: FolderState, uid: nat): FolderState {
    f.(messages := f.messages - {uid})
  }

  /** Stamp one message with a fresh modification sequence and the given flags. */
  function Stamp(f: FolderState, uid: nat, flags: seq<string>): FolderState
    requires uid in f.messages
  {
    var next := f.highestModseq + 1;
    f.(highestModseq := next, messages := f.messages[uid := f.messages[uid].(flags := flags, modseq := next)])
  }

  function Apply(f: FolderState, step: FolderStep): FolderState {
    match step
    case Arrival(load) => Arrive(f, load)
    case Expunge(uid) => Without(f, uid)
    case Restamp(uid, flags) => if uid in f.messages then Stamp(f, uid, flags) else f
    case Generation(v) => f.(uidValidity := v)
  }

  function Run(f: FolderState, steps: seq<FolderStep>): FolderState {
    if steps == [] then f else Apply(Run(f, steps[..|steps| - 1]), steps[|steps| - 1])
  }

  /** Next UID above every UID; modification sequences distinct and bounded by the highest. */
  ghost predicate Coherent(f: FolderState) {
    && 1 <= f.nextUid
    && (forall uid :: uid in f.messages ==> uid < f.nextUid)
    && (forall uid :: uid in f.messages ==> 1 <= f.messages[uid].modseq <= f.highestModseq)
    && (forall a, b :: a in f.messages && b in f.messages && a != b ==> f.messages[a].modseq != f.messages[b].modseq)
  }

  predicate Touches(f: FolderState, step: FolderStep, uid: nat) {
    match step
    case Arrival(load) => ArrivalUid(f, load) == uid
    case Expunge(u) => u == uid
    case Restamp(u, _) => u == uid
    case Generation(_) => false
  }

  predicate Untouched(f: FolderState, steps: seq<FolderStep>, uid: nat) {
    steps == [] || (var before := steps[..|steps| - 1];
                    Untouched(f, before, uid) && !Touches(Run(f, before), steps[|steps| - 1], uid))
  }

  lemma ArriveKeepsCoherent(f: FolderState, load: Load)
    requires Coherent(f)
    ensures Coherent(Arrive(f, load))
  {
    var g := Arrive(f, load);
    forall uid | uid in g.messages ensures uid < g.nextUid && 1 <= g.messages[uid].modseq <= g.highestModseq {
      assert uid == ArrivalUid(f, load) || uid in f.messages;
    }
  }

  lemma StampKeepsCoherent(f: FolderState, uid: nat, flags: seq<string>)
    requires Coherent(f) && uid in f.messages
    ensures Coherent(Stamp(f, uid, flags))
  {
  }

  /** Every history of arrivals, expunges, flag changes and renumberings keeps the folder coherent. */
  lemma {:induction false} RunKeepsCoherent(f: FolderState, steps: seq<FolderStep>)
    requires Coherent(f)
    ensures Coherent(Run(f, steps))
    ensures f.highestModseq <= Run(f, steps).highestModseq
    ensures f.nextUid <= Run(f, steps).nextUid
  {
    if steps != [] {
      var g := Run(f, steps[..|steps| - 1]);
      RunKeepsCoherent(f, steps[..|steps| - 1]);
      match steps[|steps| - 1] {
        case Arrival(load) => ArriveKeepsCoherent(g, load);
        case Restamp(uid, flags) => if uid in g.messages { StampKeepsCoherent(g, uid, flags); }
        case Expunge(uid) =>
        case Generation(v) =>
      }
    }
  }

  lemma {:induction false} ArriveAllKeepsCoherent(f: FolderState, loads: seq<Load>)
    requires Coherent(f)
    ensures Coherent(ArriveAll(f, loads))
  {
    if loads != [] {
      ArriveAllKeepsCoherent(f, loads[..|loads| - 1]);
      ArriveKeepsCoherent(ArriveAll(f, loads[..|loads| - 1]), loads[|loads| - 1]);
    }
  }

  /** What a history leaves of one message: its captured value, or a stamp above every captured one. */
  lemma {:induction false} HistoryOf(f: FolderState, steps: seq<FolderStep>, uid: nat)
    requires Coherent(f) && uid in f.messages
    ensures var g := Run(f, steps);
            if Untouched(f, steps, uid)
            then uid in g.messages && g.messages[uid] == f.messages[uid]
            else uid in g.messages ==> f.highestModseq < g.messages[uid].modseq
  {
    if steps != [] {
      var before := steps[..|steps| - 1];
      HistoryOf(f, before, uid);
      RunKeepsCoherent(f, before);
    }
  }

  /**
   A conditional write at a value captured from a message (or at any later value of the
   capture moment) finds its condition true exactly when nothing touched the message since,
   which is exactly when the message still has its captured value.
   */
  lemma UnchangedSinceIsExact(f: FolderState, steps: seq<FolderStep>, uid: nat, captured: nat)
    requires Coherent(f) && uid in f.messages
    requires f.messages[uid].modseq <= captured <= f.highestModseq
    requires uid in Run(f, steps).messages
    ensures Run(f, steps).messages[uid].modseq <= captured <==> Untouched(f, steps, uid)
    ensures Untouched(f, steps, uid) <==> Run(f, steps).messages[uid] == f.messages[uid]
  {
    HistoryOf(f, steps, uid);
  }

  /** A message that arrived after the capture never satisfies the captured condition. */
  lemma {:induction false} LaterArrivalFailsCondition(f: FolderState, steps: seq<FolderStep>, uid: nat)
    requires Coherent(f) && uid !in f.messages
    ensures uid in Run(f, steps).messages ==> f.highestModseq < Run(f, steps).messages[uid].modseq
  {
    if steps != [] {
      var before := steps[..|steps| - 1];
      LaterArrivalFailsCondition(f, before, uid);
      RunKeepsCoherent(f, before);
    }
  }

  lemma ArriveAllTurn(f: FolderState, loads: seq<Load>, i: nat)
    requires i <= |loads|
    ensures ArriveAll(f, []) == f
    ensures i < |loads| ==> ArriveAll(f, loads[..i + 1]) == Arrive(ArriveAll(f, loads[..i]), loads[i])
  {
    if i < |loads| { assert loads[..i + 1][..i] == loads[..i]; }
  }

  /** The largest of some UIDs, zero when there are none. */
  ghost predicate IsHighest(m: nat, xs: set<nat>) {
    (forall x :: x in xs ==> x <= m) && (if xs == {} then m == 0 else m in xs)
  }

  /** The adjustment that ends a replacement changes nothing: every arrival raised the next UID. */
  lemma NextUidAlreadyClear(uidValidity: nat, loads: seq<Load>, highest: nat)
    requires IsHighest(highest, ArriveAll(EmptyFolder(uidValidity), loads).messages.Keys)
    ensures var f := ArriveAll(EmptyFolder(uidValidity), loads);
            Max(f.nextUid, highest + 1) == f.nextUid
  {
    ArriveAllKeepsCoherent(EmptyFolder(uidValidity), loads);
  }

  /** One folder object. Connections hold references to it, so it changes in place. */
  class StoredFolder {
    const path: string
    var specialUse: seq<string>
    var uidValidity: nat
    var messages: map<nat, Message>
    var nextUid: nat
    var highestModseq: nat

    constructor (path: string, specialUse: seq<string>, uidValidity: nat)
      ensures State() == EmptyFolder(uidValidity)
      ensures this.path == path && this.specialUse == specialUse
    {
      this.path := path;
      this.specialUse := specialUse;
      this.uidValidity := uidValidity;
      this.messages := map[];
      this.nextUid := 1;
      this.highestModseq := 1;
    }

    function State(): FolderState
      reads this
    {
      FolderState(uidValidity, messages, nextUid, highestModseq)
    }
  }

  /** The UIDs of one folder, ascending. Every command shares it. */
  method ListUids(folder: StoredFolder) returns (uids: seq<nat>)
    ensures uids == UidsAscending(folder.State())
  {
    uids := ListSet(folder.messages.Keys);
  }

  /** The store every connection shares. Replacing a folder detaches the old object. */
  class ScriptedMailboxStore {
    var folders: map<string, StoredFolder>

    constructor ()
      ensures Valid() && folders == map[]
    {
      folders := map[];
    }

    /** Paths name distinct objects. */
    ghost predicate Valid()
      reads this
    {
      forall p, q :: p in folders && q in folders && p != q ==> folders[p] != folders[q]
    }

    ghost function Contents(): map<string, FolderState>
      reads this, folders.Values
    {
      map p | p in folders :: folders[p].State()
    }

    method AddFolder(path: string, specialUse: seq<string>, uidValidity: Option<nat>) returns (folder: StoredFolder)
      requires Valid()
      modifies this
      ensures Valid() && fresh(folder)
      ensures folders == old(folders)[path := folder]
      ensures folder.specialUse == specialUse
      ensures Contents() == old(Contents())[path := EmptyFolder(if uidValidity.Some? then uidValidity.value else 1)]
    {
      folder := new StoredFolder(path, specialUse, if uidValidity.Some? then uidValidity.value else 1);
      folders := folders[path := folder];
      assert Contents().Keys == old(Contents())[path := folder.State()].Keys;
      assert forall p :: p in folders && p != path ==> p in old(folders) && folders[p] != folder;
    }

    method AddMessage(path: string, load: Load) returns (uid: Result<nat, string>)
      requires Valid()
      modifies folders.Values
      ensures Valid()
      ensures path !in folders ==> uid.Err? && Contents() == old(Contents())
      ensures path in folders ==>
        && uid == Ok(ArrivalUid(old(folders[path].State()), load))
        && Contents() == old(Contents())[path := Arrive(old(folders[path].State()), load)]
    {
      if path !in folders {
        return Err("No folder of that name exists on the scripted store.");
      }
      var folder := folders[path];
      var id := if load.uid.Some? then load.uid.value else folder.nextUid;
      folder.nextUid := Max(folder.nextUid, id + 1);
      folder.highestModseq := folder.highestModseq + 1;
      folder.messages := folder.messages[id := Message(load.bytes, load.flags, load.internalDate,
                                                       folder.highestModseq)];
      assert folder.State() == Arrive(old(folder.State()), load);
      assert forall p :: p in folders && p != path ==>
          folders[p] != folder && folders[p].State() == old(folders[p].State());
      return Ok(id);
    }

    method Expunge(path: string, uid: nat) returns (done: bool)
      requires Valid()
      modifies folders.Values
      ensures Valid() && done == (path in folders)
      ensures Contents() ==
        if done then old(Contents())[path := Without(old(folders[path].State()), uid)] else old(Contents())
    {
      if path !in folders {
        return false;
      }
      folders[path].messages := folders[path].messages - {uid};
      return true;
    }

    method SetUidValidity(path: string, uidValidity: nat) returns (done: bool)
      requires Valid()
      modifies folders.Values
      ensures Valid() && done == (path in folders)
      ensures Contents() ==
        if done then old(Contents())[path := old(folders[path].State()).(uidValidity := uidValidity)]
        else old(Contents())
    {
      if path !in folders {
        return false;
      }
      folders[path].uidValidity := uidValidity;
      return true;
    }

    method ResetUidValidity(path: string) returns (generation: Result<nat, string>)
      requires Valid()
      modifies folders.Values
      ensures Valid()
      ensures path !in folders ==> generation.Err? && Contents() == old(Contents())
      ensures path in folders ==>
        && generation == Ok(old(folders[path].uidValidity) + 1)
        && Contents() == old(Contents())[path := old(folders[path].State()).(uidValidity := generation.value)]
    {
      if path !in folders {
        return Err("No folder of that name exists on the scripted store.");
      }
      folders[path].uidValidity := folders[path].uidValidity + 1;
      return Ok(folders[path].uidValidity);
    }

    /** Load messages into one folder, in order. */
    method AddMessages(path: string, loads: seq<Load>)
      requires Valid() && path in folders
      modifies folders.Values
      ensures Valid()
      ensures Contents() == old(Contents())[path := ArriveAll(old(folders[path].State()), loads)]
    {
      hide Arrive, ArriveAll;
      ArriveAllTurn(folders[path].State(), loads, 0);
      for i := 0 to |loads|
        invariant Valid()
        invariant Contents() == old(Contents())[path := ArriveAll(old(folders[path].State()), loads[..i])]
      {
        ArriveAllTurn(old(folders[path].State()), loads, i);
        ghost var before := Contents();
        assert folders[path].State() == before[path];
        var _ := AddMessage(path, loads[i]);
        assert Contents() == before[path := Arrive(before[path], loads[i])];
      }
      assert loads[..|loads|] == loads;
    }

    method HighestUid(folder: StoredFolder) returns (highest: nat)
      ensures IsHighest(highest, folder.messages.Keys)
    {
      var uids := ListUids(folder);
      highest := if uids == [] then 0 else uids[|uids| - 1];
      assert forall x :: x in folder.messages.Keys ==> x in uids;
      assert uids != [] ==> highest in uids;
      if x :| x in folder.messages.Keys { assert x in uids; }
    }

    /** Replace a folder whole under a new generation. */
    method ReplaceFolder(path: string, uidValidity: nat, loads: seq<Load>)
      requires Valid()
      modifies this, folders.Values
      ensures Valid()
      ensures path in folders && fresh(folders[path])
      ensures folders == old(folders)[path := folders[path]]
      ensures Contents() == old(Contents())[path := ArriveAll(EmptyFolder(uidValidity), loads)]
    {
      hide ArriveAll, EmptyFolder;
      var specialUse := if path in folders then folders[path].specialUse else [];
      ghost var before := Contents();
      var folder := AddFolder(path, specialUse, Some(uidValidity));
      assert folder.State() == Contents()[path];
      AddMessages(path, loads);
      ghost var after := ArriveAll(EmptyFolder(uidValidity), loads);
      ghost var loaded := before[path := after];
      assert Contents() == loaded;
      assert folder.State() == loaded[path];
      RaiseNextUid(folder, uidValidity, loads);
      assert Contents() == loaded by {
        assert forall p :: p in folders ==> folders[p].State() == loaded[p];
      }
    }

    /** The allocation a replacement ends with; the loads already moved the counter past every UID. */
    method RaiseNextUid(folder: StoredFolder, ghost uidValidity: nat, ghost loads: seq<Load>)
      requires folder.State() == ArriveAll(EmptyFolder(uidValidity), loads)
      modifies folder`nextUid
      ensures folder.State() == old(folder.State())
    {
      var highest := HighestUid(folder);
      NextUidAlreadyClear(uidValidity, loads, highest);
      folder.nextUid := Max(folder.nextUid, highest + 1);
    }

    /** Advance a folder's modification sequence and stamp one of its messages with it. */
    method BumpModseq(folder: StoredFolder, uid: nat) returns (modseq: nat)
      requires uid in folder.messages
      modifies folder`highestModseq, folder`messages
      ensures folder.State() == Stamp(old(folder.State()), uid, old(folder.messages[uid].flags))
      ensures modseq == folder.highestModseq
    {
      folder.highestModseq := folder.highestModseq + 1;
      folder.messages := folder.messages[uid := folder.messages[uid].(modseq := folder.highestModseq)];
      modseq := folder.highestModseq;
    }
  }
}
