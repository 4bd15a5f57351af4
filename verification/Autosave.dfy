/**
 The client half of draft autosave: pending edits, the debounce timer, one save in flight and
 the choice after a conflict. Every asynchronous turn of the original is one method: the public
 calls, the timer, the answer of a save, and each resumption of an awaiting frame.
 */
module Autosave {
  import opened Wrappers

  datatype Field = Identity | Recipients | Subject | Markdown

  /** Texts compare by content; an object is the same edit only if it is the same object. */
  datatype Value = Null | Text(text: string) | Object(id: nat)

  type Patch = map<Field, Value>

  datatype State = Saved | Unsaved | Saving | Conflict | Offline | Failed

  datatype Outcome = SaveSaved(revision: nat) | SaveConflict(currentRevision: nat) | SaveOffline | SaveError

  /** Where a suspended save run goes on: behind the outcome switch, or at its very end. */
  datatype Frame = InSwitch | InTail

  /** The save slot: free, waiting for an answer, or with the frames that still have to resume. */
  datatype Control =
    | NoFlight
    | Awaiting(patch: Patch, base: nat, frames: seq<Frame>)
    | Returning(frames: seq<Frame>)

  datatype Save = Save(base: nat, patch: Patch)

  /** What decides the next turn: the state shown, the slot, the debounce and the wish to flush. */
  datatype Turn = Turn(state: State, control: Control, timer: bool, flushWanted: bool)

  function MergePatch(current: Option<Patch>, patch: Patch): Patch {
    match current
    case None => patch
    case Some(p) => p + patch
  }

  /** A field keeps the newest value pushed for it. */
  lemma MergeKeepsNewest(current: Option<Patch>, patch: Patch, f: Field)
    ensures f in patch ==> f in MergePatch(current, patch) && MergePatch(current, patch)[f] == patch[f]
    ensures f !in patch && current.Some? && f in current.value ==>
              f in MergePatch(current, patch) && MergePatch(current, patch)[f] == current.value[f]
    ensures f in MergePatch(current, patch) <==> f in patch || (current.Some? && f in current.value)
  {
  }

  /** The comparison of the original: as many fields, and every field of one the same in the other. */
  predicate ShallowEqual(left: Patch, right: Patch) {
    |left| == |right| && forall f :: f in left ==> f in right && left[f] == right[f]
  }

  /** Comparing one way with equal counts is comparing both ways. */
  lemma ShallowEqualIsExact(left: Patch, right: Patch)
    ensures ShallowEqual(left, right) <==> left == right
  {
    if ShallowEqual(left, right) {
      assert left.Keys <= right.Keys;
      var extra := right.Keys - left.Keys;
      assert right.Keys == left.Keys + extra && |right.Keys| == |left.Keys| + |extra|;
      assert extra == {};
    }
  }

  /** Every field pushed is pending, acknowledged or discarded with its newest value. */
  ghost predicate Accounted(pushed: Patch, pending: Option<Patch>, acknowledged: Patch, discarded: Patch) {
    forall f :: f in pushed ==>
      || (pending.Some? && f in pending.value && pending.value[f] == pushed[f])
      || (f in acknowledged && acknowledged[f] == pushed[f])
      || (f in discarded && discarded[f] == pushed[f])
  }

  /** What is pending was pushed, and nothing pending is older than the newest push. */
  ghost predicate PendingIsNewest(pushed: Patch, pending: Option<Patch>) {
    pending.Some? ==> forall f :: f in pending.value ==> f in pushed && pushed[f] == pending.value[f]
  }

  lemma PushAccounts(pushed: Patch, pending: Option<Patch>, acknowledged: Patch, discarded: Patch, patch: Patch)
    requires Accounted(pushed, pending, acknowledged, discarded) && PendingIsNewest(pushed, pending)
    ensures Accounted(pushed + patch, Some(MergePatch(pending, patch)), acknowledged, discarded)
    ensures PendingIsNewest(pushed + patch, Some(MergePatch(pending, patch)))
  {
  }

  lemma LeavingAccounts(pushed: Patch, pending: Patch, acknowledged: Patch, discarded: Patch)
    requires Accounted(pushed, Some(pending), acknowledged, discarded) && PendingIsNewest(pushed, Some(pending))
    ensures Accounted(pushed, None, acknowledged + pending, discarded)
    ensures Accounted(pushed, None, acknowledged, discarded + pending)
  {
  }

  // ---- what the server and other devices can tell of one autosaver ----

  datatype Local = Local(base: nat, pending: Option<Patch>, inFlight: Option<Save>, conflict: bool,
                         pushed: Patch, acknowledged: Patch, discarded: Patch)

  function Pushed(l: Local, patch: Patch): Local {
    l.(pending := Some(MergePatch(l.pending, patch)), pushed := l.pushed + patch)
  }

  predicate CanIssue(l: Local) {
    l.inFlight.None? && l.pending.Some? && !l.conflict
  }

  /** The next save carries all pending edits at the base revision. */
  function Issued(l: Local): Local
    requires CanIssue(l)
  {
    l.(inFlight := Some(Save(l.base, l.pending.value)))
  }

  function Answered(l: Local, outcome: Outcome): Local
    requires l.inFlight.Some?
  {
    match outcome
    case SaveSaved(revision) =>
      if l.pending == Some(l.inFlight.value.patch)
      then l.(inFlight := None, base := revision, pending := None,
              acknowledged := l.acknowledged + l.inFlight.value.patch)
      else l.(inFlight := None, base := revision)
    case SaveConflict(_) => l.(inFlight := None, conflict := true)
    case _ => l.(inFlight := None)
  }

  /** The choice after a conflict, at the revision the editor passes. */
  function Chosen(l: Local, keepLocal: bool, revision: nat): Local {
    if keepLocal || l.pending.None? then l.(conflict := false, base := revision)
    else l.(conflict := false, base := revision, pending := None, discarded := l.discarded + l.pending.value)
  }

  /** The same device, or the same with its next save issued. */
  ghost predicate MayIssue(l: Local, t: Local) {
    t == l || (CanIssue(l) && t == Issued(l))
  }

  /** The state a failed answer leaves the editor with. */
  function Shown(outcome: Outcome): State
    requires !outcome.SaveSaved?
  {
    match outcome
    case SaveConflict(_) => Conflict
    case SaveOffline => Offline
    case SaveError => Failed
  }

  function FramesOf(c: Control): seq<Frame> {
    if c.NoFlight? then [] else c.frames
  }

  class DraftAutosaver {
    var currentState: State
    var pending: Option<Patch>
    var revision: nat
    var timer: bool
    var flushWanted: bool
    var disposed: bool
    var control: Control
    /** Every save issued, in order, and how many of them have no answer yet. */
    ghost var saves: seq<Save>
    ghost var unanswered: nat
    /** Every state the editor was told, in order. */
    ghost var notices: seq<State>
    /** The newest value pushed, acknowledged and discarded, field by field. */
    ghost var pushed: Patch
    ghost var acknowledged: Patch
    ghost var discarded: Patch

    constructor (revision: nat)
      ensures Valid() && this.revision == revision && currentState == Saved && !disposed && pushed == map[]
              && saves == []
      ensures control == NoFlight && pending == None && !timer && !flushWanted
    {
      currentState, pending, timer, flushWanted, disposed, control := Saved, None, false, false, false, NoFlight;
      this.revision := revision;
      saves, unanswered, notices := [], 0, [];
      pushed, acknowledged, discarded := map[], map[], map[];
    }

    /** The state is saved exactly when nothing is pending. */
    ghost predicate SavedExactly()
      reads this`currentState, this`pending
    {
      currentState == Saved <==> pending.None?
    }

    /** At most one save is in flight; while the autosaver lives, `saving` says exactly that. */
    ghost predicate OneInFlight()
      reads this`unanswered, this`control, this`pending, this`disposed, this`currentState
    {
      && unanswered == (if control.Awaiting? then 1 else 0)
      && (control.Awaiting? ==> pending.Some?)
      && (!disposed ==> (currentState == Saving <==> control.Awaiting?))
    }

    ghost predicate EditsAccounted()
      reads this`pushed, this`pending, this`acknowledged, this`discarded
    {
      Accounted(pushed, pending, acknowledged, discarded) && PendingIsNewest(pushed, pending)
    }

    /** The editor is told every change once, and the last notice is the state. */
    ghost predicate NoticesFollow()
      reads this`notices, this`currentState
    {
      && (forall k :: 0 < k < |notices| ==> notices[k] != notices[k - 1])
      && (notices != [] ==> notices[0] != Saved)
      && currentState == (if notices == [] then Saved else notices[|notices| - 1])
    }

    ghost predicate Valid()
      reads this
    {
      SavedExactly() && OneInFlight() && EditsAccounted() && NoticesFollow()
    }

    /** What others can tell of this autosaver. */
    ghost function Device(): Local
      reads this
    {
      Local(revision, pending, if control.Awaiting? then Some(Save(control.base, control.patch)) else None,
            currentState == Conflict, pushed, acknowledged, discarded)
    }

    ghost function Now(): Turn
      reads this`currentState, this`control, this`timer, this`flushWanted
    {
      Turn(currentState, control, timer, flushWanted)
    }

    /** A frame still has to look at a wish to flush that it will act on. */
    ghost predicate Promises()
      reads this
    {
      flushWanted && pending.Some? && currentState != Conflict && InSwitch in FramesOf(control)
    }

    /** The frame that resumes next acts on the wish to flush. */
    ghost predicate ResumesToSave()
      reads this
    {
      control.Returning? && control.frames != [] && control.frames[|control.frames| - 1] == InSwitch && Promises()
    }

    /** Unsaved edits are on their way: a timer runs, or a frame that will look at the wish to flush. */
    predicate Covered()
      reads this
    {
      !disposed && currentState == Unsaved ==>
          timer || (control.Returning? && flushWanted && InSwitch in control.frames)
    }

    // ---- internal steps ----

    method SetState(state: State)
      requires NoticesFollow()
      modifies this`currentState, this`notices
      ensures NoticesFollow() && currentState == state
      ensures notices == old(notices) + if state == old(currentState) then [] else [state]
    {
      if state != currentState {
        currentState := state;
        notices := notices + [state];
      }
    }

    method SetStateIfLive(state: State)
      requires NoticesFollow()
      modifies this`currentState, this`notices
      ensures NoticesFollow() && currentState == if disposed then old(currentState) else state
      ensures notices == old(notices) + if disposed || state == old(currentState) then [] else [state]
    {
      if !disposed { SetState(state); }
    }

    /** Enter a save run under the given outer frames, up to its first suspension. */
    method RunSave(frames: seq<Frame>)
      requires SavedExactly() && EditsAccounted() && NoticesFollow()
      requires !control.Awaiting?
      requires unanswered == 0 && (!disposed ==> currentState != Saving || pending.Some?)
      modifies this`currentState, this`notices, this`control, this`saves, this`unanswered
      ensures MayIssue(old(Device()), Device())
      ensures Valid() && !control.NoFlight? && old(notices) <= notices
      ensures if old(currentState) != Conflict && pending.Some?
              then Now() == Turn(if disposed then old(currentState) else Saving,
                                 Awaiting(pending.value, revision, frames), timer, flushWanted)
              else Now() == Turn(if disposed || pending.Some? then old(currentState)
                                 else if old(currentState) == Conflict then Conflict else Saved,
                                 Returning(frames), timer, flushWanted)
      ensures saves == old(saves) + if old(currentState) != Conflict && pending.Some?
                                    then [Save(revision, pending.value)] else []
    {
      if currentState == Conflict {
        control := Returning(frames);
        return;
      }
      if pending.None? {
        SetStateIfLive(Saved);
        control := Returning(frames);
        return;
      }
      SetStateIfLive(Saving);
      saves := saves + [Save(revision, pending.value)];
      unanswered := unanswered + 1;
      control := Awaiting(pending.value, revision, frames);
    }

    /** The end of a save run: a flush wanted meanwhile runs once more. */
    method Tail(frames: seq<Frame>)
      requires Valid() && unanswered == 0 && !control.Awaiting?
      modifies this`currentState, this`notices, this`control, this`saves, this`unanswered, this`flushWanted
      ensures MayIssue(old(Device()), Device())
      ensures Valid() && !control.NoFlight? && old(notices) <= notices
      ensures var again := old(flushWanted && currentState != Conflict && pending.Some?);
              && saves == old(saves) + (if again then [Save(revision, pending.value)] else [])
              && Now() == Turn(if again && !disposed then Saving else old(currentState),
                               if again then Awaiting(pending.value, revision, frames + [InTail])
                               else Returning(if old(flushWanted) && pending.Some? then frames + [InTail] else frames),
                               timer, false)
    {
      if flushWanted {
        flushWanted := false;
        if pending.Some? {
          RunSave(frames + [InTail]);
          return;
        }
      }
      control := Returning(frames);
    }

    method Flushing()
      requires Valid() && !disposed
      modifies this
      ensures Valid() && disposed == old(disposed) && revision == old(revision) && pending == old(pending)
              && pushed == old(pushed)
      ensures MayIssue(old(Device()), Device())
      ensures acknowledged == old(acknowledged) && discarded == old(discarded)
      ensures old(notices) <= notices
      ensures if old(control).NoFlight? then
                var saving := old(currentState) != Conflict && pending.Some?;
                && Now() == Turn(if saving then Saving else old(currentState),
                                 if saving then Awaiting(pending.value, revision, []) else Returning([]),
                                 false, old(flushWanted))
                && saves == old(saves) + (if saving then [Save(revision, pending.value)] else [])
              else Now() == Turn(old(currentState), old(control), old(timer), true) && saves == old(saves)
    {
      if !control.NoFlight? {
        flushWanted := true;
        return;
      }
      timer := false;
      RunSave([]);
    }

    // ---- the calls of the editor ----

    /** Report one editor change; a disposed autosaver throws. */
    method Push(patch: Patch) returns (ok: bool)
      requires Valid()
      modifies this`pending, this`pushed, this`timer, this`currentState, this`notices
      ensures Valid() && ok == !old(disposed)
      ensures !ok ==> unchanged(this)
      ensures ok ==> pending == Some(MergePatch(old(pending), patch)) && pushed == old(pushed) + patch
      ensures ok ==> Covered()
      ensures ok ==> Device() == Pushed(old(Device()), patch)
      ensures ok ==>
        Now() == if old(currentState) == Conflict then old(Now())
                 else Turn(if old(currentState) == Saving then Saving
                     else Unsaved, old(control), true, old(flushWanted))
    {
      hide Accounted, PendingIsNewest, MergePatch, NoticesFollow;
      if disposed { return false; }
      PushAccounts(pushed, pending, acknowledged, discarded, patch);
      pending := Some(MergePatch(pending, patch));
      pushed := pushed + patch;
      if currentState == Conflict { return true; }
      if currentState != Saving { SetState(Unsaved); }
      timer := true;
      return true;
    }

    /** Save now, or right after the save in flight. */
    method Flush() returns (ok: bool)
      requires Valid()
      modifies this
      ensures Valid() && ok == !old(disposed)
      ensures !ok ==> unchanged(this)
      ensures old(Covered()) ==> Covered()
      ensures MayIssue(old(Device()), Device())
      ensures old(currentState) == Conflict ==> currentState == Conflict && saves == old(saves)
      ensures pending == old(pending) && pushed == old(pushed) && disposed == old(disposed) && revision == old(revision)
      ensures old(notices) <= notices
      ensures ok ==>
              if old(control).NoFlight? then
                var saving := old(currentState) != Conflict && pending.Some?;
                && Now() == Turn(if saving then Saving else old(currentState),
                                 if saving then Awaiting(pending.value, revision, []) else Returning([]),
                                 false, old(flushWanted))
                && saves == old(saves) + (if saving then [Save(revision, pending.value)] else [])
              else Now() == Turn(old(currentState), old(control), old(timer), true) && saves == old(saves)
    {
      if disposed { return false; }
      Flushing();
      return true;
    }

    /** The debounce ends; timers fire only when no frame is waiting to resume. */
    method TimerFires()
      requires Valid() && timer && !disposed && !control.Returning?
      modifies this
      ensures Valid() && Covered()
      ensures MayIssue(old(Device()), Device())
      ensures old(currentState) == Conflict ==> currentState == Conflict && saves == old(saves)
      ensures pending == old(pending) && pushed == old(pushed) && revision == old(revision) && disposed == old(disposed)
      ensures acknowledged == old(acknowledged) && discarded == old(discarded)
      ensures old(notices) <= notices
      ensures if old(control).NoFlight? then
                var saving := old(currentState) != Conflict && pending.Some?;
                && Now() == Turn(if saving then Saving else old(currentState),
                                 if saving then Awaiting(pending.value, revision, []) else Returning([]),
                                 false, old(flushWanted))
                && saves == old(saves) + (if saving then [Save(revision, pending.value)] else [])
              else Now() == Turn(old(currentState), old(control), false, true) && saves == old(saves)
    {
      timer := false;
      Flushing();
    }

    /** Retry after `offline` or `error`. What it leaves unsaved is on its way exactly under the stated condition. */
    method Retry() returns (ok: bool)
      requires Valid()
      modifies this
      ensures Valid() && ok == !old(disposed)
      ensures !ok ==> unchanged(this)
      ensures MayIssue(old(Device()), Device())
      ensures pending == old(pending) && pushed == old(pushed) && disposed == old(disposed)
      ensures old(currentState) == Conflict ==> currentState == Conflict && saves == old(saves)
      ensures ok && old(currentState) in {Offline, Failed} ==>
                (Covered() <==> old(timer) || old(control).NoFlight? || InSwitch in FramesOf(old(control)))
      ensures ok && old(currentState) !in {Offline, Failed} ==> unchanged(this)
      ensures ok && old(currentState) in {Offline, Failed} ==>
        && revision == old(revision) && acknowledged == old(acknowledged) && discarded == old(discarded)
        && if old(control).NoFlight?
           then Now() == Turn(Saving, Awaiting(pending.value, revision, []), false, old(flushWanted))
                && saves == old(saves) + [Save(revision, pending.value)]
           else Now() == Turn(Unsaved, old(control), old(timer), true) && saves == old(saves)
    {
      if disposed { return false; }
      if currentState != Offline && currentState != Failed { return true; }
      // Only a saved state has nothing pending, so there is always something to retry.
      assert pending.Some?;
      SetState(Unsaved);
      Flushing();
      return true;
    }

    /** Resolve a conflict with the server copy: local edits are discarded. */
    method AcceptServerCopy(serverRevision: nat) returns (ok: bool)
      requires Valid()
      modifies this
      ensures Valid() && ok == !old(disposed)
      ensures ok && old(currentState) == Conflict ==>
                && pending.None? && currentState == Saved && revision == serverRevision && saves == old(saves)
                && discarded == (if old(pending).Some? then old(discarded) + old(pending).value else old(discarded))
      ensures !ok || old(currentState) != Conflict ==> unchanged(this)
      ensures ok && old(currentState) == Conflict ==>
        && Now() == Turn(Saved, old(control), old(timer), old(flushWanted))
        && acknowledged == old(acknowledged) && pushed == old(pushed)
      ensures ok && old(currentState) == Conflict ==> Device() == Chosen(old(Device()), false, serverRevision)
    {
      if disposed { return false; }
      if currentState != Conflict { return true; }
      revision := serverRevision;
      if pending.Some? {
        LeavingAccounts(pushed, pending.value, acknowledged, discarded);
        discarded := discarded + pending.value;
      }
      pending := None;
      SetState(Saved);
      return true;
    }

    /** Resolve a conflict with the local copy, rebased onto the server's revision. */
    method KeepLocalCopy(serverRevision: nat) returns (ok: bool)
      requires Valid()
      modifies this
      ensures Valid() && ok == !old(disposed)
      ensures pending == old(pending) && pushed == old(pushed) && disposed == old(disposed)
      ensures !ok || old(currentState) != Conflict ==> unchanged(this)
      ensures ok && old(currentState) == Conflict ==> MayIssue(Chosen(old(Device()), true, serverRevision), Device())
      ensures ok && old(currentState) == Conflict ==> revision == serverRevision
      ensures ok && old(currentState) == Conflict ==>
        && acknowledged == old(acknowledged) && discarded == old(discarded)
        && if old(control).NoFlight?
           then Now() == Turn(Saving, Awaiting(pending.value, serverRevision, []), false, old(flushWanted))
                && saves == old(saves) + [Save(serverRevision, pending.value)]
           else Now() == Turn(Unsaved, old(control), old(timer), true) && saves == old(saves)
      ensures ok && old(currentState) == Conflict ==>
                (Covered() <==> old(timer) || old(control).NoFlight? || InSwitch in FramesOf(old(control)))
    {
      if disposed { return false; }
      if currentState != Conflict { return true; }
      revision := serverRevision;
      SetState(Unsaved);
      Flushing();
      return true;
    }

    /** Stop the timer; pending edits stay. */
    method Dispose()
      requires Valid()
      modifies this`disposed, this`timer
      ensures Valid() && disposed && !timer
      ensures Device() == old(Device())
    {
      disposed, timer := true, false;
    }

    // ---- the asynchronous turns ----

    /** What an answer leaves of the edits, the base revision and the state. */
    method TakeAnswer(patch: Patch, outcome: Outcome)
      requires SavedExactly() && EditsAccounted() && NoticesFollow() && pending.Some?
      modifies this`revision, this`pending, this`acknowledged, this`currentState, this`notices
      ensures SavedExactly() && EditsAccounted() && NoticesFollow()
      ensures revision == if outcome.SaveSaved? then outcome.revision else old(revision)
      ensures if outcome.SaveSaved? && old(pending) == Some(patch)
              then pending.None? && acknowledged == old(acknowledged) + patch
              else pending == old(pending) && acknowledged == old(acknowledged)
      ensures currentState == match outcome
                              case SaveSaved(_) => if pending.None? then Saved else Unsaved
                              case SaveConflict(_) => Conflict
                              case SaveOffline => Offline
                              case SaveError => Failed
    {
      hide Accounted, ShallowEqual;
      if outcome.SaveSaved? {
        revision := outcome.revision;
        ShallowEqualIsExact(pending.value, patch);
        if ShallowEqual(pending.value, patch) {
          LeavingAccounts(pushed, pending.value, acknowledged, discarded);
          acknowledged := acknowledged + patch;
          pending := None;
        }
      }
      match outcome {
        case SaveSaved(_) => SetState(if pending.None? then Saved else Unsaved);
        case SaveConflict(_) => SetState(Conflict);
        case SaveOffline => SetState(Offline);
        case SaveError => SetState(Failed);
      }
    }

    /** The answer of the save in flight; edits that arrived meanwhile are saved at once. */
    method Settle(outcome: Outcome)
      requires Valid() && control.Awaiting?
      modifies this
      ensures Valid() && (!old(disposed) ==> Covered()) && disposed == old(disposed)
      ensures !old(disposed) ==> MayIssue(Answered(old(Device()), outcome), Device())
      ensures old(disposed) ==> Device() == old(Device()).(inFlight := None)
      ensures old(disposed) ==> pending == old(pending) && revision == old(revision) && saves == old(saves)
      ensures old(disposed) ==>
        Now() == Turn(old(currentState), Returning(old(control).frames), old(timer), old(flushWanted))
      ensures pushed == old(pushed) && discarded == old(discarded)
      ensures !old(disposed) && outcome.SaveSaved? ==>
        && revision == outcome.revision
        && if old(pending) == Some(old(control).patch)
           then && pending.None? && acknowledged == old(acknowledged) + old(control).patch && saves == old(saves)
                && Now() == Turn(Saved, Returning(old(control).frames), old(timer), false)
           else && pending == old(pending) && acknowledged == old(acknowledged)
                && saves == old(saves) + [Save(revision, pending.value)]
                && Now() == Turn(Saving, Awaiting(pending.value, revision, old(control).frames + [InSwitch]),
                                 old(timer), old(flushWanted))
      ensures !old(disposed) && !outcome.SaveSaved? ==>
        && revision == old(revision) && pending == old(pending) && acknowledged == old(acknowledged)
        && var again := old(flushWanted) && !outcome.SaveConflict?;
        && saves == old(saves) + (if again then [Save(revision, pending.value)] else [])
        && Now() == Turn(if again then Saving else Shown(outcome),
                         if again then Awaiting(pending.value, revision, old(control).frames + [InTail])
                         else Returning(if old(flushWanted) then old(control).frames + [InTail]
                             else old(control).frames),
                         old(timer), false)
    {
      hide Accounted, PendingIsNewest, NoticesFollow, EditsAccounted;
      var patch, frames := control.patch, control.frames;
      ghost var was := Device();
      unanswered := unanswered - 1;
      control := Returning(frames);
      if disposed { return; }
      TakeAnswer(patch, outcome);
      assert Device() == Answered(was, outcome);
      hide MayIssue, Device, Answered;
      if outcome.SaveSaved? && pending.Some? {
        RunSave(frames + [InSwitch]);
      } else {
        Tail(frames);
      }
    }

    /** The innermost waiting frame resumes; the outermost one frees the slot. */
    method Resume()
      requires Valid() && control.Returning?
      modifies this`control, this`currentState, this`notices, this`saves, this`unanswered, this`flushWanted
      ensures Valid() && pending == old(pending) && pushed == old(pushed) && disposed == old(disposed)
      ensures MayIssue(old(Device()), Device())
      ensures old(Covered()) ==> Covered()
      ensures saves == old(saves) + if old(ResumesToSave()) then [Save(revision, pending.value)] else []
      ensures if old(ResumesToSave()) then !flushWanted else (Promises() <==> old(Promises()))
      ensures var frames := old(control).frames;
              if frames == [] then Now() == Turn(old(currentState), NoFlight, timer, old(flushWanted))
              else if frames[|frames| - 1] == InTail
              then Now() == Turn(old(currentState), Returning(frames[..|frames| - 1]), timer, old(flushWanted))
              else Now() == Turn(if old(ResumesToSave()) && !disposed then Saving else old(currentState),
                                 if old(ResumesToSave())
                                 then Awaiting(pending.value, revision, frames[..|frames| - 1] + [InTail])
                                 else if old(flushWanted) && pending.Some?
                                 then Returning(frames[..|frames| - 1] + [InTail])
                                 else Returning(frames[..|frames| - 1]),
                                 timer, false)
    {
      var frames := control.frames;
      if frames == [] {
        control := NoFlight;
        return;
      }
      var outer := frames[..|frames| - 1];
      assert frames == outer + [frames[|frames| - 1]];
      if frames[|frames| - 1] == InTail {
        control := Returning(outer);
        return;
      }
      Tail(outer);
    }
  }

  /** A push into a free autosaver is saved by its debounce, and acknowledged by the answer. */
  method PushIsSaved(a: DraftAutosaver, patch: Patch, answered: nat)
    requires a.Valid() && !a.disposed && a.control == NoFlight && a.currentState != Conflict && !a.flushWanted
    modifies a
    ensures a.Valid() && a.Now() == Turn(Saved, NoFlight, false, false)
    ensures a.pending.None? && a.revision == answered && a.pushed == old(a.pushed) + patch
    ensures var merged := MergePatch(old(a.pending), patch);
            a.saves == old(a.saves) + [Save(old(a.revision), merged)] && a.acknowledged == old(a.acknowledged) + merged
  {
    hide Accounted, PendingIsNewest, MergePatch, DraftAutosaver.NoticesFollow;
    var _ := a.Push(patch);
    a.TimerFires();
    a.Settle(SaveSaved(answered));
    a.Resume();
  }

  /**
   `unsaved` does not always mean a save is on its way: a retry between the end of a save run
   and the release of its slot leaves edits that nothing will save until the next edit.
   */
  method RetryInTheGapStrands(revision: nat, patch: Patch) returns (a: DraftAutosaver)
    ensures fresh(a) && a.Valid() && !a.disposed && a.currentState == Unsaved && a.pending == Some(patch)
    ensures !a.timer && a.control == NoFlight
  {
    a := new DraftAutosaver(revision);
    var _ := a.Push(patch);
    assert MergePatch(None, patch) == patch;
    var _ := a.Flush();
    a.Settle(SaveOffline);
    var _ := a.Retry();
    a.Resume();
  }

  /**
   After `dispose` every frame still winds down: exactly one more save goes out if a frame was
   left to act on a wanted flush, and none otherwise, whatever the answers are.
   */
  method WindDown(a: DraftAutosaver, answer: Outcome)
    requires a.Valid() && a.disposed
    modifies a
    ensures a.Valid() && a.control == NoFlight && a.disposed
    ensures a.revision == old(a.revision) && a.pending == old(a.pending)
    ensures a.saves == old(a.saves) + if old(a.Promises()) then [Save(a.revision, a.pending.value)] else []
  {
    while !a.control.NoFlight?
      invariant a.Valid() && a.disposed && a.revision == old(a.revision) && a.pending == old(a.pending)
      invariant old(a.Promises()) ==> a.pending.Some?
      invariant if a.saves == old(a.saves) then (a.Promises() <==> old(a.Promises()))
                else && !a.flushWanted && old(a.Promises())
                     && a.saves == old(a.saves) + [Save(a.revision, a.pending.value)]
      decreases a.flushWanted, |FramesOf(a.control)|, a.control.Awaiting?, !a.control.NoFlight?
    {
      if a.control.Awaiting? { a.Settle(answer); } else { a.Resume(); }
    }
  }

  /** Edits that arrive during a save are saved by a second run inside the first. */
  method SaveWithinSave(revision: nat, patch: Patch, more: Patch) returns (a: DraftAutosaver)
    requires patch + more != patch
    ensures fresh(a) && a.Valid() && !a.disposed && |a.saves| == 2
    ensures a.control.Awaiting? && a.control.frames == [InSwitch]
  {
    hide Accounted, PendingIsNewest, DraftAutosaver.NoticesFollow;
    a := new DraftAutosaver(revision);
    var _ := a.Push(patch);
    assert MergePatch(None, patch) == patch;
    var _ := a.Flush();
    var _ := a.Push(more);
    a.Settle(SaveSaved(revision + 1));
  }

  /** Such a frame can be left: a flush wanted before `dispose` is still acted on after it. */
  method DisposeLeavesOneSave(revision: nat, patch: Patch, more: Patch) returns (a: DraftAutosaver)
    requires patch + more != patch
    ensures fresh(a) && a.Valid() && a.disposed && |a.saves| == 3
  {
    hide Accounted, PendingIsNewest, DraftAutosaver.NoticesFollow;
    a := SaveWithinSave(revision, patch, more);
    var _ := a.Flush();
    a.Dispose();
    WindDown(a, SaveOffline);
  }
}
