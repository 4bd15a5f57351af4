/**
 Any number of devices autosaving one draft over a network that loses, delays and reorders.
 Requests and replies are packets; the server is the revision-checked update; a device is an
 autosaver as `DraftAutosaver.Device` shows it, whose every call and turn is proved to be the
 edit, the answer, the choice or the save that it stands for here.
 */
module DraftSync {
  import opened Wrappers
  import opened Autosave
  import opened Drafts

  /** One device: its autosaver, the request it waits for, and every revision it ever learned. */
  datatype Device = Device(local: Local, waiting: Option<nat>, told: set<nat>)

  datatype Request = Request(device: nat, base: nat, patch: Patch)

  datatype Reply = Reply(request: Request, outcome: Outcome)

  datatype Net = Net(rows: Rows, draft: nat, devices: map<nat, Device>, requests: map<nat, Request>,
                     replies: map<nat, Reply>, nextId: nat, log: seq<Request>)

  /** `Lose` is a save given up on; `Learn` is a read of the draft; a choice may use any revision learned so far. */
  datatype Event =
    | Edit(device: nat, patch: Patch)
    | Issue(device: nat)
    | Serve(id: nat)
    | Deliver(device: nat)
    | Lose(device: nat)
    | Learn(device: nat)
    | Choose(device: nat, keepLocal: bool, revision: nat)
    | Other(op: Op)

  predicate Waits(d: Device) {
    d.waiting.Some? && d.local.inFlight.Some?
  }

  predicate Possible(n: Net, e: Event) {
    match e
    case Edit(d, _) => d in n.devices
    case Issue(d) => d in n.devices && n.devices[d].waiting.None? && CanIssue(n.devices[d].local)
    case Serve(id) => id in n.requests
    case Deliver(d) => d in n.devices && Waits(n.devices[d]) && n.devices[d].waiting.value in n.replies
    case Lose(d) => d in n.devices && Waits(n.devices[d])
    case Learn(d) => d in n.devices && n.draft in n.rows.drafts
    case Choose(d, _, revision) => d in n.devices && n.devices[d].local.conflict && revision in n.devices[d].told
    case Other(op) => !(op.Update? && op.draft == n.draft)
  }

  function Answer(n: Net, r: Request): Outcome {
    match UpdateRefusal(n.rows, n.draft, r.base)
    case None => SaveSaved(if r.patch == map[] then r.base else r.base + 1)
    case Some(DraftStale(current)) => SaveConflict(current)
    case Some(_) => SaveError
  }

  /** The revision an answer names. */
  function Named(outcome: Outcome): set<nat> {
    match outcome
    case SaveSaved(revision) => {revision}
    case SaveConflict(current) => {current}
    case _ => {}
  }

  /** The device an event of its own leaves. */
  function Moved(n: Net, e: Event): Device
    requires Possible(n, e) && (e.Edit? || e.Issue? || e.Deliver? || e.Lose? || e.Learn? || e.Choose?)
  {
    var d := n.devices[e.device];
    match e
    case Edit(_, patch) => d.(local := Pushed(d.local, patch))
    case Issue(_) => d.(local := Issued(d.local), waiting := Some(n.nextId))
    case Deliver(_) =>
      var outcome := n.replies[d.waiting.value].outcome;
      Device(Answered(d.local, outcome), None, d.told + Named(outcome))
    case Lose(_) => d.(local := Answered(d.local, SaveOffline), waiting := None)
    case Learn(_) => d.(told := d.told + {n.rows.drafts[n.draft].revision})
    case Choose(_, keepLocal, revision) => d.(local := Chosen(d.local, keepLocal, revision))
  }

  function Served(n: Net, id: nat): Net
    requires id in n.requests
  {
    var r := n.requests[id];
    var accepted := UpdateRefusal(n.rows, n.draft, r.base).None? && r.patch != map[];
    n.(requests := n.requests - {id}, replies := n.replies[id := Reply(r, Answer(n, r))],
       rows := Step(n.rows, Update(n.draft, r.base, r.patch)),
       log := if accepted then n.log + [r] else n.log)
  }

  function After(n: Net, e: Event): Net
    requires Possible(n, e)
  {
    match e
    case Serve(id) => Served(n, id)
    case Other(op) => n.(rows := Step(n.rows, op))
    case Issue(d) =>
      n.(devices := n.devices[d := Moved(n, e)], nextId := n.nextId + 1,
         requests := n.requests[n.nextId := Request(d, n.devices[d].local.base, n.devices[d].local.pending.value)])
    case Deliver(d) => n.(devices := n.devices[d := Moved(n, e)], replies := n.replies - {n.devices[d].waiting.value})
    case _ => n.(devices := n.devices[e.device := Moved(n, e)])
  }

  predicate Plausible(n: Net, events: seq<Event>)
    decreases |events|
  {
    events == [] || (Possible(n, events[0]) && Plausible(After(n, events[0]), events[1..]))
  }

  function Replay(n: Net, events: seq<Event>): Net
    requires Plausible(n, events)
    decreases |events|
  {
    if events == [] then n else Replay(After(n, events[0]), events[1..])
  }

  // ---- the server's history ----

  function Folded(fields: Patch, log: seq<Request>): Patch {
    if log == [] then fields else Folded(fields, log[..|log| - 1]) + log[|log| - 1].patch
  }

  /** The accepted patches form one chain from revision `first`, and the draft is what they make of it. */
  ghost predicate Chain(n: Net, first: nat, fields: Patch) {
    && n.draft in n.rows.drafts
    && n.rows.drafts[n.draft].revision == first + |n.log|
    && n.rows.drafts[n.draft].fields == Folded(fields, n.log)
    && forall k :: 0 <= k < |n.log| ==> n.log[k].base == first + k
  }

  lemma OtherStepsKeepDraft(r: Rows, op: Op, d: nat)
    requires d in r.drafts && !(op.Update? && op.draft == d)
    ensures d in Step(r, op).drafts
    ensures Step(r, op).drafts[d].revision == r.drafts[d].revision && Step(r, op).drafts[d].fields == r.drafts[d].fields
  {
  }

  /** An accepted patch goes on from the revision the chain ends at; a refused one leaves it. */
  lemma ServedKeepsChain(n: Net, id: nat, first: nat, fields: Patch)
    requires id in n.requests && Chain(n, first, fields)
    ensures Chain(Served(n, id), first, fields)
  {
    hide AttachRefusal, LockRefusal, QueueRefusal, Unlock, Unlinked, NextOrdinal;
    var t := Served(n, id);
    if t.log != n.log {
      assert t.log[..|n.log|] == n.log;
    }
  }

  lemma StepKeepsChain(n: Net, e: Event, first: nat, fields: Patch)
    requires Possible(n, e) && Chain(n, first, fields)
    ensures Chain(After(n, e), first, fields)
  {
    hide Moved, Served, Step;
    match e {
      case Serve(id) => ServedKeepsChain(n, id, first, fields);
      case Other(op) => OtherStepsKeepDraft(n.rows, op, n.draft);
      case _ =>
    }
  }

  // ---- who was told what ----

  /** Every base in a request or in the log is a revision its device had been told. */
  predicate Told(n: Net, r: Request) {
    r.device in n.devices && r.base in n.devices[r.device].told
  }

  ghost predicate BasesTold(n: Net) {
    && (forall d :: d in n.devices ==> n.devices[d].local.base in n.devices[d].told)
    && (forall id :: id in n.requests ==> Told(n, n.requests[id]))
    && (forall k :: 0 <= k < |n.log| ==> Told(n, n.log[k]))
  }

  lemma MovedRemembers(n: Net, e: Event)
    requires Possible(n, e) && !e.Serve? && !e.Other?
    ensures n.devices[e.device].told <= Moved(n, e).told
    ensures n.devices[e.device].local.base in n.devices[e.device].told ==> Moved(n, e).local.base in Moved(n, e).told
  {
  }

  lemma DevicesRemember(n: Net, e: Event)
    requires Possible(n, e)
    ensures After(n, e).devices.Keys == n.devices.Keys
    ensures forall d :: d in n.devices ==> n.devices[d].told <= After(n, e).devices[d].told
  {
    hide Step, Moved, UpdateRefusal, Answer;
    if !e.Serve? && !e.Other? { MovedRemembers(n, e); }
  }

  lemma ToldStays(n: Net, e: Event, r: Request)
    requires Possible(n, e) && Told(n, r)
    ensures Told(After(n, e), r)
  {
    DevicesRemember(n, e);
  }

  lemma DeviceBaseTold(n: Net, e: Event, d: nat)
    requires Possible(n, e) && d in n.devices && n.devices[d].local.base in n.devices[d].told
    ensures d in After(n, e).devices && After(n, e).devices[d].local.base in After(n, e).devices[d].told
  {
    hide Step, Moved, UpdateRefusal, Answer;
    if !e.Serve? && !e.Other? { MovedRemembers(n, e); }
  }

  lemma StepKeepsTold(n: Net, e: Event)
    requires Possible(n, e) && BasesTold(n)
    ensures BasesTold(After(n, e))
  {
    hide Step, Moved, UpdateRefusal, Answer;
    DevicesRemember(n, e);
    var t := After(n, e);
    forall d | d in t.devices ensures t.devices[d].local.base in t.devices[d].told {
      DeviceBaseTold(n, e, d);
    }
    forall id | id in t.requests ensures Told(t, t.requests[id]) {
      if id in n.requests && t.requests[id] == n.requests[id] {
        ToldStays(n, e, n.requests[id]);
      } else {
        ToldStays(n, e, t.requests[id]);
      }
    }
    forall k | 0 <= k < |t.log| ensures Told(t, t.log[k]) {
      ToldStays(n, e, if k < |n.log| then n.log[k] else n.requests[e.id]);
    }
  }

  // ---- what happens to a pushed value ----

  predicate Accepted(n: Net, device: nat, patch: Patch) {
    patch == map[] || exists k :: 0 <= k < |n.log| && n.log[k].device == device && n.log[k].patch == patch
  }

  predicate FieldAccepted(n: Net, device: nat, f: Field, v: Value) {
    exists k :: 0 <= k < |n.log| && n.log[k].device == device && f in n.log[k].patch && n.log[k].patch[f] == v
  }

  /** A saved reply on its way speaks of an accepted patch of the device that waits for it. */
  ghost predicate RepliesTrue(n: Net) {
    && (forall id :: id in n.replies && n.replies[id].outcome.SaveSaved? ==>
          Accepted(n, n.replies[id].request.device, n.replies[id].request.patch))
  }

  /** A device with a save in flight waits for that very request. */
  predicate OwnWait(n: Net, d: nat)
    requires d in n.devices
  {
    var device := n.devices[d];
    && (device.waiting.Some? <==> device.local.inFlight.Some?)
    && (device.waiting.Some? ==>
          var id, own := device.waiting.value,
              Request(d, device.local.inFlight.value.base, device.local.inFlight.value.patch);
          && id < n.nextId
          && (id in n.requests ==> n.requests[id] == own) && (id in n.replies ==> n.replies[id].request == own))
  }

  ghost predicate WaitsOwn(n: Net) {
    && (forall d :: d in n.devices ==> OwnWait(n, d))
    && (forall id :: id in n.requests || id in n.replies ==> id < n.nextId)
  }

  /** Everything a device counts as acknowledged the server did accept from it. */
  ghost predicate AcknowledgedIsAccepted(n: Net) {
    forall d, f :: d in n.devices && f in n.devices[d].local.acknowledged ==>
      FieldAccepted(n, d, f, n.devices[d].local.acknowledged[f])
  }

  ghost predicate EditsOf(l: Local) {
    && Accounted(l.pushed, l.pending, l.acknowledged, l.discarded) && PendingIsNewest(l.pushed, l.pending)
    && (l.inFlight.Some? ==> l.pending.Some? && !l.conflict)
  }

  ghost predicate EditsSafe(n: Net) {
    forall d :: d in n.devices ==> EditsOf(n.devices[d].local)
  }

  lemma StepKeepsReplies(n: Net, e: Event)
    requires Possible(n, e) && RepliesTrue(n)
    ensures RepliesTrue(After(n, e))
  {
    hide Step, UpdateRefusal;
    var t := After(n, e);
    LogGrows(n, e);
    forall id | id in t.replies && t.replies[id].outcome.SaveSaved?
      ensures Accepted(t, t.replies[id].request.device, t.replies[id].request.patch)
    {
      if e.Serve? && id == e.id {
        var r := n.requests[id];
        if r.patch != map[] { assert t.log[|n.log|] == r; }
      } else {
        var r := n.replies[id].request;
        AcceptedStays(n, t, r.device, r.patch);
      }
    }
  }

  lemma StepKeepsWaits(n: Net, e: Event)
    requires Possible(n, e) && WaitsOwn(n)
    ensures WaitsOwn(After(n, e))
  {
    hide Step, UpdateRefusal;
    forall d | d in n.devices ensures OwnWait(After(n, e), d) {
      DeviceWaitsOwn(n, e, d);
    }
  }

  predicate OwnEvent(e: Event, d: nat) {
    !e.Serve? && !e.Other? && e.device == d
  }

  /** What an event of its own does to the save a device waits for. */
  lemma MovedWait(n: Net, e: Event)
    requires Possible(n, e) && !e.Serve? && !e.Other?
    ensures var was, now := n.devices[e.device], Moved(n, e);
            if e.Issue?
                then now.waiting == Some(n.nextId)
                    && now.local.inFlight == Some(Save(was.local.base, was.local.pending.value))
            else if e.Deliver? || e.Lose? then now.waiting.None? && now.local.inFlight.None?
            else now.waiting == was.waiting && now.local.inFlight == was.local.inFlight
  {
    hide MergePatch, Answer, Named, Step;
  }

  /** A device's own event leaves it waiting for its own request, or for none. */
  lemma MoverWaitsOwn(n: Net, e: Event, d: nat)
    requires Possible(n, e) && WaitsOwn(n) && OwnEvent(e, d) && d in n.devices
    ensures d in After(n, e).devices && OwnWait(After(n, e), d)
  {
    hide Moved, Answer, Step, CanIssue;
    MovedWait(n, e);
    assert OwnWait(n, d);
  }

  /** Nobody else's event touches a request or a reply a device waits for. */
  lemma BystanderWaitsOwn(n: Net, e: Event, d: nat)
    requires Possible(n, e) && WaitsOwn(n) && !OwnEvent(e, d) && d in n.devices
    ensures d in After(n, e).devices && OwnWait(After(n, e), d)
  {
    hide Step, UpdateRefusal, Moved, Answer;
    assert OwnWait(n, d);
  }

  lemma DeviceWaitsOwn(n: Net, e: Event, d: nat)
    requires Possible(n, e) && WaitsOwn(n) && d in n.devices
    ensures d in After(n, e).devices && OwnWait(After(n, e), d)
  {
    if OwnEvent(e, d) { MoverWaitsOwn(n, e, d); } else { BystanderWaitsOwn(n, e, d); }
  }

  lemma LogGrows(n: Net, e: Event)
    requires Possible(n, e)
    ensures n.log <= After(n, e).log
  {
  }

  lemma AcceptedStays(n: Net, t: Net, device: nat, patch: Patch)
    requires n.log <= t.log
    ensures Accepted(n, device, patch) ==> Accepted(t, device, patch)
    ensures forall f, v :: FieldAccepted(n, device, f, v) ==> FieldAccepted(t, device, f, v)
  {
    if Accepted(n, device, patch) && patch != map[] {
      var k :| 0 <= k < |n.log| && n.log[k].device == device && n.log[k].patch == patch;
      assert t.log[k] == n.log[k];
    }
    forall f, v | FieldAccepted(n, device, f, v) ensures FieldAccepted(t, device, f, v) {
      var k :| 0 <= k < |n.log| && n.log[k].device == device && f in n.log[k].patch && n.log[k].patch[f] == v;
      assert t.log[k] == n.log[k];
    }
  }

  /** A value newly acknowledged was in the save a saved reply answers. */
  lemma AcknowledgedComesFromReply(n: Net, e: Event, d: nat, f: Field)
    requires Possible(n, e) && d in n.devices && f in After(n, e).devices[d].local.acknowledged
    ensures var was := n.devices[d].local; var v := After(n, e).devices[d].local.acknowledged[f];
            || (f in was.acknowledged && was.acknowledged[f] == v)
            || (e == Deliver(d) && n.replies[n.devices[d].waiting.value].outcome.SaveSaved?
                && f in was.inFlight.value.patch && was.inFlight.value.patch[f] == v)
  {
    hide Step, UpdateRefusal, Answer, MergePatch;
  }

  lemma StepKeepsAcknowledged(n: Net, e: Event)
    requires Possible(n, e) && RepliesTrue(n) && WaitsOwn(n) && AcknowledgedIsAccepted(n)
    ensures AcknowledgedIsAccepted(After(n, e))
  {
    hide Step, UpdateRefusal, After, Moved, Answer;
    var t := After(n, e);
    DevicesRemember(n, e);
    LogGrows(n, e);
    forall d, f | d in t.devices && f in t.devices[d].local.acknowledged
      ensures FieldAccepted(t, d, f, t.devices[d].local.acknowledged[f])
    {
      AcceptedStays(n, t, d, map[]);
      AcknowledgedComesFromReply(n, e, d, f);
      var v := t.devices[d].local.acknowledged[f];
      if f in n.devices[d].local.acknowledged && n.devices[d].local.acknowledged[f] == v {
        assert FieldAccepted(n, d, f, v);
      } else {
        assert OwnWait(n, d);
        var r := n.replies[n.devices[d].waiting.value].request;
        assert Accepted(n, d, r.patch);
        var k :| 0 <= k < |n.log| && n.log[k].device == d && n.log[k].patch == r.patch;
        assert FieldAccepted(n, d, f, v);
      }
    }
  }

  lemma AnsweredKeepsEdits(l: Local, outcome: Outcome)
    requires EditsOf(l) && l.inFlight.Some?
    ensures EditsOf(Answered(l, outcome))
  {
    LeavingAccounts(l.pushed, l.pending.value, l.acknowledged, l.discarded);
  }

  lemma ChosenKeepsEdits(l: Local, keepLocal: bool, revision: nat)
    requires EditsOf(l) && l.conflict
    ensures EditsOf(Chosen(l, keepLocal, revision))
  {
    if l.pending.Some? { LeavingAccounts(l.pushed, l.pending.value, l.acknowledged, l.discarded); }
  }

  lemma PushedKeepsEdits(l: Local, patch: Patch)
    requires EditsOf(l)
    ensures EditsOf(Pushed(l, patch))
  {
    PushAccounts(l.pushed, l.pending, l.acknowledged, l.discarded, patch);
  }

  lemma StepKeepsEdits(n: Net, e: Event)
    requires Possible(n, e) && EditsSafe(n)
    ensures EditsSafe(After(n, e))
  {
    hide Step, UpdateRefusal, Accounted, PendingIsNewest, MergePatch, Pushed, Answered, Chosen;
    match e {
      case Edit(d, patch) => PushedKeepsEdits(n.devices[d].local, patch);
      case Deliver(d) => AnsweredKeepsEdits(n.devices[d].local, n.replies[n.devices[d].waiting.value].outcome);
      case Lose(d) => AnsweredKeepsEdits(n.devices[d].local, SaveOffline);
      case Choose(d, keepLocal, revision) => ChosenKeepsEdits(n.devices[d].local, keepLocal, revision);
      case _ =>
    }
  }

  /** Before any save: every device knows the revision it opened the draft at. */
  ghost predicate Opened(n: Net) {
    && n.draft in n.rows.drafts && n.log == [] && n.requests == map[] && n.replies == map[]
    && forall d :: d in n.devices ==>
         && n.devices[d].waiting.None? && n.devices[d].local.inFlight.None?
         && n.devices[d].local.base in n.devices[d].told && n.devices[d].local.pending.None?
         && n.devices[d].local.pushed == map[] && n.devices[d].local.acknowledged == map[]
  }

  ghost predicate Good(n: Net, first: nat, fields: Patch) {
    Chain(n, first, fields) && BasesTold(n) && RepliesTrue(n) && WaitsOwn(n) && AcknowledgedIsAccepted(n)
        && EditsSafe(n)
  }

  lemma {:induction false} ReplayKeepsGood(n: Net, events: seq<Event>, first: nat, fields: Patch)
    requires Plausible(n, events) && Good(n, first, fields)
    ensures Good(Replay(n, events), first, fields)
    decreases |events|
  {
    if events != [] {
      var e := events[0];
      StepKeepsChain(n, e, first, fields);
      StepKeepsTold(n, e);
      StepKeepsReplies(n, e);
      StepKeepsWaits(n, e);
      StepKeepsAcknowledged(n, e);
      StepKeepsEdits(n, e);
      ReplayKeepsGood(After(n, e), events[1..], first, fields);
    }
  }

  /**
   However requests and replies are lost, delayed and reordered: every accepted patch was based
   on exactly the revision before it, which its author had been told; and the newest value of
   every field pushed anywhere is still pending on its device, was accepted by the server from
   that device, or was discarded there by choosing the server's copy.
   */
  lemma NoEditIsLost(n: Net, events: seq<Event>)
    requires Plausible(n, events) && Opened(n)
    ensures var t := Replay(n, events); var first := n.rows.drafts[n.draft].revision;
            && t.draft in t.rows.drafts
            && t.rows.drafts[t.draft].revision == first + |t.log|
            && t.rows.drafts[t.draft].fields == Folded(n.rows.drafts[n.draft].fields, t.log)
            && (forall k :: 0 <= k < |t.log| ==> t.log[k].base == first + k && Told(t, t.log[k]))
            && (forall d, f :: d in t.devices && f in t.devices[d].local.pushed ==>
                  var device := t.devices[d].local; var v := device.pushed[f];
                  || (device.pending.Some? && f in device.pending.value && device.pending.value[f] == v)
                  || FieldAccepted(t, d, f, v)
                  || (f in device.discarded && device.discarded[f] == v))
  {
    var first, fields := n.rows.drafts[n.draft].revision, n.rows.drafts[n.draft].fields;
    ReplayKeepsGood(n, events, first, fields);
    var t := Replay(n, events);
    forall d, f | d in t.devices && f in t.devices[d].local.pushed
      ensures var device := t.devices[d].local; var v := device.pushed[f];
              || (device.pending.Some? && f in device.pending.value && device.pending.value[f] == v)
              || FieldAccepted(t, d, f, v)
              || (f in device.discarded && device.discarded[f] == v)
    {
      assert EditsOf(t.devices[d].local);
    }
  }
}
