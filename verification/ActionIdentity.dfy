/** Which message a claimed write can reach: the one frozen at submit, unless a generation reset slipped in. */
module ActionIdentity {
  import opened Wrappers
  import opened ActionLedger
  import opened MailboxStore
  import opened ActionProtocol
  import opened ActionTheorems

  predicate SameMessage(m: Message, frozen: Message) {
    m.bytes == frozen.bytes && m.internalDate == frozen.internalDate
  }

  /** UIDs stay below the next one in every folder of the server. */
  ghost predicate Tidy(mailbox: map<string, FolderState>) {
    forall path :: path in mailbox ==> FreshFolder(mailbox[path])
  }

  /** While the generation stands, the UID holds the frozen message or none, and is never allocated again. */
  predicate Names(mailbox: map<string, FolderState>, path: string, target: Target, frozen: Message) {
    path in mailbox ==>
      var f := mailbox[path];
      && target.uidValidity <= f.uidValidity
      && (f.uidValidity == target.uidValidity ==>
            target.uid < f.nextUid && (target.uid in f.messages ==> SameMessage(f.messages[target.uid], frozen)))
  }

  function Generation(s: Sys, path: string): nat {
    if path in s.world.mailbox then s.world.mailbox[path].uidValidity else 0
  }

  /** A run that checked an item holds its path, and its generation when it claimed it. */
  predicate AimedStage(s: Sys, stage: Stage) {
    match stage
    case Fresh(_, i, path, _) => i < |s.world.ledger.items| && TargetPath(s.world, i) == Some(path)
        && path in s.world.mailbox
    case Armed(_, i, path, generation) =>
      && i < |s.world.ledger.items| && TargetPath(s.world, i) == Some(path) && path in s.world.mailbox
      && generation == s.world.ledger.items[i].target.uidValidity
    case _ => true
  }

  ghost predicate Aimed(s: Sys) {
    forall r :: r in s.runs ==> AimedStage(s, s.runs[r])
  }

  /** One change of one folder, as far as identity is concerned. */
  ghost predicate FolderKeepsIdentity(f: FolderState, g: FolderState, arrived: Option<Message>) {
    && f.uidValidity == g.uidValidity && f.nextUid <= g.nextUid
    && (forall u :: u in g.messages && u in f.messages ==> SameMessage(g.messages[u], f.messages[u]))
    && (forall u :: u in g.messages && u !in f.messages ==>
          f.nextUid <= u < g.nextUid && arrived.Some? && SameMessage(g.messages[u], arrived.value))
  }

  lemma ChangeKeepsIdentity(m: map<string, FolderState>, change: Change, path: string)
    requires path in m && Tidy(m) && !(change.Resets? && change.path == path)
    ensures path in ChangeMailbox(m, change)
    ensures exists arrived :: FolderKeepsIdentity(m[path], ChangeMailbox(m, change)[path], arrived)
  {
    assert FreshFolder(m[path]);
    var g := ChangeMailbox(m, change)[path];
    if change.Arrives? {
      assert FolderKeepsIdentity(m[path], g, Some(Message(change.bytes, change.flags, change.internalDate, 0)));
    } else {
      assert FolderKeepsIdentity(m[path], g, None);
    }
  }

  lemma PerformKeepsIdentity(session: Session, m: map<string, FolderState>, at: string, uid: nat, op: RemoteOp,
                             path: string)
    requires path in m && Tidy(m)
    ensures path in Perform(session, m, at, uid, op)
    ensures FolderKeepsIdentity(m[path], Perform(session, m, at, uid, op)[path],
                                if at in m && uid in m[at].messages then Some(m[at].messages[uid]) else None)
  {
    assert FreshFolder(m[path]);
  }

  lemma ChangeKeepsTidy(m: map<string, FolderState>, change: Change)
    requires Tidy(m) && (change.Resets? ==> FreshFolder(change.folder))
    ensures Tidy(ChangeMailbox(m, change))
  {
    var n := ChangeMailbox(m, change);
    forall path | path in n ensures FreshFolder(n[path]) {
      assert path in m ==> FreshFolder(m[path]);
    }
  }

  lemma PerformKeepsTidy(session: Session, m: map<string, FolderState>, at: string, uid: nat, op: RemoteOp)
    requires Tidy(m)
    ensures Tidy(Perform(session, m, at, uid, op))
  {
    var n := Perform(session, m, at, uid, op);
    forall path | path in n ensures FreshFolder(n[path]) {
      assert path in m ==> FreshFolder(m[path]);
    }
  }

  lemma StepKeepsTidy(s: Sys, step: Step)
    requires Legal(s, step) && Tidy(s.world.mailbox)
    ensures Tidy(Next(s, step).world.mailbox)
  {
    match step {
      case Remote(r, i, session, op, applied) =>
        PerformKeepsTidy(session, s.world.mailbox, s.runs[r].path, s.world.ledger.items[i].target.uid, op);
      case Outside(change) => ChangeKeepsTidy(s.world.mailbox, change);
      case _ =>
    }
  }

  predicate ResetsPath(step: Step, path: string) {
    step.Outside? && step.change.Resets? && step.change.path == path
  }

  /** A reset raises the generation of its folder; nothing else changes it. */
  lemma StepGeneration(s: Sys, step: Step, path: string)
    requires Legal(s, step) && path in s.world.mailbox && Tidy(s.world.mailbox)
    ensures path in Next(s, step).world.mailbox
    ensures if ResetsPath(step, path) then Generation(s, path) < Generation(Next(s, step), path)
            else Generation(s, path) == Generation(Next(s, step), path)
  {
    match step {
      case Remote(r, i, session, op, applied) =>
        PerformKeepsIdentity(session, s.world.mailbox, s.runs[r].path, s.world.ledger.items[i].target.uid, op, path);
      case Outside(change) =>
        if !ResetsPath(step, path) { ChangeKeepsIdentity(s.world.mailbox, change, path); }
      case _ =>
    }
  }

  lemma StepKeepsNames(s: Sys, step: Step, path: string, target: Target, frozen: Message)
    requires Legal(s, step) && path in s.world.mailbox && Tidy(s.world.mailbox)
    requires Names(s.world.mailbox, path, target, frozen)
    ensures Names(Next(s, step).world.mailbox, path, target, frozen)
  {
    StepGeneration(s, step, path);
    match step {
      case Remote(r, i, session, op, applied) =>
        PerformKeepsIdentity(session, s.world.mailbox, s.runs[r].path, s.world.ledger.items[i].target.uid, op, path);
      case Outside(change) =>
        if !ResetsPath(step, path) { ChangeKeepsIdentity(s.world.mailbox, change, path); }
      case _ =>
    }
  }

  lemma MailboxKeepsPaths(s: Sys, step: Step)
    requires Legal(s, step)
    ensures s.world.mailbox.Keys <= Next(s, step).world.mailbox.Keys
  {
  }

  lemma StageKeepsAim(s: Sys, step: Step, stage: Stage)
    requires Legal(s, step) && AimedStage(s, stage)
    ensures AimedStage(Next(s, step), stage)
  {
    StepKeepsItems(s, step);
    MailboxKeepsPaths(s, step);
    if stage.Fresh? || stage.Armed? {
      assert ItemAt(Next(s, step), stage.item).target == ItemAt(s, stage.item).target;
    }
  }

  /** The stage a run enters is aimed by the state it left. */
  lemma EntersAimed(s: Sys, step: Step)
    requires Legal(s, step) && Aimed(s) && !step.RestoreAll? && !step.Outside? && !step.Stop?
    ensures AimedStage(s, StageNext(s, step))
  {
    if step.run in s.runs { assert AimedStage(s, s.runs[step.run]); }
  }

  lemma StepKeepsAim(s: Sys, step: Step)
    requires Legal(s, step) && Aimed(s)
    ensures Aimed(Next(s, step))
  {
    forall r | r in Next(s, step).runs ensures AimedStage(Next(s, step), Next(s, step).runs[r]) {
      if r in s.runs && Next(s, step).runs[r] == s.runs[r] {
        StageKeepsAim(s, step, s.runs[r]);
      } else {
        EntersAimed(s, step);
        StageKeepsAim(s, step, StageNext(s, step));
      }
    }
  }

  /** Everything the identity argument carries along a history. */
  ghost predicate OnTarget(s: Sys, path: string, i: nat, frozen: Message) {
    && i < |s.world.ledger.items| && TargetPath(s.world, i) == Some(path) && path in s.world.mailbox
    && Aimed(s) && Tidy(s.world.mailbox) && Names(s.world.mailbox, path, ItemAt(s, i).target, frozen)
  }

  lemma StepKeepsOnTarget(s: Sys, step: Step, path: string, i: nat, frozen: Message)
    requires Legal(s, step) && OnTarget(s, path, i, frozen)
    ensures OnTarget(Next(s, step), path, i, frozen)
  {
    StepKeepsItems(s, step);
    assert ItemAt(Next(s, step), i).target == ItemAt(s, i).target;
    StepKeepsAim(s, step);
    StepKeepsTidy(s, step);
    StepGeneration(s, step, path);
    StepKeepsNames(s, step, path, ItemAt(s, i).target, frozen);
  }

  lemma {:induction false} HistoryKeepsOnTarget(s: Sys, steps: seq<Step>, path: string, i: nat, frozen: Message)
    requires Lawful(s, steps) && OnTarget(s, path, i, frozen)
    ensures OnTarget(After(s, steps), path, i, frozen)
    ensures ItemAt(After(s, steps), i).target == ItemAt(s, i).target
    decreases |steps|
  {
    if steps != [] {
      StepKeepsOnTarget(s, steps[0], path, i, frozen);
      StepKeepsItems(s, steps[0]);
      assert ItemAt(Next(s, steps[0]), i).target == ItemAt(s, i).target;
      HistoryKeepsOnTarget(Next(s, steps[0]), steps[1..], path, i, frozen);
    }
  }

  predicate ResetsWithin(steps: seq<Step>, path: string) {
    steps != [] && (ResetsPath(steps[0], path) || ResetsWithin(steps[1..], path))
  }

  /** A folder keeps its generation over a history exactly when no reset of it falls inside. */
  lemma {:induction false} GenerationStandsExactly(s: Sys, steps: seq<Step>, path: string)
    requires Lawful(s, steps) && path in s.world.mailbox && Tidy(s.world.mailbox)
    ensures Generation(s, path) <= Generation(After(s, steps), path)
    ensures Generation(s, path) == Generation(After(s, steps), path) <==> !ResetsWithin(steps, path)
    decreases |steps|
  {
    if steps != [] {
      StepGeneration(s, steps[0], path);
      StepKeepsTidy(s, steps[0]);
      GenerationStandsExactly(Next(s, steps[0]), steps[1..], path);
    }
  }

  /**
   Between two server states nothing but `(path, uid)` changed; anything new in some folder is
   a copy of the frozen message, and what stood at `(path, uid)` is that message.
   */
  ghost predicate TouchesOnly(m: map<string, FolderState>, n: map<string, FolderState>, path: string, uid: nat,
                              frozen: Message) {
    && n.Keys == m.Keys
    && (forall p, u :: p in m && u in m[p].messages && !(p == path && u == uid) ==>
          u in n[p].messages && n[p].messages[u] == m[p].messages[u])
    && (forall p, u :: p in m && u in n[p].messages && u !in m[p].messages ==> SameMessage(n[p].messages[u], frozen))
    && (path in m && uid in m[path].messages ==> SameMessage(m[path].messages[uid], frozen))
    && (path in m && uid in n[path].messages ==> SameMessage(n[path].messages[uid], frozen))
    && (forall p :: p in m ==> n[p].uidValidity == m[p].uidValidity)
  }

  lemma PerformTouchesOnly(session: Session, m: map<string, FolderState>, path: string, uid: nat, op: RemoteOp,
                           frozen: Message)
    requires Tidy(m) && path in m && uid < m[path].nextUid
    requires uid in m[path].messages ==> SameMessage(m[path].messages[uid], frozen)
    ensures TouchesOnly(m, Perform(session, m, path, uid, op), path, uid, frozen)
  {
    var n := Perform(session, m, path, uid, op);
    forall p, u | p in m && u in m[p].messages && !(p == path && u == uid)
      ensures u in n[p].messages && n[p].messages[u] == m[p].messages[u]
    {
      assert FreshFolder(m[p]);
    }
  }

  /** Run `r` only moves towards the write: it claims, and does not check its generation again. */
  predicate OnlyClaims(steps: seq<Step>, r: nat) {
    forall k :: 0 <= k < |steps| ==> StepOf(steps[k]) == Some(r) ==> steps[k].ClaimItem?
  }

  function StepOf(step: Step): Option<nat> {
    if step.RestoreAll? || step.Outside? then None else Some(step.run)
  }

  /** The stages a check of item `i` at `generation` leads to by claiming alone. */
  predicate CarriesCheck(s: Sys, r: nat, i: nat, path: string, generation: nat) {
    r in s.runs && match s.runs[r]
                   case Fresh(_, k, p, g) => k == i && p == path && g == generation
                   case Armed(_, k, p, g) => k == i && p == path && g == generation
                   case Working(_) => true
                   case _ => false
  }

  lemma {:induction false} CheckIsCarried(s: Sys, steps: seq<Step>, r: nat, i: nat, path: string, generation: nat)
    requires Lawful(s, steps) && OnlyClaims(steps, r) && CarriesCheck(s, r, i, path, generation)
    ensures CarriesCheck(After(s, steps), r, i, path, generation)
    decreases |steps|
  {
    if steps != [] {
      assert StepOf(steps[0]) == Some(r) ==> steps[0].ClaimItem?;
      assert CarriesCheck(Next(s, steps[0]), r, i, path, generation);
      forall k | 0 <= k < |steps[1..]| ensures StepOf(steps[1..][k]) == Some(r) ==> steps[1..][k].ClaimItem? {
        assert steps[1..][k] == steps[k + 1];
      }
      CheckIsCarried(Next(s, steps[0]), steps[1..], r, i, path, generation);
    }
  }

  /**
   A write or move reaches the message frozen at submit and nothing else, whatever arrived, was
   expunged or reset before the last generation check, exactly as long as no reset of the folder
   falls between that check and the write: then the folder still holds the frozen generation,
   otherwise it holds a later one, whose UIDs name other messages.
   */
  lemma WriteReachesFrozenExactly(s: Sys, before: seq<Step>, middle: seq<Step>, write: Step, path: string,
                                  frozen: Message)
    requires write.Remote? && write.applied
    requires s.runs == map[] && OnTarget(s, path, write.item, frozen)
    requires Lawful(s, before) && Legal(After(s, before), Revalidate(write.run, write.item))
    requires Lawful(Next(After(s, before), Revalidate(write.run, write.item)), middle) && OnlyClaims(middle, write.run)
    requires Legal(After(Next(After(s, before), Revalidate(write.run, write.item)), middle), write)
    ensures var u := After(Next(After(s, before), Revalidate(write.run, write.item)), middle);
            && path in u.world.mailbox
            && (!ResetsWithin(middle, path) <==>
                  u.world.mailbox[path].uidValidity == ItemAt(s, write.item).target.uidValidity)
            && (!ResetsWithin(middle, path) ==>
                  TouchesOnly(u.world.mailbox, Next(u, write).world.mailbox, path, ItemAt(s, write.item).target.uid,
                              frozen))
  {
    var i := write.item;
    var t := After(s, before);
    HistoryKeepsOnTarget(s, before, path, i, frozen);
    var check := Revalidate(write.run, i);
    var checked := Next(t, check);
    StepKeepsOnTarget(t, check, path, i, frozen);
    assert ItemAt(checked, i).target == ItemAt(s, i).target;
    var generation := Generation(t, path);
    assert Generation(checked, path) == generation;
    HistoryKeepsOnTarget(checked, middle, path, i, frozen);
    CheckIsCarried(checked, middle, write.run, i, path, generation);
    GenerationStandsExactly(checked, middle, path);
    var u := After(checked, middle);
    assert AimedStage(u, u.runs[write.run]);
    if !ResetsWithin(middle, path) {
      PerformTouchesOnly(write.session, u.world.mailbox, path, ItemAt(s, i).target.uid, write.op, frozen);
    }
  }

  /** A folder of a later generation that holds just one message, at a given UID. */
  function ReplacedBy(f: FolderState, uid: nat, other: Message): FolderState {
    FolderState(f.uidValidity + 1, map[uid := other], uid + 1, other.modseq)
  }

  /** The call does something to a message it finds: its condition holds, or its destination is there. */
  predicate Effective(s: Sys, op: RemoteOp, other: Message) {
    match op
    case SetFlag(_, _, since) => since.None? || other.modseq <= since.value
    case MoveTo(destination) => destination in s.world.mailbox
  }

  /**
   A reset inside is fatal for any claimed write: the server may reset the folder to one that
   holds any other message under the frozen UID, the write is still made, and it reaches that
   message.
   */
  lemma ResetMisleadsWrite(s: Sys, write: Step, other: Message, frozen: Message)
    requires write.Remote? && write.applied && Legal(s, write) && s.runs[write.run].path in s.world.mailbox
    requires Effective(s, write.op, other) && !SameMessage(other, frozen)
    ensures var path, uid := s.runs[write.run].path, s.world.ledger.items[write.item].target.uid;
            var reset := Outside(Resets(path, ReplacedBy(s.world.mailbox[path], uid, other)));
            && Legal(s, reset) && Legal(Next(s, reset), write)
            && var m, n := Next(s, reset).world.mailbox, Next(Next(s, reset), write).world.mailbox;
            && path in m && uid in m[path].messages && m[path].messages[uid] == other
            && path in n && (uid in n[path].messages ==> n[path].messages[uid] != other)
            && !TouchesOnly(m, n, path, uid, frozen)
  {
  }
}
