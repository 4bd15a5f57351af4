/**
 The server half of drafting: revision-checked edits, attachments under a byte budget, and the
 lock a queued send holds on its draft. Every transaction is one atomic step on the rows.
 */
module Drafts {
  import opened Wrappers
  import opened Autosave

  const ATTACHMENTS_TOTAL_MAX_BYTES: nat := 32 * 1024 * 1024

  datatype Draft = Draft(account: nat, fields: Patch, revision: nat, lockedBy: Option<nat>, deleted: bool)

  datatype Upload = Upload(account: nat, size: nat)

  datatype Link = Link(upload: nat, ordinal: nat)

  datatype SendStatus = SendQueued | OutcomeUnknown | SendFailed | SendSent

  datatype Outbound = Outbound(status: SendStatus, account: nat, fields: Patch, links: seq<Link>)

  datatype Rows = Rows(drafts: map<nat, Draft>, uploads: map<nat, Upload>, attached: map<nat, seq<Link>>,
                       outbounds: map<nat, Outbound>)

  datatype Refusal = NotFound | DraftLocked | DraftStale(current: nat) | Invalid | NoSuchSend

  /**
   One transaction on the rows. `Queue` is the send service freezing a draft, which ends in the
   lock; `LockForSend` is that lock alone; `Status` is the send service recording what a send came to.
   */
  datatype Op =
    | Update(draft: nat, base: nat, patch: Patch)
    | Delete(draft: nat)
    | Attach(draft: nat, upload: nat)
    | Detach(draft: nat, upload: nat)
    | Queue(draft: nat, revision: nat, outbound: nat)
    | LockForSend(draft: nat, revision: nat, outbound: nat)
    | Release(outbound: nat, required: SendStatus)
    | Resend(outbound: nat, added: nat)
    | Compose(added: nat, account: nat, fields: Patch)
    | Store(added: nat, account: nat, size: nat)
    | Status(outbound: nat, status: SendStatus)

  function LinksOf(r: Rows, draft: nat): seq<Link> {
    if draft in r.attached then r.attached[draft] else []
  }

  function SizeOf(r: Rows, upload: nat): nat {
    if upload in r.uploads then r.uploads[upload].size else 0
  }

  function Total(r: Rows, links: seq<Link>): nat {
    if links == [] then 0 else Total(r, links[..|links| - 1]) + SizeOf(r, links[|links| - 1].upload)
  }

  function OrdinalOf(links: seq<Link>, upload: nat): (o: Option<nat>)
    ensures o.Some? <==> exists k :: 0 <= k < |links| && links[k].upload == upload
    ensures o.Some? ==> Link(upload, o.value) in links
  {
    if links == [] then None
    else if links[|links| - 1].upload == upload then Some(links[|links| - 1].ordinal)
    else OrdinalOf(links[..|links| - 1], upload)
  }

  /** One past the highest position, or the first one. */
  function NextOrdinal(links: seq<Link>): (n: nat)
    ensures forall k :: 0 <= k < |links| ==> links[k].ordinal < n
    ensures links == [] ==> n == 0
    ensures links != [] ==> exists k :: 0 <= k < |links| && links[k].ordinal + 1 == n
  {
    if links == [] then 0
    else
      var n := NextOrdinal(links[..|links| - 1]);
      var last := links[|links| - 1].ordinal + 1;
      assert forall k :: 0 <= k < |links| - 1 ==> links[..|links| - 1][k] == links[k];
      if n < last then last else n
  }

  function Unlinked(links: seq<Link>, upload: nat): seq<Link> {
    if links == [] then []
    else Unlinked(links[..|links| - 1], upload) + if links[|links| - 1].upload == upload then []
        else [links[|links| - 1]]
  }

  /** Why an edit of this draft is refused, if it is: gone, or held by a send. */
  function EditRefusal(r: Rows, draft: nat): Option<Refusal> {
    if draft !in r.drafts || r.drafts[draft].deleted then Some(NotFound)
    else if r.drafts[draft].lockedBy.Some? then Some(DraftLocked)
    else None
  }

  function UpdateRefusal(r: Rows, draft: nat, base: nat): Option<Refusal> {
    if base < 1 then Some(Invalid)
    else if EditRefusal(r, draft).Some? then EditRefusal(r, draft)
    else if r.drafts[draft].revision != base then Some(DraftStale(r.drafts[draft].revision))
    else None
  }

  function AttachRefusal(r: Rows, draft: nat, upload: nat): Option<Refusal> {
    if EditRefusal(r, draft).Some? then EditRefusal(r, draft)
    else if upload !in r.uploads then Some(NotFound)
    else if r.uploads[upload].account != r.drafts[draft].account then Some(Invalid)
    else if OrdinalOf(LinksOf(r, draft), upload).Some? then None
    else if Total(r, LinksOf(r, draft)) + r.uploads[upload].size > ATTACHMENTS_TOTAL_MAX_BYTES then Some(Invalid)
    else None
  }

  function LockRefusal(r: Rows, draft: nat, revision: nat, outbound: nat): Option<Refusal> {
    if draft !in r.drafts then Some(NotFound)
    else if r.drafts[draft].revision != revision then Some(DraftStale(r.drafts[draft].revision))
    else if r.drafts[draft].lockedBy.Some? && r.drafts[draft].lockedBy != Some(outbound) then Some(DraftLocked)
    else if r.drafts[draft].lockedBy.None? && outbound !in r.outbounds then Some(NoSuchSend)
    else None
  }

  /** Why a send refuses to freeze a draft. */
  function QueueRefusal(r: Rows, draft: nat, revision: nat): Option<Refusal> {
    if draft !in r.drafts || r.drafts[draft].deleted then Some(NotFound)
    else if r.drafts[draft].revision != revision then Some(DraftStale(r.drafts[draft].revision))
    else if r.drafts[draft].lockedBy.Some? then Some(DraftLocked)
    else None
  }

  /** What a send keeps of a draft. */
  function Frozen(r: Rows, draft: nat): Outbound
    requires draft in r.drafts
  {
    Outbound(SendQueued, r.drafts[draft].account, r.drafts[draft].fields, LinksOf(r, draft))
  }

  predicate Definitive(status: SendStatus) {
    status == SendFailed || status == SendSent
  }

  predicate Releases(r: Rows, outbound: nat, required: SendStatus) {
    Definitive(required) && outbound in r.outbounds && r.outbounds[outbound].status == required
  }

  function Unlock(drafts: map<nat, Draft>, outbound: nat): map<nat, Draft> {
    map d | d in drafts :: if drafts[d].lockedBy == Some(outbound) then drafts[d].(lockedBy := None) else drafts[d]
  }

  /** The bytes of a list are its files' sizes added up, whatever the order they are counted in. */
  lemma {:induction false} TotalAddsUp(r: Rows, a: seq<Link>, b: seq<Link>)
    ensures Total(r, a + b) == Total(r, a) + Total(r, b)
    ensures forall l: Link :: l.upload in r.uploads ==> Total(r, [l]) == r.uploads[l.upload].size
  {
    forall l: Link | l.upload in r.uploads ensures Total(r, [l]) == r.uploads[l.upload].size {
      assert [l][..0] == [];
      assert Total(r, [l]) == Total(r, []) + SizeOf(r, l.upload);
    }
    if b == [] {
      assert a + b == a;
    } else {
      var n := |b| - 1;
      TotalAddsUp(r, a, b[..n]);
      assert (a + b)[..|a| + n] == a + b[..n];
    }
  }

  /** When an edit is accepted, and what a refused one is told, from the draft row. */
  lemma UpdateIsAcceptedExactly(r: Rows, draft: nat, base: nat)
    ensures UpdateRefusal(r, draft, base).None? <==>
              && base >= 1 && draft in r.drafts && !r.drafts[draft].deleted && r.drafts[draft].lockedBy.None?
              && r.drafts[draft].revision == base
    ensures UpdateRefusal(r, draft, base).Some? && UpdateRefusal(r, draft, base).value.DraftStale? ==>
              && draft in r.drafts && r.drafts[draft].revision != base
              && UpdateRefusal(r, draft, base).value.current == r.drafts[draft].revision
  {
  }

  /** The rows after one transaction; a refused one leaves them alone. */
  function Step(r: Rows, op: Op): Rows {
    match op
    case Update(d, base, patch) =>
      if UpdateRefusal(r, d, base).Some? || patch == map[] then r
      else r.(drafts := r.drafts[d := r.drafts[d].(fields := r.drafts[d].fields + patch, revision := base + 1)])
    case Delete(d) =>
      if EditRefusal(r, d).Some? then r else r.(drafts := r.drafts[d := r.drafts[d].(deleted := true)])
    case Attach(d, u) =>
      if AttachRefusal(r, d, u).Some? || OrdinalOf(LinksOf(r, d), u).Some? then r
      else r.(attached := r.attached[d := LinksOf(r, d) + [Link(u, NextOrdinal(LinksOf(r, d)))]])
    case Detach(d, u) =>
      if EditRefusal(r, d).Some? || OrdinalOf(LinksOf(r, d), u).None? then r
      else r.(attached := r.attached[d := Unlinked(LinksOf(r, d), u)])
    case Queue(d, revision, o) =>
      if QueueRefusal(r, d, revision).Some? || o in r.outbounds then r
      else r.(drafts := r.drafts[d := r.drafts[d].(lockedBy := Some(o))], outbounds := r.outbounds[o := Frozen(r, d)])
    case LockForSend(d, revision, o) =>
      if LockRefusal(r, d, revision, o).Some? || r.drafts[d].lockedBy.Some? then r
      else r.(drafts := r.drafts[d := r.drafts[d].(lockedBy := Some(o))])
    case Release(o, required) =>
      if Releases(r, o, required) then r.(drafts := Unlock(r.drafts, o)) else r
    case Resend(o, n) =>
      if o !in r.outbounds || r.outbounds[o].status != OutcomeUnknown || n in r.drafts then r
      else r.(drafts := r.drafts[n := Draft(r.outbounds[o].account, r.outbounds[o].fields, 1, None, false)],
              attached := r.attached[n := r.outbounds[o].links])
    case Compose(n, account, fields) =>
      if n in r.drafts then r
          else r.(drafts := r.drafts[n := Draft(account, fields, 1, None, false)], attached := r.attached[n := []])
    case Store(n, account, size) =>
      if n in r.uploads then r else r.(uploads := r.uploads[n := Upload(account, size)])
    case Status(o, status) =>
      if o in r.outbounds then r.(outbounds := r.outbounds[o := r.outbounds[o].(status := status)]) else r
  }

  function Run(r: Rows, ops: seq<Op>): Rows
    decreases |ops|
  {
    if ops == [] then r else Run(Step(r, ops[0]), ops[1..])
  }

  // ---- the attachment invariant ----

  predicate Clash(a: Link, b: Link) {
    a.ordinal == b.ordinal || a.upload == b.upload
  }

  ghost predicate DistinctLinks(links: seq<Link>) {
    forall a, b :: 0 <= a < b < |links| ==> !Clash(links[a], links[b])
  }

  /** Positions and uploads are distinct, every file exists in the draft's account, and the bytes fit. */
  ghost predicate Tidy(r: Rows, account: nat, links: seq<Link>) {
    && DistinctLinks(links)
    && (forall k :: 0 <= k < |links| ==> links[k].upload in r.uploads && r.uploads[links[k].upload].account == account)
    && Total(r, links) <= ATTACHMENTS_TOTAL_MAX_BYTES
  }

  ghost predicate Bounded(r: Rows) {
    && (forall d :: d in r.drafts ==> Tidy(r, r.drafts[d].account, LinksOf(r, d)))
    && (forall o :: o in r.outbounds ==> Tidy(r, r.outbounds[o].account, r.outbounds[o].links))
  }

  lemma {:induction false} TotalGrows(r: Rows, t: Rows, links: seq<Link>)
    requires forall u :: u in r.uploads ==> u in t.uploads && t.uploads[u] == r.uploads[u]
    requires forall k :: 0 <= k < |links| ==> links[k].upload in r.uploads
    ensures Total(t, links) == Total(r, links)
  {
    if links != [] {
      TotalGrows(r, t, links[..|links| - 1]);
    }
  }

  lemma TidyStands(r: Rows, t: Rows, account: nat, links: seq<Link>)
    requires Tidy(r, account, links) && forall u :: u in r.uploads ==> u in t.uploads && t.uploads[u] == r.uploads[u]
    ensures Tidy(t, account, links)
  {
    TotalGrows(r, t, links);
  }

  lemma AttachStaysTidy(r: Rows, account: nat, links: seq<Link>, u: nat)
    requires Tidy(r, account, links) && u in r.uploads && r.uploads[u].account == account && OrdinalOf(links, u).None?
    requires Total(r, links) + r.uploads[u].size <= ATTACHMENTS_TOTAL_MAX_BYTES
    ensures Tidy(r, account, links + [Link(u, NextOrdinal(links))])
  {
    var more := links + [Link(u, NextOrdinal(links))];
    assert more[..|links|] == links;
  }

  /** Detaching drops exactly one upload and keeps the others in their positions. */
  lemma {:induction false} UnlinkedIsExact(links: seq<Link>, u: nat)
    ensures forall l :: l in Unlinked(links, u) <==> l in links && l.upload != u
    ensures |Unlinked(links, u)| <= |links|
  {
    if links != [] {
      UnlinkedIsExact(links[..|links| - 1], u);
      assert links == links[..|links| - 1] + [links[|links| - 1]];
    }
  }

  lemma {:induction false} DetachStaysDistinct(links: seq<Link>, u: nat)
    requires DistinctLinks(links)
    ensures DistinctLinks(Unlinked(links, u))
  {
    if links != [] {
      var n := |links| - 1;
      var kept := Unlinked(links[..n], u);
      DetachStaysDistinct(links[..n], u);
      UnlinkedIsExact(links[..n], u);
      forall k | 0 <= k < |kept| ensures !Clash(kept[k], links[n]) {
        assert kept[k] in links[..n];
      }
    }
  }

  lemma {:induction false} DetachFreesBytes(r: Rows, links: seq<Link>, u: nat)
    ensures Total(r, Unlinked(links, u)) <= Total(r, links)
  {
    if links != [] {
      var n := |links| - 1;
      var kept := Unlinked(links[..n], u);
      DetachFreesBytes(r, links[..n], u);
      assert (kept + [links[n]])[..|kept|] == kept && kept + [] == kept;
    }
  }

  lemma DetachStaysTidy(r: Rows, account: nat, links: seq<Link>, u: nat)
    requires Tidy(r, account, links)
    ensures Tidy(r, account, Unlinked(links, u))
  {
    DetachStaysDistinct(links, u);
    DetachFreesBytes(r, links, u);
    UnlinkedIsExact(links, u);
    forall k | 0 <= k < |Unlinked(links, u)| ensures Unlinked(links, u)[k] in links {
      assert Unlinked(links, u)[k] in Unlinked(links, u);
    }
  }

  lemma StepLeavesTidy(r: Rows, op: Op, account: nat, links: seq<Link>)
    requires Tidy(r, account, links)
    ensures Tidy(Step(r, op), account, links)
  {
    TidyStands(r, Step(r, op), account, links);
  }

  lemma EditDraftTidy(r: Rows, op: Op)
    requires Bounded(r) && (op.Attach? || op.Detach?) && Step(r, op) != r
    ensures Tidy(Step(r, op), r.drafts[op.draft].account, LinksOf(Step(r, op), op.draft))
  {
    var account, links := r.drafts[op.draft].account, LinksOf(r, op.draft);
    if op.Attach? {
      AttachStaysTidy(r, account, links, op.upload);
      StepLeavesTidy(r, op, account, links + [Link(op.upload, NextOrdinal(links))]);
    } else {
      DetachStaysTidy(r, account, links, op.upload);
      StepLeavesTidy(r, op, account, Unlinked(links, op.upload));
    }
  }

  lemma StepDraftTidy(r: Rows, op: Op, d: nat)
    requires Bounded(r) && d in Step(r, op).drafts
    ensures Tidy(Step(r, op), Step(r, op).drafts[d].account, LinksOf(Step(r, op), d))
  {
    var t := Step(r, op);
    if d in r.drafts {
      assert t.drafts[d].account == r.drafts[d].account;
      if LinksOf(t, d) == LinksOf(r, d) {
        StepLeavesTidy(r, op, r.drafts[d].account, LinksOf(r, d));
      } else {
        EditDraftTidy(r, op);
      }
    } else if op.Resend? {
      StepLeavesTidy(r, op, r.outbounds[op.outbound].account, r.outbounds[op.outbound].links);
    } else {
      assert LinksOf(t, d) == [];
    }
  }

  lemma StepOutboundTidy(r: Rows, op: Op, o: nat)
    requires Bounded(r) && o in Step(r, op).outbounds
    ensures Tidy(Step(r, op), Step(r, op).outbounds[o].account, Step(r, op).outbounds[o].links)
  {
    if o in r.outbounds {
      StepLeavesTidy(r, op, r.outbounds[o].account, r.outbounds[o].links);
    } else {
      StepLeavesTidy(r, op, r.drafts[op.draft].account, LinksOf(r, op.draft));
    }
  }

  lemma StepStaysBounded(r: Rows, op: Op)
    requires Bounded(r)
    ensures Bounded(Step(r, op))
  {
    var t := Step(r, op);
    forall d | d in t.drafts ensures Tidy(t, t.drafts[d].account, LinksOf(t, d)) {
      StepDraftTidy(r, op, d);
    }
    forall o | o in t.outbounds ensures Tidy(t, t.outbounds[o].account, t.outbounds[o].links) {
      StepOutboundTidy(r, op, o);
    }
  }

  /** The frozen copy of a draft fits as the draft does. */
  lemma FrozenIsTidy(r: Rows, d: nat, o: nat)
    requires Bounded(r) && d in r.drafts
    ensures Bounded(r.(outbounds := r.outbounds[o := Frozen(r, d)]))
  {
    var t := r.(outbounds := r.outbounds[o := Frozen(r, d)]);
    forall e | e in t.drafts ensures Tidy(t, t.drafts[e].account, LinksOf(t, e)) {
      TidyStands(r, t, r.drafts[e].account, LinksOf(r, e));
    }
    forall p | p in t.outbounds ensures Tidy(t, t.outbounds[p].account, t.outbounds[p].links) {
      TidyStands(r, t, t.outbounds[p].account, t.outbounds[p].links);
    }
  }

  /** In every run, positions stay distinct and the bytes of every draft and snapshot within the bound. */
  lemma {:induction false} RunStaysBounded(r: Rows, ops: seq<Op>)
    requires Bounded(r)
    ensures Bounded(Run(r, ops))
    decreases |ops|
  {
    if ops != [] {
      StepStaysBounded(r, ops[0]);
      RunStaysBounded(Step(r, ops[0]), ops[1..]);
    }
  }

  /** A retried attach answers the recorded position and changes nothing. */
  lemma AttachTwiceIsOnce(r: Rows, d: nat, u: nat)
    requires AttachRefusal(r, d, u).None?
    ensures Step(Step(r, Attach(d, u)), Attach(d, u)) == Step(r, Attach(d, u))
    ensures AttachRefusal(Step(r, Attach(d, u)), d, u).None?
    ensures OrdinalOf(LinksOf(r, d), u).Some? ==> Step(r, Attach(d, u)) == r
    ensures OrdinalOf(LinksOf(Step(r, Attach(d, u)), d), u) ==
            if OrdinalOf(LinksOf(r, d), u).Some? then OrdinalOf(LinksOf(r, d), u) else Some(NextOrdinal(LinksOf(r, d)))
  {
  }

  // ---- the send lock ----

  predicate Held(r: Rows, d: nat, o: nat) {
    d in r.drafts && r.drafts[d].lockedBy == Some(o) && o in r.outbounds
  }

  /** What a send froze: fields, revision, deletion and attachments. */
  predicate SameDraft(r: Rows, t: Rows, d: nat) {
    d in r.drafts && d in t.drafts && t.drafts[d] == r.drafts[d] && LinksOf(t, d) == LinksOf(r, d)
  }

  predicate SameSnapshot(r: Rows, t: Rows, o: nat) {
    && o in r.outbounds && o in t.outbounds && t.outbounds[o].fields == r.outbounds[o].fields
    && t.outbounds[o].links == r.outbounds[o].links && t.outbounds[o].account == r.outbounds[o].account
  }

  lemma HeldStepFreezes(r: Rows, op: Op, d: nat, o: nat)
    requires Held(r, d, o)
    ensures if op.Release? && op.outbound == o && Releases(r, o, op.required)
            then d in Step(r, op).drafts && Step(r, op).drafts[d] == r.drafts[d].(lockedBy := None)
                && LinksOf(Step(r, op), d) == LinksOf(r, d)
            else SameDraft(r, Step(r, op), d) && Held(Step(r, op), d, o)
    ensures SameSnapshot(r, Step(r, op), o)
  {
  }

  /** Whether some step of a run drops the lock of `o`, and only a release at its definitive status can. */
  predicate Releasing(r: Rows, ops: seq<Op>, o: nat)
    decreases |ops|
  {
    ops != [] &&
    ((ops[0].Release? && ops[0].outbound == o && Releases(r, o, ops[0].required))
        || Releasing(Step(r, ops[0]), ops[1..], o))
  }

  /**
   From the lock to the release nothing changes the draft: as long as the send that holds it
   reports no definitive failure or acceptance, fields, revision, attachments and deletion
   stand, whatever edits, attaches, deletes, resends and other sends are tried.
   */
  lemma {:induction false} LockedDraftIsFrozen(r: Rows, ops: seq<Op>, d: nat, o: nat)
    requires Held(r, d, o) && !Releasing(r, ops, o)
    ensures SameDraft(r, Run(r, ops), d) && Held(Run(r, ops), d, o) && SameSnapshot(r, Run(r, ops), o)
    decreases |ops|
  {
    if ops != [] {
      HeldStepFreezes(r, ops[0], d, o);
      LockedDraftIsFrozen(Step(r, ops[0]), ops[1..], d, o);
    }
  }

  predicate Reports(op: Op, o: nat) {
    op.Status? && op.outbound == o && Definitive(op.status)
  }

  /** Without a definitive report no release succeeds, so an unresolved send keeps its draft for good. */
  lemma {:induction false} UnresolvedNeverReleases(r: Rows, ops: seq<Op>, o: nat)
    requires o in r.outbounds && !Definitive(r.outbounds[o].status)
    requires forall k :: 0 <= k < |ops| ==> !Reports(ops[k], o)
    ensures !Releasing(r, ops, o)
    decreases |ops|
  {
    if ops != [] {
      var t := Step(r, ops[0]);
      assert o in t.outbounds && !Definitive(t.outbounds[o].status) by { assert !Reports(ops[0], o); }
      forall k | 0 <= k < |ops[1..]| ensures !Reports(ops[1..][k], o) { assert ops[1..][k] == ops[k + 1]; }
      UnresolvedNeverReleases(t, ops[1..], o);
    }
  }

  /** A draft that a send holds is what that send froze. */
  predicate MatchesSend(r: Rows, d: nat)
    requires d in r.drafts
  {
    r.drafts[d].lockedBy.Some? ==>
      var o := r.drafts[d].lockedBy.value;
      && o in r.outbounds && r.outbounds[o].fields == r.drafts[d].fields
      && r.outbounds[o].links == LinksOf(r, d) && r.outbounds[o].account == r.drafts[d].account
  }

  ghost predicate Faithful(r: Rows) {
    forall d :: d in r.drafts ==> MatchesSend(r, d)
  }

  /** A lock taken outside the freeze of a send, on a draft nobody holds. */
  predicate BareLock(r: Rows, op: Op) {
    op.LockForSend? && LockRefusal(r, op.draft, op.revision, op.outbound).None? && r.drafts[op.draft].lockedBy.None?
  }

  predicate BareLocks(r: Rows, ops: seq<Op>)
    decreases |ops|
  {
    ops != [] && (BareLock(r, ops[0]) || BareLocks(Step(r, ops[0]), ops[1..]))
  }

  lemma StepMatches(r: Rows, op: Op, d: nat)
    requires Faithful(r) && !BareLock(r, op) && d in Step(r, op).drafts
    ensures MatchesSend(Step(r, op), d)
  {
    if d in r.drafts {
      assert MatchesSend(r, d);
      if r.drafts[d].lockedBy.Some? { HeldStepFreezes(r, op, d, r.drafts[d].lockedBy.value); }
    }
  }

  /**
   In every run a draft held by a send is exactly what the send froze, fields and attachments:
   whatever is edited, attached, deleted, released or resent meanwhile, as long as locks are
   taken where a send freezes, which is the one place that takes them.
   */
  lemma {:induction false} HeldDraftsMatchTheirSends(r: Rows, ops: seq<Op>)
    requires Faithful(r) && !BareLocks(r, ops)
    ensures Faithful(Run(r, ops))
    decreases |ops|
  {
    if ops != [] {
      forall d | d in Step(r, ops[0]).drafts ensures MatchesSend(Step(r, ops[0]), d) {
        StepMatches(r, ops[0], d);
      }
      HeldDraftsMatchTheirSends(Step(r, ops[0]), ops[1..]);
    }
  }

  /** A copy made for a resend, however late, holds exactly what the draft held when the send froze it. */
  lemma ResendCopiesTheDraft(r: Rows, d: nat, revision: nat, o: nat, ops: seq<Op>, n: nat)
    requires QueueRefusal(r, d, revision).None? && o !in r.outbounds
    requires !Releasing(Step(r, Queue(d, revision, o)), ops, o)
    requires var u := Run(Step(r, Queue(d, revision, o)), ops);
             o in u.outbounds && u.outbounds[o].status == OutcomeUnknown && n !in u.drafts
    ensures var v := Step(Run(Step(r, Queue(d, revision, o)), ops), Resend(o, n));
            && n in v.drafts && v.drafts[n].fields == r.drafts[d].fields && LinksOf(v, n) == LinksOf(r, d)
            && v.drafts[n].revision == 1 && v.drafts[n].lockedBy.None? && Held(v, d, o)
  {
    LockedDraftIsFrozen(Step(r, Queue(d, revision, o)), ops, d, o);
  }

  /**
   The lock alone does not look at the deletion mark, so for any deleted draft it succeeds where the
   send itself refuses.
   */
  lemma DeletedDraftStillLocks(r: Rows, d: nat, o: nat)
    requires d in r.drafts && r.drafts[d].deleted && r.drafts[d].lockedBy.None? && o in r.outbounds
    ensures Held(Step(r, LockForSend(d, r.drafts[d].revision, o)), d, o)
    ensures EditRefusal(r, d) == Some(NotFound) && QueueRefusal(r, d, r.drafts[d].revision) == Some(NotFound)
  {
  }
}
