/** The draft service: each method is one transaction over the rows it locks. */
module DraftService {
  import opened Wrappers
  import opened Autosave
  import opened Drafts

  class DraftService {
    var drafts: map<nat, Draft>
    var uploads: map<nat, Upload>
    var attached: map<nat, seq<Link>>
    var outbounds: map<nat, Outbound>

    constructor ()
      ensures Valid() && State() == Rows(map[], map[], map[], map[])
    {
      drafts, uploads, attached, outbounds := map[], map[], map[], map[];
    }

    function State(): Rows
      reads this
    {
      Rows(drafts, uploads, attached, outbounds)
    }

    /** Distinct positions, files of the draft's own account, bytes within the bound. */
    ghost predicate Valid()
      reads this
    {
      Bounded(State())
    }

    /** Lock one live draft for an edit. */
    method LockEditableDraft(id: nat) returns (row: Result<Draft, Refusal>)
      ensures row.Ok? <==> EditRefusal(State(), id).None?
      ensures row.Ok? ==> id in drafts && row.value == drafts[id]
      ensures row.Err? ==> Some(row.error) == EditRefusal(State(), id)
    {
      if id !in drafts { return Err(NotFound); }
      if drafts[id].deleted { return Err(NotFound); }
      if drafts[id].lockedBy.Some? { return Err(DraftLocked); }
      return Ok(drafts[id]);
    }

    /**
     One revision-checked edit: accepted exactly when the draft is editable and the base is its
     revision; a stale one is told the revision the server holds. An empty edit changes nothing.
     */
    method UpdateDraft(id: nat, base: nat, patch: Patch) returns (answer: Result<Draft, Refusal>)
      requires Valid()
      modifies this`drafts
      ensures Valid() && State() == Step(old(State()), Update(id, base, patch))
      ensures answer.Err? ==> Some(answer.error) == UpdateRefusal(old(State()), id, base) && State() == old(State())
      ensures answer.Ok? ==> UpdateRefusal(old(State()), id, base).None? && id in drafts && answer.value == drafts[id]
      ensures answer.Ok? <==>
        && base >= 1 && id in old(drafts) && !old(drafts)[id].deleted && old(drafts)[id].lockedBy.None?
        && old(drafts)[id].revision == base
      ensures answer.Ok? ==>
        drafts == if patch == map[] then old(drafts)
                  else old(drafts)[id := old(drafts)[id].(fields := old(drafts)[id].fields + patch,
                                                          revision := base + 1)]
      ensures answer.Err? && answer.error.DraftStale? ==>
        id in drafts && drafts[id].revision != base && answer.error.current == drafts[id].revision
    {
      StepStaysBounded(State(), Update(id, base, patch));
      if base < 1 { return Err(Invalid); }
      var row := LockEditableDraft(id);
      if row.Err? { return Err(row.error); }
      if row.value.revision != base { return Err(DraftStale(row.value.revision)); }
      if patch == map[] { return Ok(row.value); }
      drafts := drafts[id := row.value.(fields := row.value.fields + patch, revision := row.value.revision + 1)];
      return Ok(drafts[id]);
    }

    method DeleteDraft(id: nat) returns (refusal: Option<Refusal>)
      requires Valid()
      modifies this`drafts
      ensures Valid() && State() == Step(old(State()), Delete(id))
      ensures refusal == EditRefusal(old(State()), id)
    {
      StepStaysBounded(State(), Delete(id));
      var row := LockEditableDraft(id);
      if row.Err? { return Some(row.error); }
      drafts := drafts[id := row.value.(deleted := true)];
      return None;
    }

    /** Attach at the next position; an upload already attached answers the position it has. */
    method AttachUpload(id: nat, upload: nat) returns (answer: Result<nat, Refusal>)
      requires Valid()
      modifies this`attached
      ensures Valid() && State() == Step(old(State()), Attach(id, upload))
      ensures answer.Err? ==> Some(answer.error) == AttachRefusal(old(State()), id, upload)
      ensures answer.Ok? ==>
        AttachRefusal(old(State()), id, upload).None? && OrdinalOf(LinksOf(State(), id), upload) == Some(answer.value)
      ensures answer.Ok? && OrdinalOf(LinksOf(old(State()), id), upload).Some? ==> State() == old(State())
    {
      StepStaysBounded(State(), Attach(id, upload));
      var row := LockEditableDraft(id);
      if row.Err? { return Err(row.error); }
      if upload !in uploads { return Err(NotFound); }
      if uploads[upload].account != row.value.account { return Err(Invalid); }
      var links := LinksOf(State(), id);
      var recorded := OrdinalOf(links, upload);
      if recorded.Some? { return Ok(recorded.value); }
      if Total(State(), links) + uploads[upload].size > ATTACHMENTS_TOTAL_MAX_BYTES { return Err(Invalid); }
      var next := NextOrdinal(links);
      attached := attached[id := links + [Link(upload, next)]];
      return Ok(next);
    }

    method DetachUpload(id: nat, upload: nat) returns (refusal: Option<Refusal>)
      requires Valid()
      modifies this`attached
      ensures Valid() && State() == Step(old(State()), Detach(id, upload))
      ensures refusal.None? ==> forall l :: l in LinksOf(State(), id) <==>
        l in LinksOf(old(State()), id) && l.upload != upload
      ensures refusal.Some? ==> State() == old(State())
    {
      StepStaysBounded(State(), Detach(id, upload));
      var row := LockEditableDraft(id);
      if row.Err? { return Some(row.error); }
      var links := LinksOf(State(), id);
      if OrdinalOf(links, upload).None? { return Some(NotFound); }
      UnlinkedIsExact(links, upload);
      attached := attached[id := Unlinked(links, upload)];
      return None;
    }

    /** Lock a draft at the revision a send froze; the send that holds it may ask again. */
    method LockDraftForSend(id: nat, revision: nat, outbound: nat) returns (refusal: Option<Refusal>)
      requires Valid()
      modifies this`drafts
      ensures Valid() && State() == Step(old(State()), LockForSend(id, revision, outbound))
      ensures refusal == LockRefusal(old(State()), id, revision, outbound)
      ensures refusal.None? ==> id in drafts && drafts[id].lockedBy == Some(outbound) && drafts[id].revision == revision
    {
      StepStaysBounded(State(), LockForSend(id, revision, outbound));
      if id !in drafts { return Some(NotFound); }
      var row := drafts[id];
      if row.revision != revision { return Some(DraftStale(row.revision)); }
      if row.lockedBy == Some(outbound) { return None; }
      if row.lockedBy.Some? { return Some(DraftLocked); }
      // The lock column refers to an outbound row.
      if outbound !in outbounds { return Some(NoSuchSend); }
      drafts := drafts[id := row.(lockedBy := Some(outbound))];
      return None;
    }

    /** The transaction of a send: checks, the frozen copy under a fresh identifier, and the lock. */
    method QueueSend(id: nat, revision: nat, outbound: nat) returns (refusal: Option<Refusal>)
      requires Valid() && outbound !in outbounds
      modifies this`drafts, this`outbounds
      ensures Valid() && State() == Step(old(State()), Queue(id, revision, outbound))
      ensures refusal == QueueRefusal(old(State()), id, revision)
      ensures refusal.None? ==> Held(State(), id, outbound) && MatchesSend(State(), id)
    {
      StepStaysBounded(State(), Queue(id, revision, outbound));
      if id !in drafts || drafts[id].deleted { return Some(NotFound); }
      var row := drafts[id];
      if row.revision != revision { return Some(DraftStale(row.revision)); }
      if row.lockedBy.Some? { return Some(DraftLocked); }
      FrozenIsTidy(State(), id, outbound);
      outbounds := outbounds[outbound := Outbound(SendQueued, row.account, row.fields, LinksOf(State(), id))];
      var refused := LockDraftForSend(id, revision, outbound);
      assert refused.None?;
      return None;
    }

    /** Only the outbound row that owns a lock, at a definitive status, drops it. */
    method ReleaseDraftLock(outbound: nat, required: SendStatus) returns (answer: Result<nat, Refusal>)
      requires Valid() && required in {SendFailed, SendSent}
      modifies this`drafts
      ensures Valid() && State() == Step(old(State()), Release(outbound, required))
      ensures answer.Ok? <==> outbound in outbounds && outbounds[outbound].status == required
      ensures drafts.Keys == old(drafts).Keys
      ensures answer.Ok? ==> forall d :: d in drafts ==>
        drafts[d] == if old(drafts)[d].lockedBy == Some(outbound) then old(drafts)[d].(lockedBy := None)
                     else old(drafts)[d]
      ensures answer.Ok? ==> answer.value == |set d | d in old(drafts) && old(drafts)[d].lockedBy == Some(outbound)|
      ensures answer.Err? ==> answer.error == if outbound in outbounds then Invalid else NotFound
    {
      StepStaysBounded(State(), Release(outbound, required));
      if outbound !in outbounds { return Err(NotFound); }
      if outbounds[outbound].status != required { return Err(Invalid); }
      var released := set d | d in drafts && drafts[d].lockedBy == Some(outbound);
      drafts := Unlock(drafts, outbound);
      return Ok(|released|);
    }

    /** A fresh unlocked draft from the snapshot of a send whose outcome is unknown. */
    method CreateResendDraft(outbound: nat, id: nat) returns (answer: Result<Draft, Refusal>)
      requires Valid() && id !in drafts
      modifies this`drafts, this`attached
      ensures Valid() && State() == Step(old(State()), Resend(outbound, id))
      ensures answer.Ok? <==> outbound in outbounds && outbounds[outbound].status == OutcomeUnknown
      ensures answer.Ok? ==> drafts == old(drafts)[id := answer.value] && answer.value.lockedBy.None?
    {
      StepStaysBounded(State(), Resend(outbound, id));
      if outbound !in outbounds { return Err(NotFound); }
      var row := outbounds[outbound];
      if row.status != OutcomeUnknown { return Err(Invalid); }
      var copy := Draft(row.account, row.fields, 1, None, false);
      drafts := drafts[id := copy];
      attached := attached[id := row.links];
      return Ok(copy);
    }
  }
}
