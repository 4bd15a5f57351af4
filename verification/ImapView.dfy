/**
 What one connection has told its client about the selected folder, and what a
 client that replays those answers believes.
 */
module ImapView {
  import opened Wrappers
  import opened Ascending
  import opened MailboxStore

  datatype Status = OK | NO | BAD

  datatype Code =
    | NoCode
    | TryCreate
    | Modified(uids: seq<nat>)
    | CopyUid(uidValidity: nat, source: string, destination: string)
    | AppendUid(uidValidity: nat, uid: nat)

  datatype Response =
    | Expunged(seqno: nat)
    | Exists(count: nat)
    | Fetched(seqno: nat, uid: nat, flags: seq<string>, modseq: Option<nat>)
    | Untagged(code: Code)
    | Tagged(tag: string, status: Status, code: Code)

  /**
   One answer as the client applies it to its numbered list. After an EXISTS it asks for the
   numbers it does not know yet, and `server` answers them.
   */
  ghost function Absorb(known: seq<nat>, r: Response, server: seq<nat>): seq<nat> {
    match r
    case Expunged(n) => if 1 <= n <= |known| then RemoveAt(known, n - 1) else known
    case Exists(n) => if |known| < n <= |server| then known + server[|known|..n] else known
    case _ => known
  }

  ghost function Replay(known: seq<nat>, rs: seq<Response>, server: seq<nat>): seq<nat> {
    if rs == [] then known
    else Absorb(Replay(known, rs[..|rs| - 1], server), rs[|rs| - 1], server)
  }

  lemma ReplayOne(known: seq<nat>, rs: seq<Response>, r: Response, server: seq<nat>)
    ensures Replay(known, rs + [r], server) == Absorb(Replay(known, rs, server), r, server)
  {
    assert (rs + [r])[..|rs|] == rs;
  }

  lemma {:induction false} ReplayAppend(known: seq<nat>, a: seq<Response>, b: seq<Response>, server: seq<nat>)
    ensures Replay(known, a + b, server) == Replay(Replay(known, a, server), b, server)
  {
    if b == [] {
      assert a + b == a;
    } else {
      var n := |b| - 1;
      ReplayAppend(known, a, b[..n], server);
      assert a + b == (a + b[..n]) + [b[n]];
      ReplayOne(known, a + b[..n], b[n], server);
    }
  }

  ghost predicate NoExists(rs: seq<Response>) {
    forall r :: r in rs ==> !r.Exists?
  }

  lemma {:induction false} ReplayWithoutExists(known: seq<nat>, rs: seq<Response>, a: seq<nat>, b: seq<nat>)
    requires NoExists(rs)
    ensures Replay(known, rs, a) == Replay(known, rs, b)
  {
    if rs != [] {
      var n := |rs| - 1;
      ReplayWithoutExists(known, rs[..n], a, b);
      assert rs[n] in rs;
    }
  }

  /** The client was told to drop entries until `after` was left of `before`. */
  ghost predicate Told(before: seq<nat>, sent: seq<Response>, after: seq<nat>) {
    NoExists(sent) && Replay(before, sent, []) == after
  }

  lemma ToldNothing(before: seq<nat>)
    ensures Told(before, [], before)
  {
  }

  lemma ToldMore(before: seq<nat>, sent: seq<Response>, view: seq<nat>, more: seq<Response>, after: seq<nat>)
    requires Told(before, sent, view) && Told(view, more, after)
    ensures Told(before, sent + more, after)
  {
    ReplayAppend(before, sent, more, []);
  }

  lemma ToldOne(view: seq<nat>, index: nat)
    requires index < |view|
    ensures Told(view, [Expunged(index + 1)], RemoveAt(view, index))
  {
    ReplayOne(view, [], Expunged(index + 1), []);
    assert [] + [Expunged(index + 1)] == [Expunged(index + 1)];
  }

  /** An answer that is neither an expunge nor a count tells the client nothing about its list. */
  lemma ToldStatus(view: seq<nat>, r: Response)
    requires !r.Exists? && !r.Expunged?
    ensures Told(view, [r], view)
  {
    ReplayOne(view, [], r, []);
    assert [] + [r] == [r];
  }

  /** A command that only dropped entries mirrors its view, whatever status line follows. */
  lemma ToldMirrors(before: seq<nat>, sent: seq<Response>, after: seq<nat>, last: Response)
    requires Told(before, sent, after) && !last.Exists? && !last.Expunged?
    ensures Mirrors(before, sent, after) && Mirrors(before, sent + [last], after)
  {
    ReplayWithoutExists(before, sent, [], after);
    ReplayOne(before, sent, last, after);
  }

  /** The part of a view whose messages still exist. */
  ghost function Kept(view: seq<nat>, f: FolderState): (kept: seq<nat>)
    ensures StrictlyAscending(kept) && forall u :: u in kept <==> u in view && u in f.messages
  {
    Sorted(set u | u in view && u in f.messages)
  }

  /** Nothing the view lacks sits below something it holds. */
  ghost predicate AppendOnly(view: seq<nat>, f: FolderState) {
    forall v, u :: v in view && u in f.messages && u !in view ==> v < u
  }

  /** A view the client can be kept in step with. */
  ghost predicate InStep(view: seq<nat>, f: FolderState) {
    && StrictlyAscending(view)
    && (forall v :: v in view ==> v < f.nextUid)
    && AppendOnly(view, f)
  }

  /**
   An EXISTS answer leaves the client with the folder's ascending UIDs exactly when every
   message it has not seen lies above every one it has.
   */
  lemma ExistsMirrorsExactly(kept: seq<nat>, f: FolderState)
    requires StrictlyAscending(kept) && forall v :: v in kept ==> v in f.messages
    ensures |kept| <= |UidsAscending(f)|
    ensures kept + UidsAscending(f)[|kept|..] == UidsAscending(f) <==> AppendOnly(kept, f)
  {
    var all := UidsAscending(f);
    AscendingIsShorter(kept, f.messages.Keys);
    ListingSize(all, f.messages.Keys);
    if AppendOnly(kept, f) {
      var missing := f.messages.Keys - (set v | v in kept);
      var tail := Sorted(missing);
      var whole := kept + tail;
      forall i, j | 0 <= i < j < |whole| ensures whole[i] < whole[j] {
        if i < |kept| <= j { assert whole[i] in kept && whole[j] in tail; }
      }
      SortedIs(whole, f.messages.Keys);
    }
    if kept + all[|kept|..] == all {
      assert forall k :: 0 <= k < |kept| ==> all[k] == kept[k];
      forall v, u | v in kept && u in f.messages && u !in kept ensures v < u {
        assert u in all;
        var i :| 0 <= i < |kept| && kept[i] == v;
        var j :| 0 <= j < |all| && all[j] == u;
      }
    }
  }

  lemma {:induction false} AscendingIsShorter(s: seq<nat>, xs: set<nat>)
    requires StrictlyAscending(s) && forall x :: x in s ==> x in xs
    ensures |s| <= |xs|
  {
    if s != [] {
      var n := |s| - 1;
      forall x | x in s[..n] ensures x in xs - {s[n]} { assert x in s; }
      AscendingIsShorter(s[..n], xs - {s[n]});
    }
  }

  // ---- what others may do between two commands ----

  /** Nothing about the folder surprises a view: what is new in it took a UID at or above the old next one. */
  ghost predicate Later(f: FolderState, g: FolderState) {
    && Coherent(g) && f.nextUid <= g.nextUid
    && forall u :: u in g.messages ==> u in f.messages || f.nextUid <= u
  }

  /** An arrival below something the view holds, at a UID the view does not know. */
  ghost predicate ArrivesBelow(view: seq<nat>, f: FolderState, step: FolderStep) {
    step.Arrival? && ArrivalUid(f, step.load) !in view && exists v :: v in view && ArrivalUid(f, step.load) < v
  }

  lemma LaterKeepsInStep(view: seq<nat>, f: FolderState, g: FolderState)
    requires InStep(view, f) && Later(f, g)
    ensures InStep(view, g)
  {
    forall v, u | v in view && u in g.messages && u !in view ensures v < u {
      assert u in f.messages || f.nextUid <= u;
    }
  }

  lemma LaterComposes(f: FolderState, g: FolderState, h: FolderState)
    requires Later(f, g) && Later(g, h)
    ensures Later(f, h)
  {
  }

  /** One outside change keeps a view in step unless it arrives below it; expunges, flags and generations are free. */
  lemma OutsideKeepsInStep(view: seq<nat>, f: FolderState, step: FolderStep)
    requires Coherent(f) && InStep(view, f)
    ensures Coherent(Apply(f, step))
    ensures InStep(view, Apply(f, step)) <==> !ArrivesBelow(view, f, step)
  {
    RunOne(f, step);
    var g := Apply(f, step);
    if ArrivesBelow(view, f, step) {
      var u := ArrivalUid(f, step.load);
      var v :| v in view && u < v;
      assert u in g.messages && u !in view;
    } else {
      forall v, u | v in view && u in g.messages && u !in view ensures v < u {
        if step.Arrival? && u == ArrivalUid(f, step.load) { assert u != v; } else { assert u in f.messages; }
      }
    }
  }

  lemma RunOne(f: FolderState, step: FolderStep)
    requires Coherent(f)
    ensures Coherent(Apply(f, step))
  {
    RunKeepsCoherent(f, [step]);
    assert [step][..0] == [];
    assert Run(f, [step]) == Apply(Run(f, []), step);
  }

  lemma FreshViewInStep(f: FolderState)
    requires Coherent(f)
    ensures InStep(UidsAscending(f), f)
  {
  }

  // ---- one command's answers, seen from the client ----

  /** After these answers a client that held the old view holds exactly the new one. */
  ghost predicate Mirrors(before: seq<nat>, answers: seq<Response>, after: seq<nat>) {
    Replay(before, answers, after) == after
  }

  /** Answers that only dropped entries compose with the flush that follows them. */
  lemma MirrorsCompose(a: seq<nat>, first: seq<Response>, b: seq<nat>, second: seq<Response>, c: seq<nat>)
    requires Told(a, first, b)
    ensures Mirrors(a, first + second, c) <==> Mirrors(b, second, c)
  {
    ReplayAppend(a, first, second, c);
    ReplayWithoutExists(a, first, [], c);
  }

  /** A status line after the answers leaves what the client holds alone. */
  lemma MirrorsStatus(a: seq<nat>, sent: seq<Response>, c: seq<nat>, last: Response)
    requires !last.Exists? && !last.Expunged?
    ensures Mirrors(a, sent + [last], c) <==> Mirrors(a, sent, c)
  {
    ReplayOne(a, sent, last, c);
  }

  lemma SelectMirrors(view: seq<nat>, last: Response)
    requires !last.Exists? && !last.Expunged?
    ensures Mirrors([], [Exists(|view|), last], view)
  {
    ReplayOne([], [], Exists(|view|), view);
    assert [] + [Exists(|view|)] == [Exists(|view|)];
    MirrorsStatus([], [Exists(|view|)], view, last);
    assert [Exists(|view|)] + [last] == [Exists(|view|), last];
  }

  /**
   Seen from the client, the reports and the arrival count of one flush end at the folder's
   listing exactly when the arrivals lie above what the view kept.
   */
  lemma ArrivalsMirror(snapshot: seq<nat>, sent: seq<Response>, kept: seq<nat>, f: FolderState)
    requires Told(snapshot, sent, kept) && StrictlyAscending(kept)
    requires (forall v :: v in kept ==> v in f.messages) && |kept| < |UidsAscending(f)|
    ensures Mirrors(snapshot, sent + [Exists(|UidsAscending(f)|)], UidsAscending(f)) <==> AppendOnly(kept, f)
  {
    var all := UidsAscending(f);
    ReplayWithoutExists(snapshot, sent, [], all);
    ReplayOne(snapshot, sent, Exists(|all|), all);
    ExistsMirrorsExactly(kept, f);
  }

  /** A connection in step never loses its client in a flush. */
  lemma InStepFlushes(view: seq<nat>, f: FolderState)
    requires InStep(view, f)
    ensures AppendOnly(Kept(view, f), f)
  {
  }

  lemma LongerListing(view: seq<nat>, f: FolderState, u: nat)
    requires StrictlyAscending(view) && (forall v :: v in view ==> v in f.messages)
    requires u in f.messages && u !in view
    ensures |view| < |UidsAscending(f)|
  {
    ListingSize(UidsAscending(f), f.messages.Keys);
    AscendingIsShorter(view, f.messages.Keys - {u});
  }

  lemma AbsorbKeeps(view: seq<nat>, n: nat, server: seq<nat>, v: nat)
    requires v in view
    ensures v in Absorb(view, Exists(n), server)
  {
    var i :| 0 <= i < |view| && view[i] == v;
    assert |view| < n <= |server| ==> (view + server[|view|..n])[i] == v;
  }

  /**
   An append to the selected folder replaces the view without reporting expunges, so the
   client follows it exactly when nothing it holds was expunged unseen.
   */
  lemma AppendMirrorsExactly(view: seq<nat>, f: FolderState, u: nat)
    requires InStep(view, f) && u in f.messages && u !in view
    ensures Mirrors(view, [Exists(|UidsAscending(f)|)], UidsAscending(f)) <==> forall v :: v in view ==> v in f.messages
  {
    var all := UidsAscending(f);
    ReplayOne(view, [], Exists(|all|), all);
    assert [] + [Exists(|all|)] == [Exists(|all|)];
    assert Replay(view, [Exists(|all|)], all) == Absorb(view, Exists(|all|), all);
    if forall v :: v in view ==> v in f.messages {
      LongerListing(view, f, u);
      ExistsMirrorsExactly(view, f);
    } else {
      var v :| v in view && v !in f.messages;
      AbsorbKeeps(view, |all|, all, v);
      assert v !in all;
    }
  }

  /**
   Any answers that mirror exactly the connections that can be followed mirror this one: it was
   in step when the command began and the command itself let nothing arrive below its view.
   */
  lemma InStepMirrors(before: seq<nat>, f: FolderState, g: FolderState, answers: seq<Response>, after: seq<nat>)
    requires InStep(before, f) && Later(f, g)
    requires Mirrors(before, answers, after) <==> AppendOnly(Kept(before, g), g)
    ensures Mirrors(before, answers, after)
  {
    LaterKeepsInStep(before, f, g);
    InStepFlushes(before, g);
  }

  /** A view that only lost messages the folder lost as well is still in step. */
  lemma RemovalsKeepInStep(view: seq<nat>, f: FolderState, after: seq<nat>, g: FolderState)
    requires InStep(view, f) && StrictlyAscending(after) && Later(f, g)
    requires forall v :: v in after ==> v in view
    requires forall v :: v in view && v !in after ==> v !in g.messages
    ensures InStep(after, g)
  {
    LaterKeepsInStep(view, f, g);
  }
}
