/**
 What STORE, COPY and MOVE do to folder values, and what those effects mean for
 single messages and for the mailbox as a whole.
 */
module ImapCommands {
  import opened Wrappers
  import opened Ascending
  import opened MailboxStore
  import opened SequenceSets
  import opened Text

  datatype Mode = Add | Remove | Replace

  function Upper(c: char): char {
    if 'a' <= c <= 'z' then ((c as int) - 32) as char else c
  }

  function UpperText(s: string): string {
    seq(|s|, i requires 0 <= i < |s| => Upper(s[i]))
  }

  function DropFlags(current: seq<string>, removed: seq<string>): (r: seq<string>)
    ensures forall x :: x in r <==> x in current && !(exists d :: d in removed && UpperText(d) == UpperText(x))
  {
    if current == [] then []
    else
      var n := |current| - 1;
      assert current == current[..n] + [current[n]];
      var head := DropFlags(current[..n], removed);
      if exists d :: d in removed && UpperText(d) == UpperText(current[n]) then head else head + [current[n]]
  }

  function NextFlags(mode: Mode, current: seq<string>, flags: seq<string>): (r: seq<string>)
    ensures mode.Add? ==> forall x :: x in r <==> x in current || x in flags
    ensures mode.Remove? ==>
      forall x :: x in r <==> x in current && forall d :: d in flags ==> UpperText(d) != UpperText(x)
    ensures mode.Replace? ==> r == flags
  {
    match mode
    case Add => Dedupe(current + flags)
    case Remove => DropFlags(current, flags)
    case Replace => flags
  }

  predicate ConditionHolds(f: FolderState, uid: nat, unchangedSince: Option<nat>)
    requires uid in f.messages
  {
    unchangedSince.None? || f.messages[uid].modseq <= unchangedSince.value
  }

  function StoreOne(f: FolderState, uid: nat, mode: Mode, flags: seq<string>,
                    unchangedSince: Option<nat>): FolderState {
    if uid in f.messages && ConditionHolds(f, uid, unchangedSince)
    then Stamp(f, uid, NextFlags(mode, f.messages[uid].flags, flags))
    else f
  }

  function StoreAll(f: FolderState, uids: seq<nat>, mode: Mode, flags: seq<string>,
                    unchangedSince: Option<nat>): FolderState {
    if uids == [] then f
    else StoreOne(StoreAll(f, uids[..|uids| - 1], mode, flags, unchangedSince), uids[|uids| - 1], mode, flags,
                  unchangedSince)
  }

  predicate IsRefused(f: FolderState, uid: nat, unchangedSince: Option<nat>) {
    uid in f.messages && !ConditionHolds(f, uid, unchangedSince)
  }

  /** The UIDs a conditional store leaves alone, in order. */
  function Refused(f: FolderState, uids: seq<nat>, unchangedSince: Option<nat>): seq<nat> {
    if uids == [] then []
    else
      var n := |uids| - 1;
      Refused(f, uids[..n], unchangedSince) + if IsRefused(f, uids[n], unchangedSince) then [uids[n]] else []
  }

  /** One message after a STORE, told from the value before it alone. */
  ghost predicate Stored(before: Message, after: Message, applies: bool, mode: Mode, flags: seq<string>, highest: nat) {
    if applies
    then after == before.(flags := NextFlags(mode, before.flags, flags), modseq := after.modseq)
        && highest < after.modseq
    else after == before
  }

  /** The folder after a STORE that addressed `uids`, told message by message. */
  ghost predicate StoreEffect(f: FolderState, g: FolderState, uids: set<nat>, mode: Mode, flags: seq<string>,
                              unchangedSince: Option<nat>) {
    && g.messages.Keys == f.messages.Keys && g.nextUid == f.nextUid && g.uidValidity == f.uidValidity
    && f.highestModseq <= g.highestModseq
    && forall u :: u in f.messages ==>
         Stored(f.messages[u], g.messages[u], u in uids && ConditionHolds(f, u, unchangedSince),
                mode, flags, f.highestModseq)
  }

  lemma StoreStep(f: FolderState, g: FolderState, uids: set<nat>, u: nat, mode: Mode, flags: seq<string>,
                  unchangedSince: Option<nat>)
    requires StoreEffect(f, g, uids, mode, flags, unchangedSince)
    requires u in f.messages && u !in uids
    ensures StoreEffect(f, StoreOne(g, u, mode, flags, unchangedSince), uids + {u}, mode, flags, unchangedSince)
  {
    assert Stored(f.messages[u], g.messages[u], false, mode, flags, f.highestModseq);
  }

  /**
   STORE reaches exactly the addressed messages whose condition held when the command began;
   every other message, and every message's content, stays as it was.
   */
  lemma {:induction false} StoreReaches(f: FolderState, uids: seq<nat>, mode: Mode, flags: seq<string>,
                                        unchangedSince: Option<nat>)
    requires StrictlyAscending(uids) && forall u :: u in uids ==> u in f.messages
    ensures StoreEffect(f, StoreAll(f, uids, mode, flags, unchangedSince), Elements(uids), mode, flags, unchangedSince)
  {
    if uids != [] {
      var n := |uids| - 1;
      forall u | u in uids[..n] ensures u in f.messages && u != uids[n] {
        assert u in uids;
      }
      StoreReaches(f, uids[..n], mode, flags, unchangedSince);
      assert uids[n] in uids;
      assert Elements(uids) == Elements(uids[..n]) + {uids[n]};
      StoreStep(f, StoreAll(f, uids[..n], mode, flags, unchangedSince), Elements(uids[..n]), uids[n], mode, flags,
                unchangedSince);
    }
  }

  lemma {:induction false} StoreKeepsCoherent(f: FolderState, uids: seq<nat>, mode: Mode, flags: seq<string>,
                                              unchangedSince: Option<nat>)
    requires Coherent(f)
    ensures Coherent(StoreAll(f, uids, mode, flags, unchangedSince))
  {
    if uids != [] {
      var n := |uids| - 1;
      var before := StoreAll(f, uids[..n], mode, flags, unchangedSince);
      StoreKeepsCoherent(f, uids[..n], mode, flags, unchangedSince);
      if uids[n] in before.messages {
        StampKeepsCoherent(before, uids[n], NextFlags(mode, before.messages[uids[n]].flags, flags));
      }
    }
  }

  /** The refused UIDs are exactly the addressed ones whose condition failed. */
  lemma {:induction false} RefusedIsExact(f: FolderState, uids: seq<nat>, unchangedSince: Option<nat>)
    ensures forall u :: u in Refused(f, uids, unchangedSince) <==> u in uids && IsRefused(f, u, unchangedSince)
    ensures |Refused(f, uids, unchangedSince)| <= |uids|
    ensures |Refused(f, uids, unchangedSince)| == |uids| <==> forall u :: u in uids ==> IsRefused(f, u, unchangedSince)
  {
    if uids != [] {
      var n := |uids| - 1;
      RefusedIsExact(f, uids[..n], unchangedSince);
      assert forall u :: u in uids <==> u in uids[..n] || u == uids[n];
    }
  }

  // ---- COPY and MOVE ----

  function CopyOne(d: FolderState, m: Message): FolderState {
    d.(nextUid := d.nextUid + 1,
       highestModseq := d.highestModseq + 1,
       messages := d.messages[d.nextUid := m.(modseq := d.highestModseq + 1)])
  }

  function CopyAll(d: FolderState, ms: seq<Message>): FolderState {
    if ms == [] then d else CopyOne(CopyAll(d, ms[..|ms| - 1]), ms[|ms| - 1])
  }

  function RemoveAll(f: FolderState, uids: seq<nat>): FolderState {
    f.(messages := f.messages - (set u | u in uids))
  }

  /** Taking one more message away, and the UIDs taken so far. */
  lemma RemoveTurn(f: FolderState, uids: seq<nat>, i: nat)
    requires i < |uids|
    ensures RemoveAll(f, uids[..i + 1]) == Without(RemoveAll(f, uids[..i]), uids[i])
    ensures forall v :: v in uids[..i + 1] <==> v in uids[..i] || v == uids[i]
  {
    assert uids[..i + 1] == uids[..i] + [uids[i]];
  }

  function PickFrom(m: map<nat, Message>, uids: seq<nat>): (ms: seq<Message>)
    requires forall u :: u in uids ==> u in m
    ensures |ms| == |uids| && forall i :: 0 <= i < |uids| ==> ms[i] == m[uids[i]]
  {
    seq(|uids|, i requires 0 <= i < |uids| => assert uids[i] in uids; m[uids[i]])
  }

  function Pick(f: FolderState, uids: seq<nat>): seq<Message>
    requires forall u :: u in uids ==> u in f.messages
  {
    PickFrom(f.messages, uids)
  }

  function NewUids(d: FolderState, count: nat): seq<nat> {
    seq(count, i => d.nextUid + i)
  }

  datatype Payload = Payload(bytes: string, flags: seq<string>, internalDate: int)

  function PayloadOf(m: Message): Payload {
    Payload(m.bytes, m.flags, m.internalDate)
  }

  /** The copies sit at consecutive fresh UIDs, in order, and nothing else in the folder changed. */
  ghost predicate CopyEffect(d: FolderState, e: FolderState, ms: seq<Message>) {
    && e.nextUid == d.nextUid + |ms|
    && e.uidValidity == d.uidValidity
    && (forall u :: u in e.messages <==> u in d.messages || d.nextUid <= u < d.nextUid + |ms|)
    && (forall u :: u in d.messages ==> e.messages[u] == d.messages[u])
    && (forall i :: 0 <= i < |ms| ==> PayloadOf(e.messages[d.nextUid + i]) == PayloadOf(ms[i]))
  }

  lemma CopyStep(d: FolderState, e: FolderState, ms: seq<Message>, m: Message)
    requires CopyEffect(d, e, ms) && forall u :: u in d.messages ==> u < d.nextUid
    ensures CopyEffect(d, CopyOne(e, m), ms + [m])
  {
  }

  lemma {:induction false} CopyAllMeans(d: FolderState, ms: seq<Message>)
    requires forall u :: u in d.messages ==> u < d.nextUid
    ensures CopyEffect(d, CopyAll(d, ms), ms)
  {
    if ms != [] {
      var n := |ms| - 1;
      CopyAllMeans(d, ms[..n]);
      CopyStep(d, CopyAll(d, ms[..n]), ms[..n], ms[n]);
      assert ms[..n] + [ms[n]] == ms;
    }
  }

  lemma {:induction false} CopyKeepsCoherent(d: FolderState, ms: seq<Message>)
    requires Coherent(d)
    ensures Coherent(CopyAll(d, ms))
  {
    if ms != [] {
      CopyKeepsCoherent(d, ms[..|ms| - 1]);
    }
  }

  /** The message contents found under the given keys, with multiplicity. */
  ghost function BagOver(m: map<nat, Message>, keys: set<nat>): multiset<Payload>
    requires keys <= m.Keys
    decreases |keys|
  {
    if keys == {} then multiset{}
    else var k := AnyKey(keys); multiset{PayloadOf(m[k])} + BagOver(m, keys - {k})
  }

  ghost function AnyKey(keys: set<nat>): nat
    requires keys != {}
    ensures AnyKey(keys) in keys
  {
    var k :| k in keys; k
  }

  /** The message contents a folder holds, with multiplicity. */
  ghost function Bag(f: FolderState): multiset<Payload> {
    BagOver(f.messages, f.messages.Keys)
  }

  ghost function BagOf(ms: seq<Message>): multiset<Payload> {
    if ms == [] then multiset{} else BagOf(ms[..|ms| - 1]) + multiset{PayloadOf(ms[|ms| - 1])}
  }

  lemma {:induction false} BagSplit(m: map<nat, Message>, keys: set<nat>, k: nat)
    requires keys <= m.Keys && k in keys
    ensures BagOver(m, keys) == multiset{PayloadOf(m[k])} + BagOver(m, keys - {k})
    decreases |keys|
  {
    var j := AnyKey(keys);
    if j != k {
      BagSplit(m, keys - {j}, k);
      BagSplit(m, keys - {k}, j);
      assert keys - {j} - {k} == keys - {k} - {j};
    }
  }

  lemma {:induction false} BagAgrees(a: map<nat, Message>, b: map<nat, Message>, keys: set<nat>)
    requires keys <= a.Keys && keys <= b.Keys
    requires forall k :: k in keys ==> PayloadOf(a[k]) == PayloadOf(b[k])
    ensures BagOver(a, keys) == BagOver(b, keys)
    decreases |keys|
  {
    if keys != {} {
      BagAgrees(a, b, keys - {AnyKey(keys)});
    }
  }

  lemma BagWithCopy(d: FolderState, m: Message)
    requires d.nextUid !in d.messages
    ensures Bag(CopyOne(d, m)) == Bag(d) + multiset{PayloadOf(m)}
  {
    var e := CopyOne(d, m);
    BagSplit(e.messages, e.messages.Keys, d.nextUid);
    assert e.messages.Keys - {d.nextUid} == d.messages.Keys;
    BagAgrees(d.messages, e.messages, d.messages.Keys);
  }

  /** COPY duplicates exactly the matched messages. */
  lemma {:induction false} CopyDuplicates(d: FolderState, ms: seq<Message>)
    requires forall u :: u in d.messages ==> u < d.nextUid
    ensures Bag(CopyAll(d, ms)) == Bag(d) + BagOf(ms)
  {
    if ms != [] {
      var n := |ms| - 1;
      CopyDuplicates(d, ms[..n]);
      CopyAllMeans(d, ms[..n]);
      BagWithCopy(CopyAll(d, ms[..n]), ms[n]);
    }
  }

  lemma {:induction false} BagDisjoint(m: map<nat, Message>, a: set<nat>, b: set<nat>)
    requires a + b <= m.Keys && a !! b
    ensures BagOver(m, a + b) == BagOver(m, a) + BagOver(m, b)
    decreases |a|
  {
    if a == {} {
      assert a + b == b;
    } else {
      var k := AnyKey(a);
      BagDisjoint(m, a - {k}, b);
      BagSplit(m, a + b, k);
      assert a + b - {k} == (a - {k}) + b;
    }
  }

  lemma LastElement(uids: seq<nat>)
    requires StrictlyAscending(uids) && uids != []
    ensures var n := |uids| - 1;
            && StrictlyAscending(uids[..n]) && uids[n] in Elements(uids)
            && Elements(uids) - {uids[n]} == Elements(uids[..n]) && Elements(uids[..n]) <= Elements(uids)
  {
    var n := |uids| - 1;
    forall u ensures u in uids[..n] <==> u in uids && u != uids[n] {
      if u in uids[..n] { assert u in uids; }
      if u in uids && u != uids[n] { assert u in uids[..n]; }
    }
  }

  lemma {:induction false} PickedBag(m: map<nat, Message>, uids: seq<nat>)
    requires StrictlyAscending(uids) && forall u :: u in uids ==> u in m
    ensures BagOf(PickFrom(m, uids)) == BagOver(m, Elements(uids))
  {
    if uids == [] {
      assert Elements(uids) == {};
    } else {
      var n := |uids| - 1;
      LastElement(uids);
      PickLast(m, uids);
      hide BagOver, BagOf, PayloadOf, PickFrom, StrictlyAscending;
      PickedBag(m, uids[..n]);
      assert Elements(uids) <= m.Keys;
      BagSplit(m, Elements(uids), uids[n]);
    }
  }

  lemma PickLast(m: map<nat, Message>, uids: seq<nat>)
    requires uids != [] && forall u :: u in uids ==> u in m
    ensures forall u :: u in uids[..|uids| - 1] ==> u in m
    ensures BagOf(PickFrom(m, uids)) ==
            BagOf(PickFrom(m, uids[..|uids| - 1])) + multiset{PayloadOf(m[uids[|uids| - 1]])}
  {
    forall u | u in uids[..|uids| - 1] ensures u in m { assert u in uids; }
    assert PickFrom(m, uids)[..|uids| - 1] == PickFrom(m, uids[..|uids| - 1]);
  }

  lemma RemoveTakes(f: FolderState, uids: seq<nat>)
    requires StrictlyAscending(uids) && forall u :: u in uids ==> u in f.messages
    ensures Bag(f) == Bag(RemoveAll(f, uids)) + BagOf(Pick(f, uids))
  {
    var g := RemoveAll(f, uids);
    var gone := Elements(uids);
    PickedBag(f.messages, uids);
    assert g.messages.Keys + gone == f.messages.Keys;
    BagDisjoint(f.messages, g.messages.Keys, gone);
    BagAgrees(f.messages, g.messages, g.messages.Keys);
  }

  /** MOVE between two folders conserves the contents of the mailbox. */
  lemma MoveConserves(source: FolderState, destination: FolderState, uids: seq<nat>)
    requires Coherent(source) && Coherent(destination)
    requires StrictlyAscending(uids) && forall u :: u in uids ==> u in source.messages
    ensures Bag(RemoveAll(source, uids)) + Bag(CopyAll(destination, Pick(source, uids))) ==
            Bag(source) + Bag(destination)
  {
    RemoveTakes(source, uids);
    CopyDuplicates(destination, Pick(source, uids));
  }

  lemma CopiesKeepOriginals(f: FolderState, ms: seq<Message>, uids: seq<nat>)
    requires Coherent(f) && forall u :: u in uids ==> u in f.messages
    ensures forall u :: u in uids ==> u in CopyAll(f, ms).messages
    ensures Pick(CopyAll(f, ms), uids) == Pick(f, uids)
  {
    CopyAllMeans(f, ms);
  }

  /** MOVE onto the folder itself renumbers the matched messages and loses none. */
  lemma MoveWithinConserves(f: FolderState, uids: seq<nat>)
    requires Coherent(f)
    requires StrictlyAscending(uids) && forall u :: u in uids ==> u in f.messages
    ensures Bag(RemoveAll(CopyAll(f, Pick(f, uids)), uids)) == Bag(f)
  {
    var picked := Pick(f, uids);
    CopiesKeepOriginals(f, picked, uids);
    CopyDuplicates(f, picked);
    RemoveTakes(CopyAll(f, picked), uids);
    Cancel(Bag(RemoveAll(CopyAll(f, picked), uids)), Bag(f), BagOf(picked));
  }

  lemma Cancel(a: multiset<Payload>, b: multiset<Payload>, c: multiset<Payload>)
    requires a + c == b + c
    ensures a == b
  {
    assert a + c - c == a && b + c - c == b;
  }

  // ---- which messages a command addresses ----

  function Positions(n: nat): (ps: seq<nat>)
    ensures |ps| == n && forall i :: 0 <= i < n ==> ps[i] == i + 1
  {
    seq(n, i => i + 1)
  }

  ghost function Identifiers(f: FolderState, byUid: bool): seq<nat> {
    if byUid then UidsAscending(f) else Positions(|UidsAscending(f)|)
  }

  function MatchedIn(uids: seq<nat>, wanted: set<nat>, byUid: bool): (r: seq<nat>)
    ensures forall u :: u in r ==> u in uids
  {
    if uids == [] then []
    else
      var n := |uids| - 1;
      var head := MatchedIn(uids[..n], wanted, byUid);
      if (if byUid then uids[n] in wanted else n + 1 in wanted) then head + [uids[n]] else head
  }

  /** The UIDs a range addresses, ascending. */
  ghost function Matched(f: FolderState, range: string, byUid: bool): (r: seq<nat>)
    ensures forall u :: u in r ==> u in f.messages
  {
    MatchedIn(UidsAscending(f), Expand(range, Identifiers(f, byUid)), byUid)
  }

  lemma {:induction false} MatchedAscends(uids: seq<nat>, wanted: set<nat>, byUid: bool)
    requires StrictlyAscending(uids)
    ensures StrictlyAscending(MatchedIn(uids, wanted, byUid))
    ensures byUid ==> forall u :: u in MatchedIn(uids, wanted, byUid) <==> u in uids && u in wanted
  {
    if uids != [] {
      var n := |uids| - 1;
      MatchedAscends(uids[..n], wanted, byUid);
      var head := MatchedIn(uids[..n], wanted, byUid);
      forall i | 0 <= i < |head| ensures head[i] < uids[n] {
        assert head[i] in head && head[i] in uids[..n];
      }
      assert forall u :: u in uids <==> u in uids[..n] || u == uids[n];
    }
  }

  lemma {:induction false} MatchedByPosition(uids: seq<nat>, wanted: set<nat>, byUid: bool)
    requires StrictlyAscending(uids)
    ensures forall k :: 0 <= k < |uids| ==>
              (uids[k] in MatchedIn(uids, wanted, byUid) <==> (if byUid then uids[k] else k + 1) in wanted)
  {
    if uids != [] {
      var n := |uids| - 1;
      MatchedByPosition(uids[..n], wanted, byUid);
      assert forall k :: 0 <= k < n ==> uids[..n][k] == uids[k] && uids[k] != uids[n];
    }
  }

  /**
   Whether a range addresses the message at position `k`, counted from zero, of the ascending
   listing: by its UID, or by its number counted from one.
   */
  ghost predicate Addressed(f: FolderState, range: string, byUid: bool, k: nat) {
    var uids := UidsAscending(f);
    k < |uids| && if byUid then uids[k] in Expand(range, uids) else k + 1 in Expand(range, Positions(|uids|))
  }

  /** The matched messages are exactly the addressed positions. */
  lemma MatchedIsAddressed(f: FolderState, range: string, byUid: bool)
    ensures forall k :: 0 <= k < |UidsAscending(f)| ==>
              (UidsAscending(f)[k] in Matched(f, range, byUid) <==> Addressed(f, range, byUid, k))
    ensures StrictlyAscending(Matched(f, range, byUid))
  {
    MatchedByPosition(UidsAscending(f), Expand(range, Identifiers(f, byUid)), byUid);
    MatchedAscends(UidsAscending(f), Expand(range, Identifiers(f, byUid)), byUid);
  }

  /** STORE, told position by position: what is addressed and meets its condition changes, nothing else does. */
  ghost predicate StoredByPosition(f: FolderState, g: FolderState, range: string, byUid: bool, mode: Mode,
                                   flags: seq<string>, unchangedSince: Option<nat>) {
    && g.messages.Keys == f.messages.Keys && g.nextUid == f.nextUid && g.uidValidity == f.uidValidity
    && forall k :: 0 <= k < |UidsAscending(f)| ==>
         var u := UidsAscending(f)[k];
         && u in f.messages
         && Stored(f.messages[u], g.messages[u],
                   Addressed(f, range, byUid, k)
                       && (unchangedSince.None? || f.messages[u].modseq <= unchangedSince.value),
                   mode, flags, f.highestModseq)
  }

  lemma StoreReachesPositions(f: FolderState, range: string, byUid: bool, mode: Mode, flags: seq<string>,
                              unchangedSince: Option<nat>)
    ensures StoredByPosition(f, StoreAll(f, Matched(f, range, byUid), mode, flags, unchangedSince), range, byUid, mode,
                             flags, unchangedSince)
  {
    hide Matched, Addressed, StoreAll, Stored;
    var matched := Matched(f, range, byUid);
    MatchedIsAddressed(f, range, byUid);
    StoreReaches(f, matched, mode, flags, unchangedSince);
    var g := StoreAll(f, matched, mode, flags, unchangedSince);
    forall k | 0 <= k < |UidsAscending(f)|
      ensures var u := UidsAscending(f)[k];
              && u in f.messages
              && Stored(f.messages[u], g.messages[u],
                        Addressed(f, range, byUid, k)
                            && (unchangedSince.None? || f.messages[u].modseq <= unchangedSince.value),
                        mode, flags, f.highestModseq)
    {
      var u := UidsAscending(f)[k];
      assert u in UidsAscending(f) && u in f.messages;
      assert u in Elements(matched) <==> Addressed(f, range, byUid, k);
    }
  }

  /** What a MOVE leaves of its folder: exactly the positions that were not addressed. */
  lemma MoveTakesPositions(f: FolderState, range: string, byUid: bool)
    ensures forall k :: 0 <= k < |UidsAscending(f)| ==>
              (UidsAscending(f)[k] in RemoveAll(f, Matched(f, range, byUid)).messages <==>
                  !Addressed(f, range, byUid, k))
  {
    hide Matched, Addressed;
    MatchedIsAddressed(f, range, byUid);
    forall k | 0 <= k < |UidsAscending(f)| ensures UidsAscending(f)[k] in f.messages {
      assert UidsAscending(f)[k] in UidsAscending(f);
    }
  }

  /** How many of the first `k` positions a range addresses. */
  ghost function AddressedBefore(f: FolderState, range: string, byUid: bool, k: nat): nat {
    if k == 0 then 0
    else AddressedBefore(f, range, byUid, k - 1) + if Addressed(f, range, byUid, k - 1) then 1 else 0
  }

  /** An addressed message stands among the matched ones after the addressed messages below it. */
  lemma {:induction false} MatchedAtItsRank(f: FolderState, range: string, byUid: bool, n: nat)
    requires n <= |UidsAscending(f)|
    ensures var uids := UidsAscending(f);
            var matched := MatchedIn(uids[..n], Expand(range, Identifiers(f, byUid)), byUid);
            && |matched| == AddressedBefore(f, range, byUid, n)
            && forall k :: 0 <= k < n && Addressed(f, range, byUid, k) ==>
                 AddressedBefore(f, range, byUid, k) < |matched|
                 && matched[AddressedBefore(f, range, byUid, k)] == uids[k]
  {
    if n > 0 {
      hide Expand, Sorted;
      MatchedAtItsRank(f, range, byUid, n - 1);
      var uids := UidsAscending(f);
      assert uids[..n][..n - 1] == uids[..n - 1];
    }
  }

  /**
   The copies of a COPY or MOVE, told position by position: the message at an addressed position
   is copied to the next UID plus the number of addressed positions below it, and nothing else
   in the destination is new or different.
   */
  ghost predicate CopiedByPosition(f: FolderState, d: FolderState, e: FolderState, range: string, byUid: bool) {
    var uids := UidsAscending(f);
    && e.uidValidity == d.uidValidity && e.nextUid == d.nextUid + AddressedBefore(f, range, byUid, |uids|)
    && (forall k :: 0 <= k < |uids| && Addressed(f, range, byUid, k) ==>
          var copy := d.nextUid + AddressedBefore(f, range, byUid, k);
          && copy in e.messages && uids[k] in f.messages
          && PayloadOf(e.messages[copy]) == PayloadOf(f.messages[uids[k]]))
    && (forall u :: u in e.messages <==> u in d.messages || d.nextUid <= u < e.nextUid)
    && (forall u :: u in d.messages ==> e.messages[u] == d.messages[u])
  }

  lemma CopyReachesPositions(f: FolderState, d: FolderState, range: string, byUid: bool)
    requires Coherent(d)
    ensures CopiedByPosition(f, d, CopyAll(d, Pick(f, Matched(f, range, byUid))), range, byUid)
  {
    hide Addressed, PayloadOf, Expand, CopyAll, AddressedBefore;
    var uids := UidsAscending(f);
    assert uids[..|uids|] == uids;
    MatchedAtItsRank(f, range, byUid, |uids|);
    CopyAllMeans(d, Pick(f, Matched(f, range, byUid)));
    forall k | 0 <= k < |uids| ensures uids[k] in f.messages { assert uids[k] in uids; }
  }

  /** A MOVE within one folder: the message at an addressed position is at its new UID alone, every other stays. */
  ghost predicate MovedWithinByPosition(f: FolderState, g: FolderState, range: string, byUid: bool) {
    var uids := UidsAscending(f);
    && g.uidValidity == f.uidValidity && g.nextUid == f.nextUid + AddressedBefore(f, range, byUid, |uids|)
    && (forall k :: 0 <= k < |uids| && Addressed(f, range, byUid, k) ==>
          var copy := f.nextUid + AddressedBefore(f, range, byUid, k);
          && uids[k] !in g.messages && copy in g.messages && uids[k] in f.messages
          && PayloadOf(g.messages[copy]) == PayloadOf(f.messages[uids[k]]))
    && (forall k :: 0 <= k < |uids| && !Addressed(f, range, byUid, k) ==>
          uids[k] in g.messages && uids[k] in f.messages && g.messages[uids[k]] == f.messages[uids[k]])
    && (forall u :: u in g.messages ==> u in f.messages || f.nextUid <= u < g.nextUid)
  }

  lemma MoveWithinReachesPositions(f: FolderState, range: string, byUid: bool)
    requires Coherent(f)
    ensures var matched := Matched(f, range, byUid);
            MovedWithinByPosition(f, RemoveAll(CopyAll(f, Pick(f, matched)), matched), range, byUid)
  {
    hide Addressed, PayloadOf, CopyAll, AddressedBefore, Matched;
    var matched := Matched(f, range, byUid);
    CopyReachesPositions(f, f, range, byUid);
    MatchedIsAddressed(f, range, byUid);
    forall k | 0 <= k < |UidsAscending(f)| ensures UidsAscending(f)[k] in f.messages {
      assert UidsAscending(f)[k] in UidsAscending(f);
    }
  }

  /**
   The UIDs a COPY or MOVE reports, read back in order from the two range texts, pair every
   matched message with the copy that holds its content.
   */
  lemma CopyUidNamesTheCopies(source: FolderState, destination: FolderState, uids: seq<nat>)
    requires Coherent(source) && Coherent(destination)
    requires uids != [] && StrictlyAscending(uids) && forall u :: u in uids ==> u in source.messages
    ensures var after := CopyAll(destination, Pick(source, uids));
            var from := Sorted(Expand(RangesText(uids), UidsAscending(source)));
            var to := Sorted(Expand(RangesText(NewUids(destination, |uids|)), UidsAscending(after)));
            && from == uids && |to| == |from|
            && forall i :: 0 <= i < |from| ==> HoldsCopy(source, destination, after, from[i], to[i])
  {
    var after := CopyAll(destination, Pick(source, uids));
    CopiesHold(source, destination, uids);
    CopyUidPairs(uids, NewUids(destination, |uids|), UidsAscending(source), UidsAscending(after));
  }

  lemma CopyHolds(source: FolderState, destination: FolderState, uids: seq<nat>, i: nat)
    requires forall u :: u in destination.messages ==> u < destination.nextUid
    requires (forall u :: u in uids ==> u in source.messages) && i < |uids|
    ensures HoldsCopy(source, destination, CopyAll(destination, Pick(source, uids)), uids[i], destination.nextUid + i)
  {
    CopyAllMeans(destination, Pick(source, uids));
    assert uids[i] in uids;
  }

  lemma CopiesHold(source: FolderState, destination: FolderState, uids: seq<nat>)
    requires forall u :: u in destination.messages ==> u < destination.nextUid
    requires forall u :: u in uids ==> u in source.messages
    ensures var after := CopyAll(destination, Pick(source, uids));
            var copies := NewUids(destination, |uids|);
            && (forall i :: 0 <= i < |uids| ==> HoldsCopy(source, destination, after, uids[i], copies[i]))
            && (forall u :: u in copies ==> u in UidsAscending(after))
  {
    var after := CopyAll(destination, Pick(source, uids));
    var copies := NewUids(destination, |uids|);
    forall i | 0 <= i < |uids| ensures HoldsCopy(source, destination, after, uids[i], copies[i]) {
      CopyHolds(source, destination, uids, i);
    }
    forall i | 0 <= i < |copies| ensures copies[i] in UidsAscending(after) {
      CopyHolds(source, destination, uids, i);
    }
  }

  /** The message at `to` is a new one in the destination and has the content of the one at `from`. */
  ghost predicate HoldsCopy(source: FolderState, destination: FolderState, after: FolderState, from: nat, to: nat) {
    && from in source.messages && to in after.messages && to !in destination.messages
    && PayloadOf(after.messages[to]) == PayloadOf(source.messages[from])
  }
}
