/** Reply addressing: message identifiers, frozen references, the From identity and the recipient lists. */
module Reply {
  import opened Text
  import opened Wrappers

  datatype Address = Address(address: string, name: Option<string>)

  datatype Recipients = Recipients(to: seq<Address>, cc: seq<Address>)

  /** `replyTo` is absent, or present and then empty when it was malformed. */
  datatype Parent = Parent(sender: Option<Address>, replyTo: Option<seq<Address>>, recipients: Option<Recipients>)

  datatype Mode = ReplyOne | ReplyAll

  datatype Problem = RecipientsRequired

  // ---- message identifiers ----

  predicate IdChar(c: char) {
    !IsSpace(c) && c != '<' && c != '>'
  }

  /** A bracketed identifier: something between angle brackets, without white space or brackets. */
  predicate ValidId(s: string) {
    |s| > 2 && s[0] == '<' && s[|s| - 1] == '>' && forall k :: 0 < k < |s| - 1 ==> IdChar(s[k])
  }

  function RunLength(s: string): (n: nat)
    ensures n <= |s| && (forall k :: 0 <= k < n ==> IdChar(s[k])) && (n < |s| ==> !IdChar(s[n]))
  {
    if s != "" && IdChar(s[0]) then 1 + RunLength(s[1..]) else 0
  }

  /** The length of the identifier at the head of `s`, or 0. */
  function IdLength(s: string): (n: nat)
    ensures n <= |s| && (n > 0 ==> ValidId(s[..n]))
  {
    if s == "" || s[0] != '<' then 0
    else
      var run := RunLength(s[1..]);
      if run > 0 && run + 1 < |s| && s[run + 1] == '>' then
        assert forall k :: 0 <= k < run ==> s[k + 1] == s[1..][k];
        run + 2
      else 0
  }

  /** Every identifier from left to right, not overlapping. */
  function Matches(s: string): (ids: seq<string>)
    ensures forall id :: id in ids ==> ValidId(id)
    decreases |s|
  {
    if s == "" then []
    else if IdLength(s) > 0 then [s[..IdLength(s)]] + Matches(s[IdLength(s)..])
    else Matches(s[1..])
  }

  /** The valid identifiers of one header value, each once, in order. */
  function Extracted(raw: Option<string>): seq<string> {
    if raw.None? then [] else Dedupe(Matches(raw.value))
  }

  lemma DedupeAppend(ids: seq<string>, id: string)
    ensures Dedupe(ids + [id]) == if id in ids then Dedupe(ids) else Dedupe(ids) + [id]
    ensures Dedupe([]) == []
  {
    assert (ids + [id])[..|ids|] == ids;
  }

  lemma HeadMatch(s: string)
    requires s != ""
    ensures IdLength(s) <= |s|
    ensures Matches(s) == if IdLength(s) > 0 then [s[..IdLength(s)]] + Matches(s[IdLength(s)..]) else Matches(s[1..])
  {
    hide IdLength, ValidId;
  }

  /** One turn of the scan at a position. */
  lemma MatchTurn(s: string, position: nat)
    requires position < |s|
    ensures var n := IdLength(s[position..]);
            && position + n <= |s|
            && Matches(s[position..]) ==
               if n > 0 then [s[position..position + n]] + Matches(s[position + n..]) else Matches(s[position + 1..])
  {
    hide IdLength, ValidId, Matches;
    var t := s[position..];
    var n := IdLength(t);
    HeadMatch(t);
    assert t[..n] == s[position..position + n] && t[n..] == s[position + n..] && t[1..] == s[position + 1..];
  }

  method ExtractValidMessageIds(raw: Option<string>) returns (ids: seq<string>)
    ensures ids == Extracted(raw)
  {
    hide IdLength, Dedupe, ValidId, Matches;
    ids := [];
    if raw.None? { return; }
    var s, position := raw.value, 0;
    ghost var found: seq<string> := [];
    assert s[0..] == s;
    DedupeAppend([], s);
    while position < |s|
      invariant position <= |s| && ids == Dedupe(found) && found + Matches(s[position..]) == Matches(s)
    {
      MatchTurn(s, position);
      var n := IdLength(s[position..]);
      if n > 0 {
        var id := s[position..position + n];
        DedupeAppend(found, id);
        if id !in ids { ids := ids + [id]; }
        assert found + ([id] + Matches(s[position + n..])) == found + [id] + Matches(s[position + n..]);
        found := found + [id];
        position := position + n;
      } else {
        position := position + 1;
      }
    }
    NoMatches();
    assert s[position..] == "" && found == Matches(s);
  }

  lemma NoMatches()
    ensures Matches("") == []
  {
  }

  function PrintIds(ids: seq<string>): string {
    if ids == [] then "" else if |ids| == 1 then ids[0] else ids[0] + " " + PrintIds(ids[1..])
  }

  lemma IdAtHead(id: string, rest: string)
    requires ValidId(id)
    ensures IdLength(id + rest) == |id|
  {
    var s := id + rest;
    var run := RunLength(s[1..]);
    assert forall k :: 0 <= k < |s| - 1 ==> s[1..][k] == s[k + 1];
    assert forall k :: 0 <= k < |id| ==> s[k] == id[k];
    assert forall k :: 0 <= k < |id| - 2 ==> IdChar(s[1..][k]) by {
      assert forall k :: 0 < k < |id| - 1 ==> IdChar(id[k]);
      assert forall k :: 0 <= k < |id| - 2 ==> s[1..][k] == id[k + 1];
    }
    assert !IdChar(s[1..][|id| - 2]);
  }

  lemma {:induction false} PrintedMatches(ids: seq<string>)
    requires forall id :: id in ids ==> ValidId(id)
    ensures Matches(PrintIds(ids)) == ids
  {
    if ids != [] {
      var rest := if |ids| == 1 then "" else " " + PrintIds(ids[1..]);
      var s := PrintIds(ids);
      assert s == ids[0] + rest;
      IdAtHead(ids[0], rest);
      assert s[|ids[0]|..] == rest && s[..|ids[0]|] == ids[0];
      if |ids| > 1 {
        assert rest[1..] == PrintIds(ids[1..]) && IdLength(rest) == 0;
        PrintedMatches(ids[1..]);
      } else {
        assert ids == [ids[0]];
      }
    }
  }

  lemma {:induction false} DedupeDistinct(ids: seq<string>)
    requires forall i, j :: 0 <= i < j < |ids| ==> ids[i] != ids[j]
    ensures Dedupe(ids) == ids
  {
    if ids != [] {
      DedupeDistinct(ids[..|ids| - 1]);
      assert ids[..|ids| - 1] + [ids[|ids| - 1]] == ids;
    }
  }

  /** An identifier stands at `i` of a header. */
  ghost predicate IdAt(s: string, i: nat, id: string) {
    i + |id| <= |s| && s[i..i + |id|] == id && ValidId(id)
  }

  lemma IdLengthFinds(s: string, id: string)
    requires IdAt(s, 0, id)
    ensures IdLength(s) == |id|
  {
    assert s == id + s[|id|..];
    IdAtHead(id, s[|id|..]);
  }

  /** Extraction misses no identifier of a header and invents none. */
  lemma {:induction false} MatchesAreAll(s: string)
    ensures forall id :: id in Matches(s) <==> exists i: nat :: IdAt(s, i, id)
    decreases |s|
  {
    forall id | id in Matches(s) ensures exists i: nat :: IdAt(s, i, id) {
      MatchStands(s, id);
    }
    forall id, i: nat | IdAt(s, i, id) ensures id in Matches(s) {
      NoneMissed(s, i, id);
    }
  }

  lemma {:induction false} MatchStands(s: string, id: string)
    requires id in Matches(s)
    ensures exists i: nat :: IdAt(s, i, id)
    decreases |s|
  {
    hide ValidId, Matches, IdLength;
    if s == "" { NoMatches(); }
    HeadMatch(s);
    var n := IdLength(s);
    if n > 0 && id == s[..n] {
      assert IdAt(s, 0, id);
    } else {
      var skip := if n > 0 then n else 1;
      MatchStands(s[skip..], id);
      var i: nat :| IdAt(s[skip..], i, id);
      assert s[skip + i..skip + i + |id|] == s[skip..][i..i + |id|];
      assert IdAt(s, skip + i, id);
    }
  }

  lemma OneBracketOpens(s: string, n: nat)
    requires n <= |s| && ValidId(s[..n])
    ensures forall i :: 0 < i < n ==> s[i] != '<'
  {
    assert forall i :: 0 <= i < n ==> s[i] == s[..n][i];
  }

  lemma {:induction false} NoneMissed(s: string, i: nat, id: string)
    requires IdAt(s, i, id)
    ensures id in Matches(s)
    decreases |s|
  {
    hide IdLength, Matches;
    HeadMatch(s);
    var n := IdLength(s);
    if i == 0 {
      IdLengthFinds(s, id);
    } else {
      assert s[i] == id[0] == '<';
      if n > 0 { OneBracketOpens(s, n); }
      var skip := if n > 0 then n else 1;
      assert s[skip..][i - skip..i - skip + |id|] == s[i..i + |id|];
      NoneMissed(s[skip..], i - skip, id);
    }
  }

  /** Printing the identifiers of a header with spaces and extracting again gives the same list. */
  lemma ExtractUndoesPrint(raw: string)
    ensures var ids := Dedupe(Matches(raw)); Dedupe(Matches(PrintIds(ids))) == ids
  {
    var ids := Dedupe(Matches(raw));
    PrintedMatches(ids);
    DedupeDistinct(ids);
  }

  // ---- frozen references ----

  function Single(ids: seq<string>): Option<string> {
    if |ids| == 1 then Some(ids[0]) else None
  }

  function FlatExtracted(raws: seq<string>): seq<string> {
    if raws == [] then [] else FlatExtracted(raws[..|raws| - 1]) + Dedupe(Matches(raws[|raws| - 1]))
  }

  /** The parent's references, or its single In-Reply-To when it has none. */
  function Ancestors(referenceIds: seq<string>, inReplyTo: Option<string>): seq<string> {
    var references := Dedupe(FlatExtracted(referenceIds));
    if references != [] then references
    else if Single(Extracted(inReplyTo)).Some? then [Single(Extracted(inReplyTo)).value] else []
  }

  lemma {:induction false} FlatIsValid(raws: seq<string>)
    ensures forall id :: id in FlatExtracted(raws) ==> ValidId(id)
  {
    hide ValidId;
    if raws != [] { FlatIsValid(raws[..|raws| - 1]); }
  }

  /** The references of a parent are all the identifiers its headers hold. */
  lemma {:induction false} FlatIsAll(raws: seq<string>)
    ensures forall id :: id in FlatExtracted(raws) <==> exists k :: 0 <= k < |raws| && id in Matches(raws[k])
  {
    hide Matches, Dedupe;
    if raws != [] {
      var n := |raws| - 1;
      FlatIsAll(raws[..n]);
      forall id ensures id in FlatExtracted(raws) <==> exists k :: 0 <= k < |raws| && id in Matches(raws[k]) {
        if id in FlatExtracted(raws[..n]) {
          var k :| 0 <= k < n && id in Matches(raws[..n][k]);
          assert id in Matches(raws[k]);
        }
        if k :| 0 <= k < |raws| && id in Matches(raws[k]) {
          if k < n { assert id in Matches(raws[..n][k]); }
        }
      }
    }
  }

  method CollectReferences(referenceIds: seq<string>) returns (references: seq<string>)
    ensures references == Dedupe(FlatExtracted(referenceIds))
  {
    hide ValidId, Matches, Dedupe;
    var flat: seq<string> := [];
    for k := 0 to |referenceIds|
      invariant flat == FlatExtracted(referenceIds[..k])
    {
      assert referenceIds[..k + 1][..k] == referenceIds[..k];
      var ids := ExtractValidMessageIds(Some(referenceIds[k]));
      flat := flat + ids;
    }
    assert referenceIds[..|referenceIds|] == referenceIds;
    references := Dedupe(flat);
  }

  lemma AncestorsAreValid(referenceIds: seq<string>, inReplyTo: Option<string>)
    ensures forall id :: id in Ancestors(referenceIds, inReplyTo) ==> ValidId(id)
    ensures Dedupe(Ancestors(referenceIds, inReplyTo)) == Ancestors(referenceIds, inReplyTo)
  {
    hide ValidId, Matches;
    FlatIsValid(referenceIds);
    DedupeDistinct(Ancestors(referenceIds, inReplyTo));
  }

  /**
   Freeze the reply headers: every identifier is valid and comes from the parent, none repeats,
   the ancestors keep their order, and the parent's own identifier closes the chain unless it
   already stands among them.
   */
  method FreezeReplyReferences(messageId: Option<string>, inReplyTo: Option<string>, referenceIds: seq<string>)
    returns (own: Option<string>, chain: seq<string>)
    ensures own == Single(Extracted(messageId))
    ensures var ancestors := Ancestors(referenceIds, inReplyTo);
            chain == if own.Some? && own.value !in ancestors then ancestors + [own.value] else ancestors
    ensures forall i, j :: 0 <= i < j < |chain| ==> chain[i] != chain[j]
    ensures forall id :: id in chain ==> ValidId(id)
    ensures own.Some? ==> own.value in chain
  {
    hide ValidId, Matches, FlatExtracted, Dedupe;
    var ownIds := ExtractValidMessageIds(messageId);
    own := if |ownIds| == 1 then Some(ownIds[0]) else None;
    var references := CollectReferences(referenceIds);
    var replyIds := ExtractValidMessageIds(inReplyTo);
    var ancestors := if |references| > 0 then references else if |replyIds| == 1 then [replyIds[0]] else [];
    assert ancestors == Ancestors(referenceIds, inReplyTo);
    AncestorsAreValid(referenceIds, inReplyTo);
    assert own.Some? ==> own.value in Extracted(messageId);
    if own.Some? {
      DedupeAppend(ancestors, own.value);
      chain := Dedupe(ancestors + [own.value]);
    } else {
      chain := ancestors;
    }
  }

  // ---- recipients ----

  /** Addresses compare trimmed and without case. */
  function AddressKey(address: string): string {
    Lower(Trim(address))
  }

  /** One mailbox, whatever the case of its letters and the white space around it. */
  lemma KeyIgnoresCase(a: string, b: string)
    ensures AddressKey(a) == AddressKey(b) <==>
            |Trim(a)| == |Trim(b)| && forall k :: 0 <= k < |Trim(a)| ==> SameLetter(Trim(a)[k], Trim(b)[k])
  {
    LowerIgnoresCase(Trim(a), Trim(b));
  }

  function Keys(addresses: seq<Address>): set<string> {
    set k | 0 <= k < |addresses| :: addresses[k].address
  }

  function SourceKeys(entries: seq<Address>): set<string> {
    set k | 0 <= k < |entries| :: AddressKey(entries[k].address)
  }

  predicate AllUsable(entries: seq<Address>, usable: string -> bool) {
    forall k :: 0 <= k < |entries| ==> usable(AddressKey(entries[k].address))
  }

  /** The new, foreign addresses of a list: each at its first occurrence, in order. */
  function Kept(entries: seq<Address>, own: set<string>, earlier: set<string>,
                nameOf: Option<string> -> Option<string>): (r: seq<Address>)
    ensures |r| <= |entries|
  {
    if entries == [] then []
    else
      var n := |entries| - 1;
      var rest := Kept(entries[..n], own, earlier, nameOf);
      var key := AddressKey(entries[n].address);
      if key in own || key in earlier || key in Keys(rest) then rest else rest + [Address(key, nameOf(entries[n].name))]
  }

  /** The first entry that names a key. */
  predicate FirstNames(entries: seq<Address>, k: nat, key: string) {
    k < |entries| && AddressKey(entries[k].address) == key && forall j :: 0 <= j < k ==>
        AddressKey(entries[j].address) != key
  }

  /** Kept addresses are exactly the foreign, not yet placed ones, once each, in the order they first appear. */
  ghost predicate KeptExactly(entries: seq<Address>, own: set<string>, earlier: set<string>, r: seq<Address>) {
    && Keys(r) == SourceKeys(entries) - own - earlier
    && (forall i, j :: 0 <= i < j < |r| ==> r[i].address != r[j].address)
    && (forall i, j, a: nat, b: nat ::
          0 <= i < j < |r| && FirstNames(entries, a, r[i].address) && FirstNames(entries, b, r[j].address) ==> a < b)
  }

  lemma FirstInPrefix(entries: seq<Address>, n: nat, a: nat, key: string)
    requires n <= |entries| && FirstNames(entries, a, key) && key in SourceKeys(entries[..n])
    ensures a < n && FirstNames(entries[..n], a, key)
  {
    var k :| 0 <= k < n && AddressKey(entries[..n][k].address) == key;
    assert AddressKey(entries[k].address) == key;
  }

  lemma FirstBehind(entries: seq<Address>, n: nat, b: nat, key: string)
    requires n <= |entries| && FirstNames(entries, b, key) && key !in SourceKeys(entries[..n])
    ensures n <= b
  {
    assert forall q: nat :: q < n ==> AddressKey(entries[..n][q].address) in SourceKeys(entries[..n]);
    assert forall q: nat :: q < n ==> entries[..n][q] == entries[q];
  }

  lemma {:induction false} KeptIsExact(entries: seq<Address>, own: set<string>, earlier: set<string>,
                                       nameOf: Option<string> -> Option<string>)
    ensures KeptExactly(entries, own, earlier, Kept(entries, own, earlier, nameOf))
  {
    hide AddressKey;
    if entries != [] {
      var n := |entries| - 1;
      var head := entries[..n];
      KeptIsExact(head, own, earlier, nameOf);
      var rest, all := Kept(head, own, earlier, nameOf), Kept(entries, own, earlier, nameOf);
      var key := AddressKey(entries[n].address);
      SourceKeysAppend(entries);
      forall i, j, a: nat, b: nat | 0 <= i < j < |all| && FirstNames(entries, a, all[i].address)
          && FirstNames(entries, b, all[j].address)
        ensures a < b
      {
        assert rest[i].address in Keys(rest);
        FirstInPrefix(entries, n, a, all[i].address);
        if j < |rest| {
          assert rest[j].address in Keys(rest);
          FirstInPrefix(entries, n, b, all[j].address);
        } else {
          FirstBehind(entries, n, b, key);
        }
      }
      KeysAppend(rest, key, nameOf(entries[n].name));
    }
  }

  lemma SourceKeysAppend(entries: seq<Address>)
    requires entries != []
    ensures SourceKeys(entries) == SourceKeys(entries[..|entries| - 1]) + {AddressKey(entries[|entries| - 1].address)}
  {
    var n := |entries| - 1;
    forall x | x in SourceKeys(entries) ensures x in SourceKeys(entries[..n]) + {AddressKey(entries[n].address)} {
      var k :| 0 <= k < |entries| && AddressKey(entries[k].address) == x;
      if k < n { assert AddressKey(entries[..n][k].address) == x; }
    }
    forall x | x in SourceKeys(entries[..n]) ensures x in SourceKeys(entries) {
      var k :| 0 <= k < n && AddressKey(entries[..n][k].address) == x;
      assert AddressKey(entries[k].address) == x;
    }
  }

  lemma KeysAppend(r: seq<Address>, key: string, name: Option<string>)
    ensures Keys(r + [Address(key, name)]) == Keys(r) + {key}
  {
    var t := r + [Address(key, name)];
    assert t[|r|].address == key;
    forall k | 0 <= k < |r| ensures t[k] == r[k] { }
  }

  method UsableAddresses(entries: seq<Address>, own: set<string>, earlier: seq<Address>,
                         usable: string -> bool, nameOf: Option<string> -> Option<string>)
    returns (r: Result<seq<Address>, Problem>)
    ensures r.Ok? <==> AllUsable(entries, usable)
    ensures r.Ok? ==> r.value == Kept(entries, own, Keys(earlier), nameOf)
  {
    hide AddressKey;
    var seen := Keys(earlier);
    var addresses: seq<Address> := [];
    for k := 0 to |entries|
      invariant addresses == Kept(entries[..k], own, Keys(earlier), nameOf)
      invariant seen == Keys(earlier) + Keys(addresses)
      invariant forall j :: 0 <= j < k ==> usable(AddressKey(entries[j].address))
    {
      assert entries[..k + 1][..k] == entries[..k];
      var address := AddressKey(entries[k].address);
      if !usable(address) { return Err(RecipientsRequired); }
      if address in own || address in seen { continue; }
      seen := seen + {address};
      KeysAppend(addresses, address, nameOf(entries[k].name));
      addresses := addresses + [Address(address, nameOf(entries[k].name))];
    }
    assert entries[..|entries|] == entries;
    return Ok(addresses);
  }

  predicate SenderIsOwn(p: Parent, own: set<string>) {
    p.sender.Some? && AddressKey(p.sender.value.address) in own
  }

  function Visible(p: Parent): Recipients {
    if p.recipients.Some? then p.recipients.value else Recipients([], [])
  }

  /** Where To comes from; a Reply-To that is there but empty must be corrected. */
  function ToSource(p: Parent, own: set<string>): Option<seq<Address>> {
    if SenderIsOwn(p, own) then Some(Visible(p).to)
    else if p.replyTo.None? then Some(if p.sender.Some? then [p.sender.value] else [])
    else if p.replyTo.value == [] then None
    else Some(p.replyTo.value)
  }

  function CcSource(p: Parent, own: set<string>, mode: Mode): seq<Address> {
    if SenderIsOwn(p, own) then Visible(p).cc
    else if mode.ReplyOne? then []
    else Visible(p).to + Visible(p).cc
  }

  /** The addresses somebody sees on a message. */
  function SeenIn(p: Parent, cc: bool): seq<Address> {
    if p.recipients.None? then [] else if cc then p.recipients.value.cc else p.recipients.value.to
  }

  /**
   Who a reply goes to. To oneself: the recipients of the message answered, To as To and Cc as
   Cc, in either mode. To somebody else: his Reply-To if he set one, otherwise himself; and a
   reply to all copies every recipient of the message. It is refused outright exactly when the
   Reply-To of somebody else is there and empty.
   */
  lemma ReplyGoesTo(p: Parent, own: set<string>, mode: Mode)
    ensures var mine := p.sender.Some? && Lower(Trim(p.sender.value.address)) in own;
            var to, cc := ToSource(p, own), CcSource(p, own, mode);
            && (to.None? <==> !mine && p.replyTo == Some([]))
            && (mine ==> to == Some(SeenIn(p, false)) && cc == SeenIn(p, true))
            && (!mine && to.Some? ==>
                  if p.replyTo.Some? then to == p.replyTo
                  else SourceKeys(to.value) ==
                       if p.sender.Some? then {Lower(Trim(p.sender.value.address))} else {})
            && (!mine && mode.ReplyOne? ==> cc == [])
            && (!mine && mode.ReplyAll? ==> cc == SeenIn(p, false) + SeenIn(p, true))
  {
    var to := ToSource(p, own);
    if to.Some? && p.sender.Some? && to.value == [p.sender.value] {
      assert to.value[0] == p.sender.value;
      assert SourceKeys(to.value) == {AddressKey(p.sender.value.address)};
    }
  }

  lemma NobodyLeft(toSource: seq<Address>, ccSource: seq<Address>, own: set<string>, r: Recipients)
    requires KeptExactly(toSource, own, {}, r.to) && KeptExactly(ccSource, own, Keys(r.to), r.cc)
    ensures r.to + r.cc == [] <==> SourceKeys(toSource) + SourceKeys(ccSource) - own == {}
  {
    DerivationIsExact(toSource, ccSource, own, r);
    if r.to != [] { assert r.to[0].address in Keys(r.to); }
    if r.cc != [] { assert r.cc[0].address in Keys(r.cc); }
    assert r.to + r.cc == [] <==> r.to == [] && r.cc == [];
  }

  /**
   Derive the recipient lists: refused exactly when the Reply-To must be corrected, some source
   address cannot be sent to, or nobody is left.
   */
  method DeriveReplyRecipients(p: Parent, identities: seq<string>, mode: Mode,
                               usable: string -> bool, nameOf: Option<string> -> Option<string>)
    returns (r: Result<Recipients, Problem>)
    ensures var own := set k | 0 <= k < |identities| :: AddressKey(identities[k]);
            var to, cc := ToSource(p, own), CcSource(p, own, mode);
            && (r.Ok? <==> to.Some? && AllUsable(to.value, usable) && AllUsable(cc, usable)
                           && SourceKeys(to.value) + SourceKeys(cc) - own != {})
            && (r.Ok? ==>
                  && KeptExactly(to.value, own, {}, r.value.to)
                  && KeptExactly(cc, own, Keys(r.value.to), r.value.cc))
  {
    hide AddressKey, Kept;
    var own := set k | 0 <= k < |identities| :: AddressKey(identities[k]);
    var toSource, ccSource := ToSource(p, own), CcSource(p, own, mode);
    if toSource.None? { return Err(RecipientsRequired); }
    var to := UsableAddresses(toSource.value, own, [], usable, nameOf);
    assert Keys([]) == {};
    if to.Err? { return Err(to.error); }
    KeptIsExact(toSource.value, own, {}, nameOf);
    var cc := UsableAddresses(ccSource, own, to.value, usable, nameOf);
    if cc.Err? { return Err(cc.error); }
    KeptIsExact(ccSource, own, Keys(to.value), nameOf);
    NobodyLeft(toSource.value, ccSource, own, Recipients(to.value, cc.value));
    if to.value + cc.value == [] {
      return Err(RecipientsRequired);
    }
    return Ok(Recipients(to.value, cc.value));
  }

  /** A derived pair of lists holds every foreign source address exactly once, and nothing else. */
  lemma DerivationIsExact(toSource: seq<Address>, ccSource: seq<Address>, own: set<string>, r: Recipients)
    requires KeptExactly(toSource, own, {}, r.to) && KeptExactly(ccSource, own, Keys(r.to), r.cc)
    ensures Keys(r.to) !! Keys(r.cc)
    ensures Keys(r.to) + Keys(r.cc) == SourceKeys(toSource) + SourceKeys(ccSource) - own
    ensures forall i, j :: 0 <= i < j < |r.to + r.cc| ==> (r.to + r.cc)[i].address != (r.to + r.cc)[j].address
  {
    var all := r.to + r.cc;
    forall i, j | 0 <= i < j < |all| ensures all[i].address != all[j].address {
      if i < |r.to| <= j {
        assert all[i].address in Keys(r.to) && r.cc[j - |r.to|].address in Keys(r.cc);
      }
    }
  }

  // ---- the From identity ----

  predicate Listed(p: Parent, identity: string) {
    AddressKey(identity) in SourceKeys(Visible(p).to + Visible(p).cc)
  }

  /**
   The identity a reply is sent from: one's own sender identity when replying to oneself,
   otherwise the only configured identity among the visible recipients.
   */
  method PreselectReplyIdentity(p: Parent, configured: seq<string>) returns (chosen: Option<nat>)
    ensures chosen.Some? ==> chosen.value < |configured|
    ensures var sent := set k | 0 <= k < |configured| && p.sender.Some?
            && AddressKey(configured[k]) == AddressKey(p.sender.value.address);
            var listed := set k | 0 <= k < |configured| && Listed(p, configured[k]);
            && (sent != {} ==> chosen.Some? && chosen.value in sent && forall k :: k in sent ==> chosen.value <= k)
            && (sent == {} ==> (chosen.Some? <==> exists k :: listed == {k}))
            && (sent == {} && chosen.Some? ==> listed == {chosen.value})
  {
    hide AddressKey;
    ghost var sent := set k | 0 <= k < |configured| && p.sender.Some?
        && AddressKey(configured[k]) == AddressKey(p.sender.value.address);
    if p.sender.Some? {
      for k := 0 to |configured|
        invariant forall j :: 0 <= j < k ==> AddressKey(configured[j]) != AddressKey(p.sender.value.address)
      {
        if AddressKey(configured[k]) == AddressKey(p.sender.value.address) {
          assert k in sent;
          return Some(k);
        }
      }
    }
    assert sent == {};
    var visible := SourceKeys(Visible(p).to + Visible(p).cc);
    var matches: seq<nat> := [];
    for k := 0 to |configured|
      invariant forall j :: j in matches <==> 0 <= j < k && Listed(p, configured[j])
      invariant forall a :: 0 <= a < |matches| ==> matches[a] < k
      invariant forall a, b :: 0 <= a < b < |matches| ==> matches[a] < matches[b]
    {
      if AddressKey(configured[k]) in visible { matches := matches + [k]; }
    }
    ghost var listed := set k | 0 <= k < |configured| && Listed(p, configured[k]);
    assert forall j :: j in listed <==> j in matches;
    if |matches| == 1 {
      assert listed == {matches[0]};
      return Some(matches[0]);
    }
    if |matches| > 1 {
      assert matches[0] in listed && matches[1] in listed && matches[0] != matches[1];
    }
    return None;
  }
}
