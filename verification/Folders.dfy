/** Folder roles of one account: discovery imports, manual choices, and the reserved inbox name. */
module Folders {
  import opened Text
  import opened Wrappers

  datatype Role = Inbox | Sent | Drafts | Archive | Trash | Junk

  const ALL_ROLES: seq<Role> := [Inbox, Sent, Drafts, Archive, Trash, Junk]

  const INBOX_NAME := "inbox"

  datatype Folder = Folder(name: string, role: Option<Role>)

  datatype Discovered = Discovered(name: string, specialUse: set<Role>)

  /** A discovered folder with every role it hints at. */
  datatype Hint = Hint(name: string, roles: set<Role>)

  datatype Conflict = Conflict(role: Role, current: string, hinted: string)

  datatype Report = Report(filled: map<Role, string>, ambiguous: seq<Role>, conflicts: seq<Conflict>)

  /** Every spelling of the inbox is one key; any other name is its own. */
  function FolderKey(name: string): string {
    if Lower(name) == INBOX_NAME then INBOX_NAME else name
  }

  function RolesOf(d: Discovered): set<Role> {
    (if Lower(d.name) == INBOX_NAME then {Inbox} else {}) + d.specialUse
  }

  ghost predicate DistinctKeys(hints: seq<Hint>) {
    forall i, j :: 0 <= i < j < |hints| ==> FolderKey(hints[i].name) != FolderKey(hints[j].name)
  }

  /** No two rows name one mailbox; in particular there is one inbox. */
  ghost predicate OneKey(rows: seq<Folder>) {
    forall i, j :: 0 <= i < j < |rows| ==> FolderKey(rows[i].name) != FolderKey(rows[j].name)
  }

  /** Each role has at most one holder. */
  ghost predicate OneHolder(rows: seq<Folder>) {
    forall i, j :: 0 <= i < j < |rows| && rows[i].role.Some? ==> rows[i].role != rows[j].role
  }

  function HintsOf(input: seq<Discovered>): seq<Hint> {
    seq(|input|, i requires 0 <= i < |input| => Hint(input[i].name, RolesOf(input[i])))
  }

  /** Normalize one discovery run; a repeated folder rejects it. */
  method NormalizeDiscovered(input: seq<Discovered>) returns (hints: Option<seq<Hint>>)
    ensures hints.Some? <==> forall i, j :: 0 <= i < j < |input| ==>
      FolderKey(input[i].name) != FolderKey(input[j].name)
    ensures hints.Some? ==> hints.value == HintsOf(input) && DistinctKeys(hints.value)
  {
    var seen: set<string> := {};
    var found: seq<Hint> := [];
    for i := 0 to |input|
      invariant |found| == i && forall k :: 0 <= k < i ==> found[k] == Hint(input[k].name, RolesOf(input[k]))
      invariant forall key :: key in seen <==> exists k :: 0 <= k < i && FolderKey(input[k].name) == key
      invariant forall j, k :: 0 <= j < k < i ==> FolderKey(input[j].name) != FolderKey(input[k].name)
    {
      var key := FolderKey(input[i].name);
      if key in seen { return None; }
      seen := seen + {key};
      found := found + [Hint(input[i].name, RolesOf(input[i]))];
    }
    return Some(found);
  }

  // ---- rows ----

  /** The row that holds a key, or the number of rows when none does. */
  function KeyIndex(rows: seq<Folder>, key: string): (i: nat)
    ensures i <= |rows|
    ensures i < |rows| ==> FolderKey(rows[i].name) == key
    ensures forall j :: 0 <= j < i ==> FolderKey(rows[j].name) != key
  {
    if rows == [] then 0
    else
      var i := KeyIndex(rows[..|rows| - 1], key);
      assert forall j :: 0 <= j < |rows| - 1 ==> rows[..|rows| - 1][j] == rows[j];
      if i < |rows| - 1 then i else if FolderKey(rows[|rows| - 1].name) == key then |rows| - 1 else |rows|
  }

  predicate Known(rows: seq<Folder>, name: string) {
    KeyIndex(rows, FolderKey(name)) < |rows|
  }

  /** New names appear without a role; a re-spelled inbox is the row there is. */
  function Inserted(rows: seq<Folder>, hints: seq<Hint>): seq<Folder> {
    if hints == [] then rows
    else
      var some := Inserted(rows, hints[..|hints| - 1]);
      var name := hints[|hints| - 1].name;
      if Known(some, name) then some else some + [Folder(name, None)]
  }

  function Holder(rows: seq<Folder>, role: Role): (i: nat)
    ensures i <= |rows|
    ensures i < |rows| ==> rows[i].role == Some(role)
    ensures i == |rows| ==> forall j :: 0 <= j < |rows| ==> rows[j].role != Some(role)
  {
    if rows == [] then 0
    else
      var i := Holder(rows[..|rows| - 1], role);
      assert forall j :: 0 <= j < |rows| - 1 ==> rows[..|rows| - 1][j] == rows[j];
      if i < |rows| - 1 then i else if rows[|rows| - 1].role == Some(role) then |rows| - 1 else |rows|
  }

  /** The rows a run hints at for one role, free for it or already holding it. */
  function Candidates(rows: seq<Folder>, hints: seq<Hint>, role: Role): (c: seq<nat>)
    ensures forall k :: 0 <= k < |c| ==> c[k] < |rows| && (rows[c[k]].role == None || rows[c[k]].role == Some(role))
  {
    if hints == [] then []
    else
      var rest := Candidates(rows, hints[..|hints| - 1], role);
      var hint := hints[|hints| - 1];
      var i := KeyIndex(rows, FolderKey(hint.name));
      if role in hint.roles && i < |rows| && (rows[i].role == None || rows[i].role == Some(role)) then rest + [i]
          else rest
  }

  /** One turn of the role loop: a single candidate fills an empty role. */
  function Assigned(rows: seq<Folder>, hints: seq<Hint>, role: Role): seq<Folder> {
    var c := Candidates(rows, hints, role);
    if |c| == 1 && Holder(rows, role) == |rows| then rows[c[0] := rows[c[0]].(role := Some(role))] else rows
  }

  function AssignedUpTo(rows: seq<Folder>, hints: seq<Hint>, k: nat): seq<Folder>
    requires k <= |ALL_ROLES|
  {
    if k == 0 then rows else Assigned(AssignedUpTo(rows, hints, k - 1), hints, ALL_ROLES[k - 1])
  }

  function Imported(rows: seq<Folder>, hints: seq<Hint>): seq<Folder> {
    AssignedUpTo(Inserted(rows, hints), hints, |ALL_ROLES|)
  }

  // ---- who gets a role ----

  /** Two names of one mailbox: the same text, or two spellings of the inbox. */
  predicate SameMailbox(a: string, b: string) {
    a == b || (Lower(a) == "inbox" && Lower(b) == "inbox")
  }

  lemma KeyNamesMailbox(a: string, b: string)
    ensures FolderKey(a) == FolderKey(b) <==> SameMailbox(a, b)
  {
    assert Lower("inbox") == "inbox" by {
      forall i | 0 <= i < |"inbox"| ensures Lower("inbox")[i] == "inbox"[i] { }
    }
  }

  /** A discovered folder suggests a role by its special use, or the inbox by its name. */
  predicate Suggests(d: Discovered, role: Role) {
    role in d.specialUse || (role == Inbox && Lower(d.name) == "inbox")
  }

  /** A folder a run suggests for a role, free for it or holding it already. */
  ghost predicate Fits(rows: seq<Folder>, input: seq<Discovered>, i: nat, role: Role) {
    && i < |rows| && (rows[i].role.None? || rows[i].role == Some(role))
    && exists k :: 0 <= k < |input| && SameMailbox(input[k].name, rows[i].name) && Suggests(input[k], role)
  }

  lemma {:induction false} CandidatesHinted(rows: seq<Folder>, hints: seq<Hint>, role: Role)
    requires OneKey(rows)
    ensures forall i: nat :: i in Candidates(rows, hints, role) <==>
              && i < |rows| && (rows[i].role.None? || rows[i].role == Some(role))
              && exists k :: 0 <= k < |hints| && FolderKey(hints[k].name) == FolderKey(rows[i].name)
                             && role in hints[k].roles
  {
    hide FolderKey;
    if hints != [] {
      var n := |hints| - 1;
      CandidatesHinted(rows, hints[..n], role);
      forall i: nat
        ensures i in Candidates(rows, hints, role) <==>
                  && i < |rows| && (rows[i].role.None? || rows[i].role == Some(role))
                  && exists k :: 0 <= k < |hints| && FolderKey(hints[k].name) == FolderKey(rows[i].name)
                                 && role in hints[k].roles
      {
        if i in Candidates(rows, hints[..n], role) {
          var k :| 0 <= k < n && FolderKey(hints[..n][k].name) == FolderKey(rows[i].name)
              && role in hints[..n][k].roles;
          assert hints[k] == hints[..n][k];
        }
        if k :| i < |rows| && 0 <= k < |hints| && FolderKey(hints[k].name) == FolderKey(rows[i].name)
                && role in hints[k].roles {
          if k < n {
            assert hints[..n][k] == hints[k];
          } else {
            KeyIndexIs(rows, i);
          }
        }
      }
    }
  }

  lemma KeyIndexIs(rows: seq<Folder>, i: nat)
    requires OneKey(rows) && i < |rows|
    ensures KeyIndex(rows, FolderKey(rows[i].name)) == i
  {
    hide FolderKey;
    forall j | 0 <= j < i ensures FolderKey(rows[j].name) != FolderKey(rows[i].name) { }
  }

  lemma {:induction false} CandidatesDistinct(rows: seq<Folder>, hints: seq<Hint>, role: Role)
    requires DistinctKeys(hints)
    ensures forall a, b :: 0 <= a < b < |Candidates(rows, hints, role)| ==>
              Candidates(rows, hints, role)[a] != Candidates(rows, hints, role)[b]
    ensures forall i :: i in Candidates(rows, hints, role) ==>
              exists k :: 0 <= k < |hints| && i == KeyIndex(rows, FolderKey(hints[k].name)) && i < |rows|
  {
    hide FolderKey;
    if hints != [] {
      var n := |hints| - 1;
      CandidatesDistinct(rows, hints[..n], role);
      var rest := Candidates(rows, hints[..n], role);
      var last := KeyIndex(rows, FolderKey(hints[n].name));
      forall a | 0 <= a < |rest| && last < |rows| ensures rest[a] != last {
        assert rest[a] in rest;
        var k :| 0 <= k < n && rest[a] == KeyIndex(rows, FolderKey(hints[..n][k].name));
        assert FolderKey(hints[k].name) != FolderKey(hints[n].name);
      }
      forall i | i in Candidates(rows, hints, role)
        ensures exists k :: 0 <= k < |hints| && i == KeyIndex(rows, FolderKey(hints[k].name)) && i < |rows|
      {
        if i in rest {
          var k :| 0 <= k < n && i == KeyIndex(rows, FolderKey(hints[..n][k].name)) && i < |rows|;
          assert hints[k] == hints[..n][k];
        }
      }
    }
  }

  /** The candidates of a role are the folders that fit it, each once. */
  lemma CandidatesFit(rows: seq<Folder>, input: seq<Discovered>, role: Role)
    requires OneKey(rows) && DistinctKeys(HintsOf(input))
    ensures var c := Candidates(rows, HintsOf(input), role);
            && (forall i: nat :: i in c <==> Fits(rows, input, i, role))
            && forall a, b :: 0 <= a < b < |c| ==> c[a] != c[b]
  {
    var hints := HintsOf(input);
    CandidatesHinted(rows, hints, role);
    CandidatesDistinct(rows, hints, role);
    hide Candidates, FolderKey, OneKey, DistinctKeys;
    forall i: nat ensures i in Candidates(rows, hints, role) <==> Fits(rows, input, i, role) {
      forall k | 0 <= k < |input| && i < |rows|
        ensures FolderKey(hints[k].name) == FolderKey(rows[i].name) <==> SameMailbox(input[k].name, rows[i].name)
        ensures role in hints[k].roles <==> Suggests(input[k], role)
      {
        KeyNamesMailbox(input[k].name, rows[i].name);
      }
    }
  }

  lemma OnlyMember(c: seq<nat>, i: nat)
    requires forall a, b :: 0 <= a < b < |c| ==> c[a] != c[b]
    ensures c == [i] <==> i in c && forall j :: j in c ==> j == i
  {
    if i in c && forall j :: j in c ==> j == i {
      assert c[0] in c && c[|c| - 1] in c;
      assert c == [c[0]];
    }
  }

  /**
   One turn of the role loop, told from names and special uses: a folder gets the role exactly
   when it fits, no other folder does, and nobody holds the role; everything else stays.
   */
  lemma AssignedExactly(rows: seq<Folder>, input: seq<Discovered>, role: Role)
    requires OneKey(rows) && DistinctKeys(HintsOf(input))
    ensures var t := Assigned(rows, HintsOf(input), role);
            && |t| == |rows|
            && forall i :: 0 <= i < |rows| ==>
                 t[i] == if Fits(rows, input, i, role) && (forall j: nat :: Fits(rows, input, j, role) ==> j == i)
                            && (forall j :: 0 <= j < |rows| ==> rows[j].role != Some(role))
                         then rows[i].(role := Some(role)) else rows[i]
  {
    CandidatesFit(rows, input, role);
    hide Candidates, Fits, OneKey, DistinctKeys;
    var c := Candidates(rows, HintsOf(input), role);
    forall i | 0 <= i < |rows|
      ensures Fits(rows, input, i, role) && (forall j: nat :: Fits(rows, input, j, role) ==> j == i) <==> c == [i]
    {
      OnlyMember(c, i);
    }
    if Holder(rows, role) < |rows| { assert rows[Holder(rows, role)].role == Some(role); }
  }

  // ---- what an import keeps ----

  /** The same rows, where a role only ever appears. */
  ghost predicate OnlyFills(before: seq<Folder>, after: seq<Folder>) {
    && |before| <= |after|
    && (forall i :: 0 <= i < |before| ==> after[i].name == before[i].name)
    && (forall i :: 0 <= i < |before| && before[i].role.Some? ==> after[i].role == before[i].role)
  }

  lemma AssignedKeeps(rows: seq<Folder>, hints: seq<Hint>, role: Role)
    requires OneKey(rows) && OneHolder(rows)
    ensures OneKey(Assigned(rows, hints, role)) && OneHolder(Assigned(rows, hints, role))
    ensures OnlyFills(rows, Assigned(rows, hints, role)) && |Assigned(rows, hints, role)| == |rows|
  {
    var c := Candidates(rows, hints, role);
    var t := Assigned(rows, hints, role);
    assert forall i :: 0 <= i < |rows| ==> t[i].name == rows[i].name;
    if t != rows {
      assert rows[c[0]].role == None by {
        assert forall j :: 0 <= j < |rows| ==> rows[j].role != Some(role);
      }
    }
  }

  lemma {:induction false} LoopKeeps(rows: seq<Folder>, hints: seq<Hint>, k: nat)
    requires OneKey(rows) && OneHolder(rows) && k <= |ALL_ROLES|
    ensures OneKey(AssignedUpTo(rows, hints, k)) && OneHolder(AssignedUpTo(rows, hints, k))
    ensures OnlyFills(rows, AssignedUpTo(rows, hints, k)) && |AssignedUpTo(rows, hints, k)| == |rows|
  {
    if k > 0 {
      LoopKeeps(rows, hints, k - 1);
      AssignedKeeps(AssignedUpTo(rows, hints, k - 1), hints, ALL_ROLES[k - 1]);
    }
  }

  lemma AppendKeeps(rows: seq<Folder>, name: string)
    requires OneKey(rows) && OneHolder(rows) && !Known(rows, name)
    ensures OneKey(rows + [Folder(name, None)]) && OneHolder(rows + [Folder(name, None)])
  {
    hide FolderKey;
    var t := rows + [Folder(name, None)];
    forall i, j | 0 <= i < j < |t| ensures FolderKey(t[i].name) != FolderKey(t[j].name) {
      if j == |rows| { assert FolderKey(rows[i].name) != FolderKey(name); }
    }
  }

  lemma {:induction false} InsertedKeeps(rows: seq<Folder>, hints: seq<Hint>)
    requires OneKey(rows) && OneHolder(rows)
    ensures OneKey(Inserted(rows, hints)) && OneHolder(Inserted(rows, hints))
    ensures |rows| <= |Inserted(rows, hints)| && forall k :: 0 <= k < |rows| ==> Inserted(rows, hints)[k] == rows[k]
  {
    hide FolderKey, OneKey, OneHolder;
    if hints != [] {
      var n := |hints| - 1;
      InsertedKeeps(rows, hints[..n]);
      var some := Inserted(rows, hints[..n]);
      if !Known(some, hints[n].name) { AppendKeeps(some, hints[n].name); }
    }
  }

  lemma {:induction false} InsertedKnows(rows: seq<Folder>, hints: seq<Hint>)
    ensures forall k :: 0 <= k < |hints| ==> Known(Inserted(rows, hints), hints[k].name)
  {
    hide FolderKey;
    if hints != [] {
      var n := |hints| - 1;
      InsertedKnows(rows, hints[..n]);
      var some, all := Inserted(rows, hints[..n]), Inserted(rows, hints);
      forall k | 0 <= k < |hints| ensures Known(all, hints[k].name) {
        if k < n {
          assert Known(some, hints[..n][k].name);
          KnownStays(some, all, hints[k].name);
        } else if !Known(some, hints[n].name) {
          assert FolderKey(all[|some|].name) == FolderKey(hints[n].name);
        }
      }
    }
  }

  lemma KnownStays(rows: seq<Folder>, more: seq<Folder>, name: string)
    requires Known(rows, name) && |rows| <= |more| && forall i :: 0 <= i < |rows| ==> more[i].name == rows[i].name
    ensures Known(more, name)
  {
    var i := KeyIndex(rows, FolderKey(name));
    assert FolderKey(more[i].name) == FolderKey(name);
  }

  /**
   An import leaves one holder a role and one row a mailbox, whatever spelling of the inbox it
   reports, and changes no name and no role already held.
   */
  lemma ImportKeeps(rows: seq<Folder>, hints: seq<Hint>)
    requires OneKey(rows) && OneHolder(rows)
    ensures OneKey(Imported(rows, hints)) && OneHolder(Imported(rows, hints)) && OnlyFills(rows, Imported(rows, hints))
    ensures forall k :: 0 <= k < |hints| ==> Known(Imported(rows, hints), hints[k].name)
  {
    InsertedKeeps(rows, hints);
    InsertedKnows(rows, hints);
    var some := Inserted(rows, hints);
    LoopKeeps(some, hints, |ALL_ROLES|);
    forall k | 0 <= k < |hints| ensures Known(Imported(rows, hints), hints[k].name) {
      KnownStays(some, Imported(rows, hints), hints[k].name);
    }
  }

  // ---- reaching a fixpoint ----

  function HeldRoles(rows: seq<Folder>): set<Role> {
    set i | 0 <= i < |rows| && rows[i].role.Some? :: rows[i].role.value
  }

  lemma {:induction false} InsertedHolds(rows: seq<Folder>, hints: seq<Hint>)
    ensures HeldRoles(Inserted(rows, hints)) == HeldRoles(rows)
  {
    if hints != [] {
      InsertedHolds(rows, hints[..|hints| - 1]);
      var some, all := Inserted(rows, hints[..|hints| - 1]), Inserted(rows, hints);
      forall i | 0 <= i < |some| ensures all[i] == some[i] { }
      assert HeldRoles(all) == HeldRoles(some);
    }
  }

  lemma SixRoles(held: set<Role>)
    ensures |held| <= 6
  {
    var all: set<Role> := {Inbox, Sent, Drafts, Archive, Trash, Junk};
    forall r: Role ensures r in all {
      match r { case Inbox => case Sent => case Drafts => case Archive => case Trash => case Junk => }
    }
    assert all == held + (all - held);
  }

  lemma AssignedGrows(rows: seq<Folder>, hints: seq<Hint>, role: Role)
    requires OneKey(rows) && OneHolder(rows)
    ensures HeldRoles(rows) <= HeldRoles(Assigned(rows, hints, role))
    ensures Assigned(rows, hints, role) != rows ==>
              role !in HeldRoles(rows) && HeldRoles(Assigned(rows, hints, role)) == HeldRoles(rows) + {role}
  {
    AssignedKeeps(rows, hints, role);
    var t := Assigned(rows, hints, role);
    forall r | r in HeldRoles(rows) ensures r in HeldRoles(t) {
      var i :| 0 <= i < |rows| && rows[i].role.Some? && rows[i].role.value == r;
      assert t[i].role == rows[i].role;
    }
    if t != rows {
      var i := Candidates(rows, hints, role)[0];
      assert t[i].role == Some(role);
      forall r | r in HeldRoles(t) ensures r in HeldRoles(rows) + {role} {
        var j :| 0 <= j < |t| && t[j].role.Some? && t[j].role.value == r;
        assert j != i ==> rows[j].role == t[j].role;
      }
    }
  }

  lemma {:induction false} LoopGrows(rows: seq<Folder>, hints: seq<Hint>, k: nat)
    requires OneKey(rows) && OneHolder(rows) && k <= |ALL_ROLES|
    ensures HeldRoles(rows) <= HeldRoles(AssignedUpTo(rows, hints, k))
    ensures HeldRoles(rows) == HeldRoles(AssignedUpTo(rows, hints, k)) ==> AssignedUpTo(rows, hints, k) == rows
  {
    if k > 0 {
      LoopGrows(rows, hints, k - 1);
      LoopKeeps(rows, hints, k - 1);
      AssignedGrows(AssignedUpTo(rows, hints, k - 1), hints, ALL_ROLES[k - 1]);
    }
  }

  lemma {:induction false} NothingToInsert(rows: seq<Folder>, hints: seq<Hint>)
    requires forall k :: 0 <= k < |hints| ==> Known(rows, hints[k].name)
    ensures Inserted(rows, hints) == rows
  {
    if hints != [] {
      var n := |hints| - 1;
      assert forall k :: 0 <= k < n ==> hints[..n][k] == hints[k];
      NothingToInsert(rows, hints[..n]);
      assert Known(rows, hints[n].name);
    }
  }

  function Repeated(rows: seq<Folder>, hints: seq<Hint>, runs: nat): seq<Folder> {
    if runs == 0 then rows else Imported(Repeated(rows, hints, runs - 1), hints)
  }

  /** Runs after the first that changed anything. */
  function Assigning(rows: seq<Folder>, hints: seq<Hint>, runs: nat): nat {
    if runs <= 1 then 0
    else Assigning(rows, hints, runs - 1) + if Repeated(rows, hints, runs) == Repeated(rows, hints, runs - 1) then 0
        else 1
  }

  lemma {:induction false} RepeatedKeeps(rows: seq<Folder>, hints: seq<Hint>, runs: nat)
    requires OneKey(rows) && OneHolder(rows)
    ensures OneKey(Repeated(rows, hints, runs)) && OneHolder(Repeated(rows, hints, runs))
    ensures runs > 0 ==> forall k :: 0 <= k < |hints| ==> Known(Repeated(rows, hints, runs), hints[k].name)
  {
    hide FolderKey, OneKey, OneHolder, Known, Imported, OnlyFills;
    if runs > 0 {
      RepeatedKeeps(rows, hints, runs - 1);
      ImportKeeps(Repeated(rows, hints, runs - 1), hints);
    }
  }

  /** A run that changes anything after the first fills a role. */
  lemma RunFillsOrRests(rows: seq<Folder>, hints: seq<Hint>, runs: nat)
    requires OneKey(rows) && OneHolder(rows) && runs > 0
    ensures HeldRoles(Repeated(rows, hints, runs)) <= HeldRoles(Repeated(rows, hints, runs + 1))
    ensures Repeated(rows, hints, runs + 1) != Repeated(rows, hints, runs) ==>
              |HeldRoles(Repeated(rows, hints, runs))| < |HeldRoles(Repeated(rows, hints, runs + 1))|
  {
    RepeatedKeeps(rows, hints, runs);
    var t := Repeated(rows, hints, runs);
    NothingToInsert(t, hints);
    LoopGrows(t, hints, |ALL_ROLES|);
    var a, b := HeldRoles(t), HeldRoles(Imported(t, hints));
    assert b == a + (b - a);
  }

  lemma {:induction false} AssigningCounts(rows: seq<Folder>, hints: seq<Hint>, runs: nat)
    requires OneKey(rows) && OneHolder(rows) && runs > 0
    ensures Assigning(rows, hints, runs) <= |HeldRoles(Repeated(rows, hints, runs))|
  {
    if runs > 1 {
      AssigningCounts(rows, hints, runs - 1);
      RunFillsOrRests(rows, hints, runs - 1);
      if Repeated(rows, hints, runs) == Repeated(rows, hints, runs - 1) {
      } else {
        assert |HeldRoles(Repeated(rows, hints, runs - 1))| < |HeldRoles(Repeated(rows, hints, runs))|;
      }
    }
  }

  lemma {:induction false} RestLasts(rows: seq<Folder>, hints: seq<Hint>, runs: nat, more: nat)
    requires Repeated(rows, hints, runs + 1) == Repeated(rows, hints, runs)
    ensures Repeated(rows, hints, runs + more) == Repeated(rows, hints, runs)
  {
    if more > 0 { RestLasts(rows, hints, runs, more - 1); }
  }

  /** A run of changes that never rests is as long as its count says. */
  lemma {:induction false} RestsOrAssigns(rows: seq<Folder>, hints: seq<Hint>, runs: nat)
    requires OneKey(rows) && OneHolder(rows) && runs > 0
    ensures Assigning(rows, hints, runs) == runs - 1
            || exists k :: 0 < k < runs && Repeated(rows, hints, k + 1) == Repeated(rows, hints, k)
  {
    if runs > 1 {
      RestsOrAssigns(rows, hints, runs - 1);
      if Assigning(rows, hints, runs - 1) != runs - 2 {
        var k :| 0 < k < runs - 1 && Repeated(rows, hints, k + 1) == Repeated(rows, hints, k);
        assert 0 < k < runs;
      } else if Repeated(rows, hints, runs) == Repeated(rows, hints, runs - 1) {
        var k := runs - 1;
        assert 0 < k < runs && Repeated(rows, hints, k + 1) == Repeated(rows, hints, k);
      }
    }
  }

  /**
   Importing one discovery over and over changes roles in at most six runs after the folders
   are in, and from the eighth run on changes nothing at all.
   */
  lemma ReimportSettles(rows: seq<Folder>, hints: seq<Hint>, runs: nat)
    requires OneKey(rows) && OneHolder(rows)
    ensures Assigning(rows, hints, runs) <= 6
    ensures runs >= 7 ==> Repeated(rows, hints, runs + 1) == Repeated(rows, hints, runs)
  {
    if runs > 0 {
      AssigningCounts(rows, hints, runs);
      SixRoles(HeldRoles(Repeated(rows, hints, runs)));
    }
    if runs >= 7 {
      RestsOrAssigns(rows, hints, 8);
      AssigningCounts(rows, hints, 8);
      SixRoles(HeldRoles(Repeated(rows, hints, 8)));
      var k :| 0 < k < 8 && Repeated(rows, hints, k + 1) == Repeated(rows, hints, k);
      RestLasts(rows, hints, k, runs - k);
      RestLasts(rows, hints, k, runs + 1 - k);
    }
  }

  // ---- when a further import changes something ----

  /** A role nobody holds, with one folder hinted at that is free for it. */
  predicate Fillable(rows: seq<Folder>, hints: seq<Hint>, role: Role) {
    |Candidates(rows, hints, role)| == 1 && Holder(rows, role) == |rows|
  }

  lemma FillableFills(rows: seq<Folder>, hints: seq<Hint>, role: Role)
    ensures Assigned(rows, hints, role) != rows <==> Fillable(rows, hints, role)
  {
    if Fillable(rows, hints, role) {
      var i := Candidates(rows, hints, role)[0];
      assert Assigned(rows, hints, role)[i].role == Some(role) && rows[i].role != Some(role);
    }
  }

  lemma {:induction false} LoopOnlyAdds(rows: seq<Folder>, hints: seq<Hint>, j: nat, k: nat)
    requires OneKey(rows) && OneHolder(rows) && j <= k <= |ALL_ROLES|
    ensures HeldRoles(AssignedUpTo(rows, hints, j)) <= HeldRoles(AssignedUpTo(rows, hints, k))
  {
    hide FolderKey, OneKey, OneHolder, HeldRoles, Assigned, OnlyFills;
    if j < k {
      LoopOnlyAdds(rows, hints, j, k - 1);
      LoopKeeps(rows, hints, k - 1);
      AssignedGrows(AssignedUpTo(rows, hints, k - 1), hints, ALL_ROLES[k - 1]);
    }
  }

  /** A role loop that ends where it began never left it on the way. */
  lemma LoopStoodStill(rows: seq<Folder>, hints: seq<Hint>, k: nat)
    requires OneKey(rows) && OneHolder(rows) && k <= |ALL_ROLES|
    requires AssignedUpTo(rows, hints, |ALL_ROLES|) == rows
    ensures AssignedUpTo(rows, hints, k) == rows
  {
    LoopGrows(rows, hints, k);
    LoopOnlyAdds(rows, hints, k, |ALL_ROLES|);
  }

  lemma {:induction false} NothingFillable(rows: seq<Folder>, hints: seq<Hint>, k: nat)
    requires k <= |ALL_ROLES| && forall role :: role in ALL_ROLES ==> !Fillable(rows, hints, role)
    ensures AssignedUpTo(rows, hints, k) == rows
  {
    if k > 0 {
      NothingFillable(rows, hints, k - 1);
      FillableFills(rows, hints, ALL_ROLES[k - 1]);
    }
  }

  /**
   Importing a discovery whose folders are all known changes nothing exactly when no role without
   a holder has exactly one candidate.
   */
  lemma ImportRestsExactly(rows: seq<Folder>, hints: seq<Hint>)
    requires OneKey(rows) && OneHolder(rows)
    requires forall k :: 0 <= k < |hints| ==> Known(rows, hints[k].name)
    ensures Imported(rows, hints) == rows <==> forall role :: role in ALL_ROLES ==> !Fillable(rows, hints, role)
  {
    hide FolderKey, OneKey, OneHolder, Fillable, Candidates, Assigned;
    NothingToInsert(rows, hints);
    if Imported(rows, hints) == rows {
      forall role | role in ALL_ROLES ensures !Fillable(rows, hints, role) {
        var k :| 0 <= k < |ALL_ROLES| && ALL_ROLES[k] == role;
        LoopStoodStill(rows, hints, k);
        LoopStoodStill(rows, hints, k + 1);
        FillableFills(rows, hints, role);
      }
    } else if forall role :: role in ALL_ROLES ==> !Fillable(rows, hints, role) {
      NothingFillable(rows, hints, |ALL_ROLES|);
    }
  }

  /** A repeated import, the first one aside, rests exactly when the run before it left nothing to fill. */
  lemma ReimportRestsExactly(rows: seq<Folder>, hints: seq<Hint>, runs: nat)
    requires OneKey(rows) && OneHolder(rows) && runs > 0
    ensures Repeated(rows, hints, runs + 1) == Repeated(rows, hints, runs) <==>
            forall role :: role in ALL_ROLES ==> !Fillable(Repeated(rows, hints, runs), hints, role)
  {
    RepeatedKeeps(rows, hints, runs);
    ImportRestsExactly(Repeated(rows, hints, runs), hints);
  }

  const HINT_A := Hint("a", {Sent})
  const HINT_B := Hint("b", {Sent, Drafts})

  function Two(x: Option<Role>, y: Option<Role>): seq<Folder> {
    [Folder("a", x), Folder("b", y)]
  }

  lemma PlainKeys()
    ensures FolderKey("a") == "a" && FolderKey("b") == "b"
  {
    assert |Lower("a")| == 1 && |Lower("b")| == 1 && |INBOX_NAME| == 5;
  }

  lemma TwoKeys(x: Option<Role>, y: Option<Role>)
    ensures KeyIndex(Two(x, y), "a") == 0 && KeyIndex(Two(x, y), "b") == 1
  {
    PlainKeys();
    var r := Two(x, y);
    assert FolderKey(r[0].name) == "a" && FolderKey(r[1].name) == "b";
  }

  lemma AssignedTwo(x: Option<Role>, y: Option<Role>, role: Role)
    ensures var forA := role == Sent && x in {None, Some(Sent)};
            var forB := role in {Sent, Drafts} && y in {None, Some(role)};
            Assigned(Two(x, y), [HINT_A, HINT_B], role) ==
            if x == Some(role) || y == Some(role) || forA == forB then Two(x, y)
            else if forA then Two(Some(role), y) else Two(x, Some(role))
  {
    PlainKeys();
    TwoKeys(x, y);
    var r, hints := Two(x, y), [HINT_A, HINT_B];
    assert hints[..1] == [HINT_A] && [HINT_A][..0] == [];
    assert Candidates(r, [], role) == [];
    assert Candidates(r, [HINT_A], role) == if role == Sent && x in {None, Some(Sent)} then [0] else [];
    assert Candidates(r, hints, role) ==
           Candidates(r, [HINT_A], role) + if role in {Sent, Drafts} && y in {None, Some(role)} then [1] else [];
    assert r[0].role == x && r[1].role == y;
  }

  lemma LoopTurn(rows: seq<Folder>, hints: seq<Hint>, k: nat)
    requires k < |ALL_ROLES|
    ensures AssignedUpTo(rows, hints, k + 1) == Assigned(AssignedUpTo(rows, hints, k), hints, ALL_ROLES[k])
    ensures AssignedUpTo(rows, hints, 0) == rows
  {
  }

  lemma FirstRunOfTwo()
    ensures AssignedUpTo(Two(None, None), [HINT_A, HINT_B], |ALL_ROLES|) == Two(None, Some(Drafts))
  {
    hide AssignedUpTo, Assigned, Two;
    var hints, n := [HINT_A, HINT_B], Two(None, None);
    LoopTurn(n, hints, 0);
    for k := 0 to |ALL_ROLES|
      invariant AssignedUpTo(n, hints, k) == if k <= 2 then n else Two(None, Some(Drafts))
    {
      LoopTurn(n, hints, k);
      AssignedTwo(None, if k <= 2 then None else Some(Drafts), ALL_ROLES[k]);
    }
  }

  /** One run is not enough: a role two folders hint at is free of doubt once one of them got another role. */
  lemma OneRunIsNotEnough()
    ensures var rows := Two(None, None); var hints := [HINT_A, HINT_B];
            && OneKey(rows) && OneHolder(rows) && DistinctKeys(hints)
            && Imported(Imported(rows, hints), hints) != Imported(rows, hints)
  {
    PlainKeys();
    TwoKeys(None, None);
    TwoKeys(None, Some(Drafts));
    var rows, hints, d := Two(None, None), [HINT_A, HINT_B], Two(None, Some(Drafts));
    NothingToInsert(rows, hints);
    FirstRunOfTwo();
    AssignedTwo(None, Some(Drafts), Sent);
    assert Assigned(d, hints, Sent)[0].role != d[0].role;
    FillableFills(d, hints, Sent);
    assert ALL_ROLES[1] == Sent;
    ImportRestsExactly(d, hints);
  }

  // ---- manual choices ----

  /** A manual assignment takes the role from whoever holds it. */
  function Chosen(rows: seq<Folder>, i: nat, role: Role): (t: seq<Folder>)
    requires i < |rows|
    ensures |t| == |rows|
  {
    seq(|rows|, k requires 0 <= k < |rows| =>
      if k == i then rows[k].(role := Some(role)) else if rows[k].role == Some(role) then rows[k].(role := None)
          else rows[k])
  }

  lemma HolderIs(rows: seq<Folder>, role: Role, i: nat)
    requires OneHolder(rows) && i < |rows| && rows[i].role == Some(role)
    ensures Holder(rows, role) == i
  {
    var h := Holder(rows, role);
    assert h < |rows| && rows[h].role == rows[i].role;
  }

  datatype Edit = Import(hints: seq<Hint>) | Assign(folder: nat, role: Role) | Clear(folder: nat)

  function Edited(rows: seq<Folder>, e: Edit): seq<Folder> {
    match e
    case Import(hints) => Imported(rows, hints)
    case Assign(i, role) => if i < |rows| then Chosen(rows, i, role) else rows
    case Clear(i) => if i < |rows| then rows[i := rows[i].(role := None)] else rows
  }

  function Run(rows: seq<Folder>, edits: seq<Edit>): seq<Folder>
    decreases |edits|
  {
    if edits == [] then rows else Run(Edited(rows, edits[0]), edits[1..])
  }

  lemma EditKeeps(rows: seq<Folder>, e: Edit)
    requires OneKey(rows) && OneHolder(rows)
    ensures OneKey(Edited(rows, e)) && OneHolder(Edited(rows, e))
  {
    match e {
      case Import(hints) => ImportKeeps(rows, hints);
      case Assign(i, role) => assert forall k :: 0 <= k < |rows| ==> Edited(rows, e)[k].name == rows[k].name;
      case Clear(i) => assert forall k :: 0 <= k < |rows| ==> Edited(rows, e)[k].name == rows[k].name;
    }
  }

  /** Over any sequence of imports, assignments and clears: one holder a role, one row a mailbox. */
  lemma {:induction false} RunKeeps(rows: seq<Folder>, edits: seq<Edit>)
    requires OneKey(rows) && OneHolder(rows)
    ensures OneKey(Run(rows, edits)) && OneHolder(Run(rows, edits))
    decreases |edits|
  {
    if edits != [] {
      EditKeeps(rows, edits[0]);
      RunKeeps(Edited(rows, edits[0]), edits[1..]);
    }
  }

  // ---- the account ----

  class AccountFolders {
    var folders: seq<Folder>

    constructor ()
      ensures Valid() && folders == []
    {
      folders := [];
    }

    ghost predicate Valid()
      reads this
    {
      OneKey(folders) && OneHolder(folders)
    }

    /** Insert what no row holds yet. */
    method InsertFresh(hints: seq<Hint>)
      modifies this
      ensures folders == Inserted(old(folders), hints)
    {
      for k := 0 to |hints|
        invariant folders == Inserted(old(folders), hints[..k])
      {
        assert hints[..k + 1][..k] == hints[..k];
        var name := hints[k].name;
        if KeyIndex(folders, FolderKey(name)) == |folders| {
          folders := folders + [Folder(name, None)];
        }
      }
      assert hints[..|hints|] == hints;
    }

    method CollectCandidates(hints: seq<Hint>, role: Role) returns (c: seq<nat>)
      ensures c == Candidates(folders, hints, role)
    {
      c := [];
      for k := 0 to |hints|
        invariant c == Candidates(folders, hints[..k], role)
      {
        assert hints[..k + 1][..k] == hints[..k];
        var i := KeyIndex(folders, FolderKey(hints[k].name));
        if role in hints[k].roles && i < |folders| && (folders[i].role == None || folders[i].role == Some(role)) {
          c := c + [i];
        }
      }
      assert hints[..|hints|] == hints;
    }

    /** One turn of the role loop, with what it reports. */
    method AssignRole(hints: seq<Hint>, role: Role, report: Report) returns (r: Report)
      requires Valid()
      modifies this
      ensures Valid() && folders == Assigned(old(folders), hints, role)
      ensures var c := Candidates(old(folders), hints, role);
              && (r.ambiguous == report.ambiguous + if |c| > 1 then [role] else [])
              && (folders != old(folders) ==> r == report.(filled := report.filled[role := old(folders)[c[0]].name]))
              && (folders == old(folders) ==> r.filled == report.filled)
              && (r.conflicts == report.conflicts +
                    if |c| == 1 && Holder(old(folders), role) < |old(folders)| && Holder(old(folders), role) != c[0]
                    then [Conflict(role, old(folders)[Holder(old(folders), role)].name, old(folders)[c[0]].name)]
                        else [])
    {
      r := report;
      AssignedKeeps(folders, hints, role);
      var c := CollectCandidates(hints, role);
      if c == [] { return; }
      if |c| > 1 {
        r := r.(ambiguous := r.ambiguous + [role]);
        return;
      }
      var holder := Holder(folders, role);
      if holder == |folders| {
        assert folders[c[0]].role == None by {
          assert forall j :: 0 <= j < |folders| ==> folders[j].role != Some(role);
        }
        r := r.(filled := r.filled[role := folders[c[0]].name]);
        folders := folders[c[0] := folders[c[0]].(role := Some(role))];
      } else if holder != c[0] {
        r := r.(conflicts := r.conflicts + [Conflict(role, folders[holder].name, folders[c[0]].name)]);
      }
    }

    /** The role loop: what it reports filled is what it filled. */
    method AssignRoles(hints: seq<Hint>) returns (r: Report)
      requires Valid()
      modifies this
      ensures Valid() && folders == AssignedUpTo(old(folders), hints, |ALL_ROLES|)
      ensures r.filled.Keys == HeldRoles(folders) - HeldRoles(old(folders))
    {
      hide FolderKey, OneKey, OneHolder, HeldRoles, Candidates;
      r := Report(map[], [], []);
      for k := 0 to |ALL_ROLES|
        invariant Valid() && folders == AssignedUpTo(old(folders), hints, k)
        invariant r.filled.Keys == HeldRoles(folders) - HeldRoles(old(folders))
                  && HeldRoles(old(folders)) <= HeldRoles(folders)
      {
        AssignedGrows(folders, hints, ALL_ROLES[k]);
        r := AssignRole(hints, ALL_ROLES[k], r);
      }
    }

    /** Import one discovery run; a run that repeats a folder is rejected whole. */
    method ImportFolders(discovered: seq<Discovered>) returns (report: Option<Report>)
      requires Valid()
      modifies this
      ensures Valid() && OnlyFills(old(folders), folders)
      ensures folders == if report.Some? then Imported(old(folders), HintsOf(discovered)) else old(folders)
      ensures report.Some? ==> report.value.filled.Keys == HeldRoles(folders) - HeldRoles(old(folders))
      ensures report.Some? ==> forall d :: d in discovered ==> Known(folders, d.name)
      ensures report.Some? <==> forall i, j :: 0 <= i < j < |discovered| ==>
        FolderKey(discovered[i].name) != FolderKey(discovered[j].name)
    {
      hide FolderKey, OneKey, OneHolder, HeldRoles, AssignedUpTo;
      var hints := NormalizeDiscovered(discovered);
      if hints.None? { return None; }
      ImportKeeps(folders, hints.value);
      InsertedKeeps(folders, hints.value);
      InsertedHolds(folders, hints.value);
      InsertFresh(hints.value);
      var r := AssignRoles(hints.value);
      forall d | d in discovered ensures Known(folders, d.name) {
        var i :| 0 <= i < |discovered| && discovered[i] == d;
        assert hints.value[i].name == d.name;
      }
      return Some(r);
    }

    /** Give one folder a role, taking it from its holder. */
    method AssignFolderRole(i: nat, role: Role)
      requires Valid() && i < |folders|
      modifies this
      ensures Valid() && folders == Chosen(old(folders), i, role)
      ensures Holder(folders, role) == i
    {
      EditKeeps(folders, Assign(i, role));
      if folders[i].role == Some(role) {
        assert folders == Chosen(folders, i, role);
        HolderIs(folders, role, i);
        return;
      }
      var holder := Holder(folders, role);
      ghost var was := folders;
      if holder < |folders| {
        folders := folders[holder := folders[holder].(role := None)];
      }
      folders := folders[i := folders[i].(role := Some(role))];
      assert folders == Chosen(was, i, role);
      HolderIs(folders, role, i);
    }

    method ClearFolderRole(i: nat)
      requires Valid() && i < |folders|
      modifies this
      ensures Valid() && folders == Edited(old(folders), Clear(i)) && folders[i].role.None?
    {
      EditKeeps(folders, Clear(i));
      if folders[i].role.None? {
        assert folders[i := folders[i].(role := None)] == folders;
        return;
      }
      folders := folders[i := folders[i].(role := None)];
    }
  }
}
