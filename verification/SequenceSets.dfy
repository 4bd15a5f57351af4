/**
 Sequence sets as text: compressing UIDs into colon ranges and expanding a range
 text against the identifiers it addresses.
 */
module SequenceSets {
  import opened Wrappers
  import opened Ascending

  // ---- text ----

  function Split(s: string, c: char): (parts: seq<string>)
    ensures |parts| >= 1
  {
    if s == "" then [""]
    else
      var rest := Split(s[1..], c);
      if s[0] == c then [""] + rest else [[s[0]] + rest[0]] + rest[1..]
  }

  function Join(parts: seq<string>, c: char): string {
    if parts == [] then ""
    else if |parts| == 1 then parts[0]
    else parts[0] + [c] + Join(parts[1..], c)
  }

  lemma {:induction false} SplitOne(p: string, c: char)
    requires c !in p
    ensures Split(p, c) == [p]
  {
    if p != "" {
      SplitOne(p[1..], c);
      assert [p[0]] + p[1..] == p;
    }
  }

  lemma {:induction false} SplitFirst(p: string, s: string, c: char)
    requires c !in p
    ensures Split(p + [c] + s, c) == [p] + Split(s, c)
  {
    var t := p + [c] + s;
    if p == "" {
      assert t[1..] == s;
    } else {
      assert t[1..] == p[1..] + [c] + s;
      SplitFirst(p[1..], s, c);
      assert [p[0]] + p[1..] == p;
    }
  }

  lemma {:induction false} SplitUndoesJoin(parts: seq<string>, c: char)
    requires |parts| >= 1 && forall p :: p in parts ==> c !in p
    ensures Split(Join(parts, c), c) == parts
  {
    if |parts| == 1 {
      SplitOne(parts[0], c);
    } else {
      SplitUndoesJoin(parts[1..], c);
      SplitFirst(parts[0], Join(parts[1..], c), c);
      assert [parts[0]] + parts[1..] == parts;
    }
  }

  function Digit(d: nat): char
    requires d < 10
  {
    "0123456789"[d]
  }

  function DigitValue(c: char): Option<nat> {
    if '0' <= c <= '9' then Some((c as int) - ('0' as int)) else None
  }

  function Decimal(n: nat): (s: string)
    ensures s != ""
  {
    if n < 10 then [Digit(n)] else Decimal(n / 10) + [Digit(n % 10)]
  }

  /** The number a digit string spells; the empty string is zero, anything else is not a number. */
  function NumberOf(s: string): Option<nat> {
    if s == "" then Some(0)
    else
      var head := NumberOf(s[..|s| - 1]);
      var last := DigitValue(s[|s| - 1]);
      if head.Some? && last.Some? then Some(10 * head.value + last.value) else None
  }

  lemma {:induction false} NumberOfDecimal(n: nat)
    ensures NumberOf(Decimal(n)) == Some(n)
    ensures forall c :: c in Decimal(n) ==> '0' <= c <= '9'
  {
    if n >= 10 {
      NumberOfDecimal(n / 10);
      var s := Decimal(n);
      assert s[..|s| - 1] == Decimal(n / 10);
    } else {
      assert Decimal(n)[..0] == "";
    }
  }

  // ---- compressing ----

  datatype Range = Range(low: nat, high: nat)

  function RangeText(r: Range): string {
    if r.low == r.high then Decimal(r.low) else Decimal(r.low) + ":" + Decimal(r.high)
  }

  function RangeTexts(rs: seq<Range>): (texts: seq<string>)
    ensures |texts| == |rs|
    ensures forall i :: 0 <= i < |rs| ==> texts[i] == RangeText(rs[i])
  {
    seq(|rs|, i requires 0 <= i < |rs| => RangeText(rs[i]))
  }

  /** The maximal runs of consecutive numbers, in order. */
  function Compress(s: seq<nat>): (rs: seq<Range>)
    requires s != []
    ensures rs != [] && rs[|rs| - 1].high == s[|s| - 1]
  {
    var n := |s| - 1;
    if n == 0 then [Range(s[0], s[0])]
    else
      var rs := Compress(s[..n]);
      if s[n] == s[n - 1] + 1 then rs[..|rs| - 1] + [Range(rs[|rs| - 1].low, s[n])]
      else rs + [Range(s[n], s[n])]
  }

  ghost predicate Covers(rs: seq<Range>, x: nat) {
    exists r :: r in rs && r.low <= x <= r.high
  }

  /** The runs cover exactly the listed numbers, and each run is a proper interval. */
  lemma {:induction false} CompressCovers(s: seq<nat>)
    requires s != []
    ensures forall x: nat :: Covers(Compress(s), x) <==> x in s
    ensures forall r :: r in Compress(s) ==> r.low <= r.high
  {
    var n := |s| - 1;
    if n > 0 {
      CompressCovers(s[..n]);
      var before := Compress(s[..n]);
      var rs := Compress(s);
      var last := before[|before| - 1];
      assert forall x :: x in s <==> x in s[..n] || x == s[n];
      if s[n] == s[n - 1] + 1 {
        var merged := Range(last.low, s[n]);
        assert forall r :: r in rs <==> r in before[..|before| - 1] || r == merged;
        assert forall r :: r in before <==> r in before[..|before| - 1] || r == last;
        forall x: nat ensures Covers(rs, x) <==> Covers(before, x) || x == s[n] {
          if Covers(before, x) {
            var r :| r in before && r.low <= x <= r.high;
            if r == last { assert merged in rs; } else { assert r in rs; }
          }
          if x == s[n] { assert merged in rs; }
          if Covers(rs, x) && x != s[n] {
            var r :| r in rs && r.low <= x <= r.high;
            if r == merged { assert last in before; } else { assert r in before; }
          }
        }
      } else {
        var own := Range(s[n], s[n]);
        forall x: nat ensures Covers(rs, x) <==> Covers(before, x) || x == s[n] {
          if Covers(before, x) {
            var r :| r in before && r.low <= x <= r.high;
            assert r in rs;
          }
          if x == s[n] { assert own in rs; }
        }
      }
    } else {
      assert Range(s[0], s[0]) in Compress(s);
    }
  }

  /** The text of a list of numbers; an empty list reads as a lone zero. */
  function RangesText(values: seq<nat>): string {
    var sorted := SortValues(values);
    Join(RangeTexts(if sorted == [] then [Range(0, 0)] else Compress(sorted)), ',')
  }

  /** The text of one more run, behind the texts of the others. */
  lemma RangeTextsAppend(rs: seq<Range>, r: Range)
    ensures RangeTexts(rs + [r]) == RangeTexts(rs) + [RangeText(r)]
  {
  }

  /** After `i` numbers: the closed runs, and the one still open from `start` to `previous`. */
  ghost predicate OpenRun(sorted: seq<nat>, i: nat, ranges: seq<Range>, start: nat, previous: nat) {
    if sorted == [] then ranges + [Range(start, previous)] == [Range(0, 0)]
    else 1 <= i <= |sorted| && previous == sorted[i - 1] && ranges + [Range(start, previous)] == Compress(sorted[..i])
  }

  /** One more number either lengthens the open run or closes it and starts a new one. */
  lemma OpenRunTurn(s: seq<nat>, i: nat, ranges: seq<Range>, start: nat, previous: nat)
    requires 1 <= i < |s| && OpenRun(s, i, ranges, start, previous)
    ensures if s[i] == previous + 1 then OpenRun(s, i + 1, ranges, start, s[i])
            else OpenRun(s, i + 1, ranges + [Range(start, previous)], s[i], s[i])
  {
    assert s[..i + 1][..i] == s[..i];
    var before := Compress(s[..i]);
    assert before[..|before| - 1] == ranges && before[|before| - 1] == Range(start, s[i - 1]);
  }

  lemma OpenRunStarts(s: seq<nat>)
    ensures OpenRun(s, 1, [], if s == [] then 0 else s[0], if s == [] then 0 else s[0])
  {
    if s != [] { assert s[..1] == [s[0]]; }
  }

  /** The last run closes the text. */
  lemma OpenRunEnds(values: seq<nat>, i: nat, ranges: seq<Range>, start: nat, previous: nat)
    requires OpenRun(SortValues(values), i, ranges, start, previous) && i >= |SortValues(values)|
    ensures Join(RangeTexts(ranges) + [RangeText(Range(start, previous))], ',') == RangesText(values)
  {
    hide Join, RangeText;
    var sorted := SortValues(values);
    RangeTextsAppend(ranges, Range(start, previous));
    if sorted != [] { assert sorted[..i] == sorted; }
  }

  method JoinRanges(values: seq<nat>) returns (text: string)
    ensures text == RangesText(values)
  {
    hide Decimal, Join, Compress, OpenRun, RangeTexts, RangesText;
    var sorted := SortValues(values);
    var start := if sorted == [] then 0 else sorted[0];
    var previous := start;
    var parts: seq<string> := [];
    ghost var ranges: seq<Range> := [];
    var i := 1;
    OpenRunStarts(sorted);
    while i < |sorted|
      invariant 1 <= i && OpenRun(sorted, i, ranges, start, previous)
      invariant parts == RangeTexts(ranges)
    {
      var value := sorted[i];
      OpenRunTurn(sorted, i, ranges, start, previous);
      if value == previous + 1 {
        previous := value;
      } else {
        RangeTextsAppend(ranges, Range(start, previous));
        parts := parts + [if start == previous then Decimal(start) else Decimal(start) + ":" + Decimal(previous)];
        ranges := ranges + [Range(start, previous)];
        start, previous := value, value;
      }
      i := i + 1;
    }
    OpenRunEnds(values, i, ranges, start, previous);
    parts := parts + [if start == previous then Decimal(start) else Decimal(start) + ":" + Decimal(previous)];
    text := Join(parts, ',');
  }

  // ---- expanding ----

  function BoundOf(text: string, highest: nat): Option<nat> {
    if text == "*" then Some(highest) else NumberOf(text)
  }

  /** Whether one comma-separated entry addresses `id`; an entry that is not a number addresses nothing. */
  predicate Addresses(entry: string, highest: nat, id: nat) {
    var parts := Split(entry, ':');
    && parts[0] != ""
    && var low := BoundOf(parts[0], highest);
    && var high := if |parts| < 2 then low else BoundOf(parts[1], highest);
    && low.Some? && high.Some?
    && Min(low.value, high.value) <= id <= Max(low.value, high.value)
  }

  function Highest(identifiers: seq<nat>): nat {
    if identifiers == [] then 0 else identifiers[|identifiers| - 1]
  }

  function Expand(range: string, identifiers: seq<nat>): set<nat> {
    var entries := Split(range, ',');
    set id | id in identifiers && exists k :: 0 <= k < |entries| && Addresses(entries[k], Highest(identifiers), id)
  }

  method ExpandSequenceSet(range: string, identifiers: seq<nat>) returns (wanted: set<nat>)
    ensures wanted == Expand(range, identifiers)
  {
    wanted := {};
    var highest := Highest(identifiers);
    var entries := Split(range, ',');
    for e := 0 to |entries|
      invariant forall id :: id in wanted <==>
        id in identifiers && exists k :: 0 <= k < e && Addresses(entries[k], highest, id)
    {
      var parts := Split(entries[e], ':');
      if parts[0] == "" {
        continue;
      }
      var low := BoundOf(parts[0], highest);
      var high := if |parts| < 2 then low else BoundOf(parts[1], highest);
      if low.None? || high.None? {
        continue;
      }
      ghost var before := wanted;
      for i := 0 to |identifiers|
        invariant forall id :: id in wanted <==>
          id in before || (id in identifiers[..i] && Min(low.value, high.value) <= id <= Max(low.value, high.value))
      {
        if identifiers[i] >= Min(low.value, high.value) && identifiers[i] <= Max(low.value, high.value) {
          wanted := wanted + {identifiers[i]};
        }
      }
      assert identifiers[..|identifiers|] == identifiers;
    }
  }

  // ---- what a client means by a set ----

  datatype Bound = Number(n: nat) | Star

  datatype SetEntry = One(at: Bound) | Span(from: Bound, to: Bound)

  function BoundText(b: Bound): string {
    match b
    case Number(n) => Decimal(n)
    case Star => "*"
  }

  function EntryText(e: SetEntry): string {
    match e
    case One(at) => BoundText(at)
    case Span(from, to) => BoundText(from) + ":" + BoundText(to)
  }

  function EntryTexts(entries: seq<SetEntry>): (texts: seq<string>)
    ensures |texts| == |entries|
    ensures forall k :: 0 <= k < |entries| ==> texts[k] == EntryText(entries[k])
  {
    seq(|entries|, k requires 0 <= k < |entries| => EntryText(entries[k]))
  }

  /** A star stands for the last of the identifiers. */
  function BoundValue(b: Bound, identifiers: seq<nat>): nat {
    match b
    case Number(n) => n
    case Star => if identifiers == [] then 0 else identifiers[|identifiers| - 1]
  }

  /** One number, or everything between two in either order. */
  predicate EntryMeans(e: SetEntry, identifiers: seq<nat>, id: nat) {
    match e
    case One(at) => id == BoundValue(at, identifiers)
    case Span(from, to) =>
      var a, b := BoundValue(from, identifiers), BoundValue(to, identifiers);
      a <= id <= b || b <= id <= a
  }

  lemma BoundReads(b: Bound, identifiers: seq<nat>)
    ensures BoundOf(BoundText(b), Highest(identifiers)) == Some(BoundValue(b, identifiers))
    ensures BoundText(b) != "" && ':' !in BoundText(b) && ',' !in BoundText(b)
  {
    if b.Number? {
      NumberOfDecimal(b.n);
      assert BoundText(b) != "*" by { assert '*' !in BoundText(b); }
    }
  }

  lemma EntryReads(e: SetEntry, identifiers: seq<nat>, id: nat)
    ensures Addresses(EntryText(e), Highest(identifiers), id) <==> EntryMeans(e, identifiers, id)
    ensures ',' !in EntryText(e)
  {
    match e {
      case One(at) =>
        BoundReads(at, identifiers);
        SplitOne(BoundText(at), ':');
      case Span(from, to) =>
        BoundReads(from, identifiers);
        BoundReads(to, identifiers);
        SplitFirst(BoundText(from), BoundText(to), ':');
        SplitOne(BoundText(to), ':');
        assert EntryText(e) == BoundText(from) + [':'] + BoundText(to);
    }
  }

  /** A written set addresses exactly the identifiers some entry of it means, stars and reversed spans included. */
  lemma SetReads(entries: seq<SetEntry>, identifiers: seq<nat>)
    requires entries != []
    ensures Expand(Join(EntryTexts(entries), ','), identifiers) ==
            set id | id in identifiers && exists k :: 0 <= k < |entries| && EntryMeans(entries[k], identifiers, id)
  {
    hide Addresses, EntryText, EntryMeans, Join, Split;
    var texts := EntryTexts(entries);
    forall k | 0 <= k < |entries|
      ensures ',' !in texts[k]
      ensures forall id :: Addresses(texts[k], Highest(identifiers), id) <==> EntryMeans(entries[k], identifiers, id)
    {
      EntryReads(entries[k], identifiers, 0);
      forall id ensures Addresses(texts[k], Highest(identifiers), id) <==> EntryMeans(entries[k], identifiers, id) {
        EntryReads(entries[k], identifiers, id);
      }
    }
    SplitUndoesJoin(texts, ',');
    forall id | id in identifiers
      ensures (exists k :: 0 <= k < |texts| && Addresses(texts[k], Highest(identifiers), id)) <==>
              (exists k :: 0 <= k < |entries| && EntryMeans(entries[k], identifiers, id))
    {
      if k :| 0 <= k < |texts| && Addresses(texts[k], Highest(identifiers), id) {
        assert EntryMeans(entries[k], identifiers, id);
      }
      if k :| 0 <= k < |entries| && EntryMeans(entries[k], identifiers, id) {
        assert Addresses(texts[k], Highest(identifiers), id);
      }
    }
  }

  lemma RangeAddresses(r: Range, highest: nat, id: nat)
    requires r.low <= r.high
    ensures Addresses(RangeText(r), highest, id) <==> r.low <= id <= r.high
    ensures ',' !in RangeText(r)
  {
    NumberOfDecimal(r.low);
    NumberOfDecimal(r.high);
    if r.low == r.high {
      SplitOne(Decimal(r.low), ':');
    } else {
      SplitFirst(Decimal(r.low), Decimal(r.high), ':');
      SplitOne(Decimal(r.high), ':');
      assert RangeText(r) == Decimal(r.low) + [':'] + Decimal(r.high);
    }
  }

  lemma TextsAddress(ranges: seq<Range>, highest: nat, id: nat)
    requires forall r :: r in ranges ==> r.low <= r.high
    ensures (exists k :: 0 <= k < |ranges| && Addresses(RangeTexts(ranges)[k], highest, id)) <==> Covers(ranges, id)
    ensures forall text :: text in RangeTexts(ranges) ==> ',' !in text
  {
    var texts := RangeTexts(ranges);
    forall k | 0 <= k < |ranges|
      ensures Addresses(texts[k], highest, id) <==> ranges[k].low <= id <= ranges[k].high
      ensures ',' !in texts[k]
    {
      RangeAddresses(ranges[k], highest, id);
    }
    if Covers(ranges, id) {
      var r :| r in ranges && r.low <= id <= r.high;
      var k :| 0 <= k < |ranges| && ranges[k] == r;
      assert Addresses(texts[k], highest, id);
    }
  }

  /** Expanding the compressed text of any non-empty list gives back exactly its members. */
  lemma ExpandUndoesJoin(values: seq<nat>, identifiers: seq<nat>)
    requires values != []
    ensures Expand(RangesText(values), identifiers) == set id | id in identifiers && id in values
  {
    var sorted := SortValues(values);
    var ranges := Compress(sorted);
    var highest := Highest(identifiers);
    CompressCovers(sorted);
    TextsAddress(ranges, highest, 0);
    SplitUndoesJoin(RangeTexts(ranges), ',');
    forall id: nat
      ensures id in values <==>
        exists k :: 0 <= k < |ranges| && Addresses(RangeTexts(ranges)[k], highest, id)
    {
      TextsAddress(ranges, highest, id);
      assert id in values <==> id in multiset(values);
      assert id in sorted <==> id in multiset(sorted);
    }
  }

  /**
   The two range sets of a COPYUID answer, each expanded against the UIDs of its folder and
   listed in order, are the source and the destination UIDs position by position.
   */
  lemma CopyUidPairs(source: seq<nat>, destination: seq<nat>, sourceUids: seq<nat>, destinationUids: seq<nat>)
    requires source != [] && |source| == |destination|
    requires StrictlyAscending(source) && StrictlyAscending(destination)
    requires forall x :: x in source ==> x in sourceUids
    requires forall x :: x in destination ==> x in destinationUids
    ensures Sorted(Expand(RangesText(source), sourceUids)) == source
    ensures Sorted(Expand(RangesText(destination), destinationUids)) == destination
  {
    ExpandUndoesJoin(source, sourceUids);
    ExpandUndoesJoin(destination, destinationUids);
    SortedIs(source, Expand(RangesText(source), sourceUids));
    SortedIs(destination, Expand(RangesText(destination), destinationUids));
  }
}
