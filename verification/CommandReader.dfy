/**
 The incremental reader of client command lines: lines, literals announced at the end of a
 line, and the connection's two ways to end early. The byte stream arrives in chunks.
 */
module CommandReader {
  import opened Wrappers
  import opened CommandTokens

  const MAX_LINE_BYTES: nat := 1_048_576
  const MAX_LITERAL_BYTES: nat := 64 * 1_048_576

  datatype Event = Prompt | Command(line: string, tokens: seq<Token>)

  /** Destroyed by a limit, or stalled inside the tokenizer: either way nothing more happens. */
  datatype Status = Open | Destroyed | Stalled

  datatype Reader = Reader(buffer: string, tokens: seq<Token>, collected: string, remaining: nat,
                           firstLine: string, output: seq<Event>, status: Status)

  const FRESH := Reader("", [], "", 0, "", [], Open)

  function Closed(output: seq<Event>, status: Status): Reader {
    Reader("", [], "", 0, "", output, status)
  }

  predicate CrlfAt(s: string, k: nat) {
    k + 1 < |s| && s[k] == '\r' && s[k + 1] == '\n'
  }

  /** The first line terminator, or the length when there is none. */
  function FirstCrlf(s: string): (k: nat)
    ensures k <= |s| && (k < |s| ==> CrlfAt(s, k))
    ensures forall j :: 0 <= j < k ==> !CrlfAt(s, j)
  {
    if |s| < 2 then |s|
    else if CrlfAt(s, 0) then 0
    else
      var rest := FirstCrlf(s[1..]);
      assert forall j :: 0 < j <= rest ==> (CrlfAt(s, j) <==> CrlfAt(s[1..], j - 1));
      1 + rest
  }

  lemma CrlfAtPrefix(s: string, b: string, k: nat)
    requires k + 1 < |s|
    ensures CrlfAt(s + b, k) <==> CrlfAt(s, k)
  {
  }

  /** Where the run of digits that ends at `e` begins. */
  function DigitsStart(s: string, e: nat): (k: nat)
    requires e <= |s|
    ensures k <= e && forall j :: k <= j < e ==> IsDigit(s[j])
    ensures k > 0 ==> !IsDigit(s[k - 1])
  {
    if e == 0 || !IsDigit(s[e - 1]) then e else DigitsStart(s, e - 1)
  }

  function DigitsValue(s: string): nat
    requires forall j :: 0 <= j < |s| ==> IsDigit(s[j])
  {
    if s == "" then 0
    else
      assert IsDigit(s[|s| - 1]);
      10 * DigitsValue(s[..|s| - 1]) + (s[|s| - 1] as int - '0' as int)
  }

  datatype Split = Split(body: string, literal: Option<nat>)

  /** A line without its literal marker, and the size the marker claims. */
  function SplitMarker(line: string): Split {
    var e := |line| - 1;
    if e < 0 || line[e] != '}' then Split(line, None)
    else
      var k := DigitsStart(line, e);
      if k == e || k == 0 || line[k - 1] != '{' then Split(line, None)
      else Split(line[..k - 1], Some(DigitsValue(line[k..e])))
  }

  // ---- one turn of the loop ----

  predicate CanAdvance(r: Reader) {
    r.status == Open &&
    if r.remaining > 0 then |r.buffer| >= r.remaining else FirstCrlf(r.buffer) < |r.buffer|
  }

  /** What one whole line does, with `rest` behind its terminator. */
  function LineRead(r: Reader, line: string, rest: string): (n: Reader)
    ensures n.buffer in {"", rest}
  {
    var split := SplitMarker(line);
    var parsed := ReadTokens(split.body, []);
    if |line| > MAX_LINE_BYTES then Closed(r.output, Destroyed)
    else if parsed.None? then Closed(r.output, Stalled)
    else if split.literal.None? then
      r.(buffer := rest, tokens := [],
         output := r.output + [Command(if r.tokens == [] then line else r.firstLine, r.tokens + parsed.value)])
    else if split.literal.value > MAX_LITERAL_BYTES then Closed(r.output, Destroyed)
    else
      r.(buffer := rest, firstLine := if r.tokens == [] then line else r.firstLine,
         tokens := r.tokens + parsed.value, remaining := split.literal.value, output := r.output + [Prompt])
  }

  function Advance(r: Reader): (n: Reader)
    requires CanAdvance(r)
    ensures |n.buffer| < |r.buffer|
  {
    if r.remaining > 0 then
      r.(buffer := r.buffer[r.remaining..], tokens := r.tokens + [Literal(r.collected + r.buffer[..r.remaining])],
         collected := "", remaining := 0)
    else
      var index := FirstCrlf(r.buffer);
      LineRead(r, r.buffer[..index], r.buffer[index + 2..])
  }

  /** What the loop leaves when it needs more input. */
  function Settle(r: Reader): Reader
    requires !CanAdvance(r)
  {
    if r.status != Open then r
    else if r.remaining > 0
        then r.(buffer := "", collected := r.collected + r.buffer, remaining := r.remaining - |r.buffer|)
    else if |r.buffer| > MAX_LINE_BYTES then Closed(r.output, Destroyed)
    else r
  }

  function Drained(r: Reader): (d: Reader)
    ensures !CanAdvance(d)
    decreases |r.buffer|
  {
    if CanAdvance(r) then Drained(Advance(r)) else r
  }

  function Feed(r: Reader, chunk: string): Reader {
    r.(buffer := r.buffer + chunk)
  }

  function Received(r: Reader, chunk: string): Reader {
    if r.status == Open then Settle(Drained(Feed(r, chunk))) else r
  }

  function ReceiveAll(r: Reader, chunks: seq<string>): Reader {
    if chunks == [] then r else Received(ReceiveAll(r, chunks[..|chunks| - 1]), chunks[|chunks| - 1])
  }

  function Concat(chunks: seq<string>): string {
    if chunks == [] then "" else Concat(chunks[..|chunks| - 1]) + chunks[|chunks| - 1]
  }

  // ---- chunking ----

  /** Cut between the two bytes of the terminator of a line of exactly the limit. */
  predicate Torn(d: Reader, b: string) {
    && d.status == Open && d.remaining == 0 && |d.buffer| == MAX_LINE_BYTES + 1 && !CanAdvance(d)
    && d.buffer[MAX_LINE_BYTES] == '\r' && b != "" && b[0] == '\n'
  }

  /** The torn line itself claims a literal over the limit, so it ends the connection whole as well. */
  predicate Overclaims(d: Reader)
    requires d.buffer != ""
  {
    var split := SplitMarker(d.buffer[..|d.buffer| - 1]);
    ReadTokens(split.body, []).Some? && split.literal.Some? && split.literal.value > MAX_LITERAL_BYTES
  }

  lemma CrlfInPrefix(s: string, b: string)
    ensures FirstCrlf(s) < |s| ==> FirstCrlf(s + b) == FirstCrlf(s)
    ensures FirstCrlf(s) == |s| ==> FirstCrlf(s + b) >= |s| - 1
    ensures FirstCrlf(s) == |s| && |s| > 0 ==>
              (FirstCrlf(s + b) == |s| - 1 <==> b != "" && s[|s| - 1] == '\r' && b[0] == '\n')
  {
    forall j: nat | j + 1 < |s| ensures CrlfAt(s + b, j) <==> CrlfAt(s, j) {
      CrlfAtPrefix(s, b, j);
    }
    if FirstCrlf(s) < |s| {
      assert CrlfAt(s, FirstCrlf(s)) && CrlfAt(s + b, FirstCrlf(s));
    } else if |s| > 0 {
      assert CrlfAt(s + b, |s| - 1) <==> b != "" && s[|s| - 1] == '\r' && b[0] == '\n';
    }
  }

  lemma LineFrames(r: Reader, line: string, rest: string, b: string)
    requires r.status == Open
    ensures LineRead(Feed(r, b), line, rest + b) ==
            if LineRead(r, line, rest).status == Open then Feed(LineRead(r, line, rest), b) else LineRead(r, line, rest)
  {
  }

  /** More input behind a turn of the loop does not change the turn. */
  lemma AdvanceFrames(r: Reader, b: string)
    requires CanAdvance(r)
    ensures CanAdvance(Feed(r, b))
    ensures Advance(Feed(r, b)) == if Advance(r).status == Open then Feed(Advance(r), b) else Advance(r)
  {
    var s := r.buffer;
    if r.remaining > 0 {
      assert (s + b)[..r.remaining] == s[..r.remaining];
      assert (s + b)[r.remaining..] == s[r.remaining..] + b;
    } else {
      CrlfInPrefix(s, b);
      var index := FirstCrlf(s);
      assert (s + b)[..index] == s[..index];
      assert (s + b)[index + 2..] == s[index + 2..] + b;
      LineFrames(r, s[..index], s[index + 2..], b);
    }
  }

  lemma {:induction false} DrainFrames(r: Reader, b: string)
    ensures Drained(r).status == Open ==> Drained(Feed(r, b)) == Drained(Feed(Drained(r), b))
    ensures r.status == Open && Drained(r).status != Open ==> Drained(Feed(r, b)) == Drained(r)
    decreases |r.buffer|
  {
    if CanAdvance(r) {
      AdvanceFrames(r, b);
      DrainFrames(Advance(r), b);
    }
  }

  /** A literal whose rest is there: taken in pieces or whole, it is the same token. */
  lemma LiteralCompletes(d: Reader, b: string)
    requires d.status == Open && !CanAdvance(d) && d.remaining > 0 && |b| >= d.remaining - |d.buffer|
    ensures CanAdvance(Feed(Settle(d), b)) && CanAdvance(Feed(d, b))
            && Advance(Feed(Settle(d), b)) == Advance(Feed(d, b))
  {
    hide FirstCrlf, LineRead;
    var s, left := d.buffer, d.remaining - |d.buffer|;
    assert "" + b == b;
    assert (s + b)[..d.remaining] == s + b[..left] && (s + b)[d.remaining..] == b[left..];
    assert d.collected + (s + b[..left]) == d.collected + s + b[..left];
  }

  /** A literal still short of input waits for the same rest either way. */
  lemma LiteralWaits(d: Reader, b: string)
    requires d.status == Open && !CanAdvance(d) && d.remaining > 0 && |b| < d.remaining - |d.buffer|
    ensures !CanAdvance(Feed(Settle(d), b)) && !CanAdvance(Feed(d, b))
            && Settle(Feed(Settle(d), b)) == Settle(Feed(d, b))
  {
    hide FirstCrlf;
    assert "" + b == b && d.collected + (d.buffer + b) == d.collected + d.buffer + b;
  }

  lemma LiteralFrames(d: Reader, b: string)
    requires d.status == Open && !CanAdvance(d) && d.remaining > 0
    ensures Received(Settle(d), b) == Settle(Drained(Feed(d, b)))
  {
    assert Settle(d).status == Open;
    if |b| >= d.remaining - |d.buffer| { LiteralCompletes(d, b); } else { LiteralWaits(d, b); }
    hide CanAdvance, Advance, Settle;
  }

  /** Input behind a settled reader goes on where the whole input would have. */
  lemma SettleFrames(d: Reader, b: string)
    requires d.status == Open && !CanAdvance(d) && !Torn(d, b)
    ensures Received(Settle(d), b) == Settle(Drained(Feed(d, b)))
  {
    if d.remaining > 0 {
      LiteralFrames(d, b);
    } else if |d.buffer| > MAX_LINE_BYTES {
      CrlfInPrefix(d.buffer, b);
      var whole := Feed(d, b);
      assert FirstCrlf(whole.buffer) > MAX_LINE_BYTES;
      if CanAdvance(whole) {
        assert Advance(whole) == Closed(d.output, Destroyed);
      }
    }
  }

  lemma AdvanceOutput(r: Reader)
    requires CanAdvance(r)
    ensures |r.output| <= |Advance(r).output|
  {
    hide ReadTokens, SplitMarker;
  }

  lemma {:induction false} OutputGrows(r: Reader)
    ensures |r.output| <= |Drained(r).output|
    decreases |r.buffer|
  {
    if CanAdvance(r) {
      AdvanceOutput(r);
      OutputGrows(Advance(r));
    }
  }

  /** A torn line is destroyed in pieces and read whole, so the two differ unless it overclaims. */
  lemma TornDiffers(d: Reader, b: string)
    requires Torn(d, b)
    ensures Received(Settle(d), b) == Settle(Drained(Feed(d, b))) <==> Overclaims(d)
  {
    var s := d.buffer;
    CrlfInPrefix(s, b);
    var whole := Feed(d, b);
    assert FirstCrlf(whole.buffer) == MAX_LINE_BYTES;
    assert whole.buffer[..MAX_LINE_BYTES] == s[..|s| - 1];
    OutputGrows(Advance(whole));
  }

  /**
   Two chunks are read exactly as their concatenation, commands, tokens, literals and prompts
   alike, unless the cut falls inside the terminator of a line of exactly the limit that makes
   no oversized claim.
   */
  lemma CutIsInvisibleExactly(r: Reader, a: string, b: string)
    requires r.status == Open
    ensures Received(Received(r, a), b) == Received(r, a + b) <==>
            !Torn(Drained(Feed(r, a)), b) || Overclaims(Drained(Feed(r, a)))
  {
    var d := Drained(Feed(r, a));
    assert Feed(Feed(r, a), b) == Feed(r, a + b) by { assert r.buffer + a + b == r.buffer + (a + b); }
    DrainFrames(Feed(r, a), b);
    if d.status == Open {
      if Torn(d, b) { TornDiffers(d, b); } else { SettleFrames(d, b); }
    }
  }

  /** No line the reader gets to see has exactly the limit. */
  predicate NoFullLine(r: Reader)
    decreases |r.buffer|
  {
    CanAdvance(r) ==> (r.remaining > 0 || FirstCrlf(r.buffer) != MAX_LINE_BYTES) && NoFullLine(Advance(r))
  }

  lemma {:induction false} NoFullLineNoTear(r: Reader, b: string)
    requires NoFullLine(Feed(r, b))
    ensures !Torn(Drained(r), b)
    decreases |r.buffer|
  {
    if CanAdvance(r) {
      AdvanceFrames(r, b);
      if Advance(r).status == Open { NoFullLineNoTear(Advance(r), b); }
    } else if Torn(r, b) {
      CrlfInPrefix(r.buffer, b);
      assert false;
    }
  }

  lemma {:induction false} NoFullLinePrefix(r: Reader, b: string)
    requires NoFullLine(Feed(r, b))
    ensures NoFullLine(r)
    decreases |r.buffer|
  {
    if CanAdvance(r) {
      AdvanceFrames(r, b);
      if r.remaining == 0 { CrlfInPrefix(r.buffer, b); }
      if Advance(r).status == Open { NoFullLinePrefix(Advance(r), b); }
    }
  }

  /** However a stream is cut, the reader does with the chunks what it does with the whole. */
  lemma {:induction false} ChunkingIsInvisible(chunks: seq<string>)
    requires NoFullLine(Feed(FRESH, Concat(chunks)))
    ensures ReceiveAll(FRESH, chunks) == Received(FRESH, Concat(chunks))
  {
    if chunks == [] {
      assert Feed(FRESH, "") == FRESH;
    } else {
      var n := |chunks| - 1;
      var head := Concat(chunks[..n]);
      assert Feed(Feed(FRESH, head), chunks[n]) == Feed(FRESH, Concat(chunks));
      NoFullLinePrefix(Feed(FRESH, head), chunks[n]);
      NoFullLineNoTear(Feed(FRESH, head), chunks[n]);
      ChunkingIsInvisible(chunks[..n]);
      CutIsInvisibleExactly(FRESH, head, chunks[n]);
    }
  }

  // ---- the reader ----

  class CommandReader {
    var buffer: string
    var tokens: seq<Token>
    var literalParts: seq<string>
    var literalRemaining: nat
    var firstLine: string
    var output: seq<Event>
    var status: Status

    constructor ()
      ensures State() == FRESH
    {
      buffer, tokens, literalParts, literalRemaining, firstLine, output, status := "", [], [], 0, "", [], Open;
    }

    function State(): Reader
      reads this
    {
      if status == Open then Reader(buffer, tokens, Concat(literalParts), literalRemaining, firstLine, output, Open)
      else Closed(output, status)
    }

    /** Take what the buffer has of the literal in progress; `done` once it is whole. */
    method TakeLiteral() returns (done: bool)
      requires status == Open && literalRemaining > 0
      modifies this`buffer, this`tokens, this`literalParts, this`literalRemaining
      ensures done <==> old(CanAdvance(State()))
      ensures done ==> State() == Advance(old(State()))
      ensures !done ==> State() == Settle(old(State()))
    {
      var take := if |buffer| < literalRemaining then |buffer| else literalRemaining;
      ghost var parts := literalParts;
      literalParts := literalParts + [buffer[..take]];
      assert literalParts[..|parts|] == parts;
      assert Concat(literalParts) == Concat(parts) + buffer[..take];
      literalRemaining := literalRemaining - take;
      assert take == |buffer| ==> buffer[..take] == buffer;
      buffer := buffer[take..];
      if literalRemaining > 0 {
        return false;
      }
      tokens := tokens + [Literal(Concat(literalParts))];
      literalParts := [];
      return true;
    }

    /** One whole line, whose terminator stands at `index`. */
    method TakeLine(index: nat)
      requires status == Open && literalRemaining == 0 && index < |buffer| && index == FirstCrlf(buffer)
      modifies this
      ensures State() == Advance(old(State()))
    {
      hide ReadTokens, SplitMarker, FirstCrlf;
      if index > MAX_LINE_BYTES {
        status := Destroyed;
        return;
      }
      var line := buffer[..index];
      buffer := buffer[index + 2..];
      var split := SplitMarker(line);
      var parsed := ParseTokens(split.body);
      if parsed.None? {
        status := Stalled;
        return;
      }
      if split.literal.Some? {
        if split.literal.value > MAX_LITERAL_BYTES {
          status := Destroyed;
          return;
        }
        if tokens == [] { firstLine := line; }
        tokens := tokens + parsed.value;
        literalRemaining := split.literal.value;
        output := output + [Prompt];
        return;
      }
      var complete := tokens + parsed.value;
      var originalLine := if tokens == [] then line else firstLine;
      tokens := [];
      output := output + [Command(originalLine, complete)];
    }

    /** One chunk of input, read as far as it goes. */
    method Receive(chunk: string)
      modifies this
      ensures State() == Received(old(State()), chunk)
    {
      if status != Open { return; }
      buffer := buffer + chunk;
      ghost var fed := State();
      while true
        invariant status == Open && Drained(State()) == Drained(fed)
        decreases |buffer|
      {
        ghost var before := State();
        if literalRemaining > 0 {
          var done := TakeLiteral();
          if !done { return; }
          continue;
        }
        var index := FirstCrlf(buffer);
        if index == |buffer| {
          if |buffer| > MAX_LINE_BYTES { status := Destroyed; }
          return;
        }
        TakeLine(index);
        if status != Open { return; }
      }
    }
  }
}
