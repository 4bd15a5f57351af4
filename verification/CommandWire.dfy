/**
 Whole commands on the wire: what a client writes for a token list with literals, and that the
 reader gives it back.
 */
module CommandWire {
  import opened Wrappers
  import opened SequenceSets
  import opened CommandTokens
  import opened CommandPrinting
  import opened CommandReader

  /** How many tokens precede the first literal. */
  function BeforeLiteral(tokens: seq<Token>): (n: nat)
    ensures n <= |tokens| && (forall k :: 0 <= k < n ==> !tokens[k].Literal?) && (n < |tokens| ==> tokens[n].Literal?)
  {
    if tokens == [] || tokens[0].Literal? then 0 else 1 + BeforeLiteral(tokens[1..])
  }

  /** The line up to the first literal, or to the end of the command. */
  function Body(tokens: seq<Token>): string {
    var n := BeforeLiteral(tokens);
    PrintTokens(tokens[..n]) + if 0 < n < |tokens| then " " else ""
  }

  function Line(tokens: seq<Token>): string {
    var n := BeforeLiteral(tokens);
    Body(tokens) + if n < |tokens| then "{" + Decimal(|tokens[n].bytes|) + "}" else ""
  }

  /** The bytes of one command: a line, and behind each announced literal its bytes and the rest. */
  function Wire(tokens: seq<Token>): string
    decreases |tokens|
  {
    var n := BeforeLiteral(tokens);
    Line(tokens) + "\r\n" + if n < |tokens| then tokens[n].bytes + Wire(tokens[n + 1..]) else ""
  }

  function Literals(tokens: seq<Token>): nat {
    if tokens == [] then 0 else Literals(tokens[1..]) + if tokens[0].Literal? then 1 else 0
  }

  /** The tokens the reader makes of a command: a literal of no bytes never becomes one. */
  function Solid(tokens: seq<Token>): seq<Token> {
    if tokens == [] then [] else (if tokens[0] == Literal("") then [] else [tokens[0]]) + Solid(tokens[1..])
  }

  predicate NoEmptyLiteral(tokens: seq<Token>) {
    Literal("") !in tokens
  }

  /** Whether nothing has become a token once the first literal is in, when nothing had before the line. */
  predicate StillEmpty(empty: bool, tokens: seq<Token>)
    requires BeforeLiteral(tokens) < |tokens|
  {
    empty && BeforeLiteral(tokens) == 0 && tokens[0].bytes == ""
  }

  /** The line the reader keeps as the command's first: the last announcing line it read without a token in hand. */
  function KeptLine(empty: bool, first: string, tokens: seq<Token>): string
    decreases |tokens|
  {
    var n := BeforeLiteral(tokens);
    if n == |tokens| then first
    else KeptLine(StillEmpty(empty, tokens), if empty then Line(tokens) else first, tokens[n + 1..])
  }

  /** The line a command is reported with, `held` being the one kept so far. */
  function ReportedLine(held: Option<string>, tokens: seq<Token>): string
    decreases |tokens|
  {
    var n := BeforeLiteral(tokens);
    var here := if held.None? then Line(tokens) else held.value;
    if n == |tokens| then here
    else ReportedLine(if StillEmpty(held.None?, tokens) then None else Some(here), tokens[n + 1..])
  }

  function Held(r: Reader): Option<string> {
    if r.tokens == [] then None else Some(r.firstLine)
  }

  predicate OneLine(s: string) {
    forall k :: 0 <= k < |s| ==> s[k] != '\r' && s[k] != '\n'
  }

  /** What the protocol can carry: printable tokens, literals within the limit, lines within theirs. */
  predicate Sendable(tokens: seq<Token>)
    decreases |tokens|
  {
    var n := BeforeLiteral(tokens);
    && AllPrintable(tokens[..n]) && OneLine(Body(tokens)) && |Line(tokens)| <= MAX_LINE_BYTES
    && (n < |tokens| ==> |tokens[n].bytes| <= MAX_LITERAL_BYTES && Sendable(tokens[n + 1..]))
  }

  function Prompts(k: nat): seq<Event> {
    seq(k, _ => Prompt)
  }

  // ---- lines ----

  lemma FirstCrlfAfterLine(line: string, rest: string)
    requires OneLine(line)
    ensures FirstCrlf(line + "\r\n" + rest) == |line|
  {
    var s := line + "\r\n" + rest;
    assert CrlfAt(s, |line|);
    forall j | 0 <= j < |line| ensures !CrlfAt(s, j) {
      assert s[j] == line[j];
    }
  }

  lemma {:induction false} DecimalReads(n: nat)
    ensures forall k :: 0 <= k < |Decimal(n)| ==> IsDigit(Decimal(n)[k])
    ensures DigitsValue(Decimal(n)) == n
  {
    var s := Decimal(n);
    if n < 10 {
      assert s == [Digit(n)] && s[..0] == "";
      assert DigitsValue(s[..|s| - 1]) == 0;
    } else {
      DecimalReads(n / 10);
      assert s[..|s| - 1] == Decimal(n / 10) && s[|s| - 1] == Digit(n % 10);
      forall k | 0 <= k < |s| ensures IsDigit(s[k]) {
        if k < |s| - 1 { assert s[k] == Decimal(n / 10)[k]; }
      }
    }
  }

  lemma {:induction false} DigitsEnd(s: string, from: nat, e: nat)
    requires 0 < from <= e <= |s| && !IsDigit(s[from - 1]) && forall k :: from <= k < e ==> IsDigit(s[k])
    ensures DigitsStart(s, e) == from
    decreases e
  {
    if from < e { DigitsEnd(s, from, e - 1); }
  }

  lemma MarkerParts(line: string, body: string, digits: string)
    requires line == body + "{" + digits + "}"
    ensures |line| == |body| + |digits| + 2 && line[|body|] == '{' && line[|line| - 1] == '}'
    ensures line[..|body|] == body && line[|body| + 1..|line| - 1] == digits
    ensures forall k :: 0 <= k < |digits| ==> line[|body| + 1 + k] == digits[k]
  {
  }

  lemma SplitAtMarker(line: string, from: nat, digits: string)
    requires 0 < from && |line| == from + |digits| + 1 && digits != ""
    requires line[from - 1] == '{' && line[|line| - 1] == '}' && line[from..|line| - 1] == digits
    requires forall k :: from <= k < |line| - 1 ==> IsDigit(line[k])
    ensures SplitMarker(line) == Split(line[..from - 1], Some(DigitsValue(line[from..|line| - 1])))
  {
    hide DigitsValue;
    DigitsEnd(line, from, |line| - 1);
  }

  lemma MarkerSplits(body: string, n: nat)
    ensures SplitMarker(body + "{" + Decimal(n) + "}") == Split(body, Some(n))
  {
    hide SplitMarker, Decimal, DigitsValue, IsDigit;
    DecimalReads(n);
    var line, digits := body + "{" + Decimal(n) + "}", Decimal(n);
    MarkerParts(line, body, digits);
    forall k | |body| + 1 <= k < |line| - 1 ensures IsDigit(line[k]) {
      assert line[|body| + 1 + (k - |body| - 1)] == digits[k - |body| - 1];
    }
    SplitAtMarker(line, |body| + 1, digits);
  }

  lemma {:induction false} PrintedEnds(tokens: seq<Token>)
    requires AllPrintable(tokens) && tokens != []
    ensures PrintTokens(tokens) != "" && PrintTokens(tokens)[|PrintTokens(tokens)| - 1] != '}'
    decreases |tokens|
  {
    if |tokens| > 1 {
      PrintedEnds(tokens[1..]);
    } else {
      assert Printable(tokens[0]);
      var s := PrintToken(tokens[0]);
      match tokens[0] {
        case Atom(value, section) =>
          if section.None? { assert s == value && PlainChar(value[|value| - 1]); }
        case Quoted(_) =>
        case List(_) =>
      }
    }
  }

  lemma PlainSplits(tokens: seq<Token>)
    requires AllPrintable(tokens)
    ensures SplitMarker(PrintTokens(tokens)) == Split(PrintTokens(tokens), None)
  {
    if tokens != [] { PrintedEnds(tokens); }
  }

  lemma {:induction false} BeforeLiteralTake(tokens: seq<Token>)
    ensures Literals(tokens) == if BeforeLiteral(tokens) < |tokens|
            then 1 + Literals(tokens[BeforeLiteral(tokens) + 1..]) else 0
  {
    if tokens != [] && !tokens[0].Literal? {
      BeforeLiteralTake(tokens[1..]);
      var n := BeforeLiteral(tokens[1..]);
      if n < |tokens[1..]| { assert tokens[1..][n + 1..] == tokens[n + 2..]; }
    } else if tokens != [] {
      assert tokens[1..] == tokens[BeforeLiteral(tokens) + 1..];
    }
  }

  // ---- one command ----

  /** A reader between two lines. */
  predicate AtLine(r: Reader) {
    r.status == Open && r.remaining == 0 && r.collected == ""
  }

  lemma AdvanceAtLine(r: Reader, line: string, rest: string)
    requires AtLine(r) && OneLine(line) && r.buffer == line + "\r\n" + rest
    ensures CanAdvance(r) && Advance(r) == LineRead(r, line, rest)
  {
    hide LineRead, FirstCrlf;
    FirstCrlfAfterLine(line, rest);
    assert r.buffer[..|line|] == line && r.buffer[|line| + 2..] == rest;
  }

  lemma PlainLineRead(r: Reader, line: string, tokens: seq<Token>, rest: string)
    requires SplitMarker(line) == Split(line, None) && ReadTokens(line, []) == Some(tokens) && |line| <= MAX_LINE_BYTES
    ensures LineRead(r, line, rest) ==
            r.(buffer := rest, tokens := [],
               output := r.output + [Command(if r.tokens == [] then line else r.firstLine, r.tokens + tokens)])
  {
    hide SplitMarker, ReadTokens;
  }

  lemma MarkedLineRead(r: Reader, line: string, body: string, size: nat, tokens: seq<Token>, rest: string)
    requires SplitMarker(line) == Split(body, Some(size)) && ReadTokens(body, []) == Some(tokens)
    requires |line| <= MAX_LINE_BYTES && size <= MAX_LITERAL_BYTES
    ensures LineRead(r, line, rest) ==
            r.(buffer := rest, firstLine := if r.tokens == [] then line else r.firstLine, tokens := r.tokens + tokens,
               remaining := size, output := r.output + [Prompt])
  {
    hide SplitMarker, ReadTokens;
  }

  /** A command without a literal is its printed line. */
  lemma LastLineShape(tokens: seq<Token>)
    requires Sendable(tokens) && BeforeLiteral(tokens) == |tokens|
    ensures AllPrintable(tokens) && |Line(tokens)| <= MAX_LINE_BYTES && Line(tokens) == PrintTokens(tokens)
    ensures Wire(tokens) == Line(tokens) + "\r\n"
  {
    assert tokens[..|tokens|] == tokens;
    assert Body(tokens) == PrintTokens(tokens);
  }

  /** What a line without a marker does: the command is complete. */
  lemma LastLineReads(r: Reader, tokens: seq<Token>, rest: string)
    requires AtLine(r) && Sendable(tokens) && BeforeLiteral(tokens) == |tokens| && r.buffer == Wire(tokens) + rest
    ensures CanAdvance(r)
    ensures Advance(r) == r.(buffer := rest, tokens := [],
                             output := r.output +
                                 [Command(if r.tokens == [] then Line(tokens) else r.firstLine, r.tokens + tokens)])
  {
    hide *;
    var line := Line(tokens);
    LastLineShape(tokens);
    LineIsOne(tokens);
    AdvanceAtLine(r, line, rest);
    PlainSplits(tokens);
    TokensReadBack(tokens, [], "");
    assert line + "" == line && [] + tokens == tokens;
    PlainLineRead(r, line, tokens, rest);
  }

  /** A command up to its first literal: the line announces it, its bytes and the rest follow. */
  lemma MarkedShape(tokens: seq<Token>)
    requires Sendable(tokens) && BeforeLiteral(tokens) < |tokens|
    ensures var n := BeforeLiteral(tokens);
            && tokens[n].Literal? && AllPrintable(tokens[..n]) && |Line(tokens)| <= MAX_LINE_BYTES
               && |tokens[n].bytes| <= MAX_LITERAL_BYTES
            && Line(tokens) == Body(tokens) + "{" + Decimal(|tokens[n].bytes|) + "}"
            && Body(tokens) == PrintTokens(tokens[..n]) + (if 0 < n then " " else "")
            && Wire(tokens) == Line(tokens) + "\r\n" + (tokens[n].bytes + Wire(tokens[n + 1..]))
  {
  }

  /** What a line with a marker does: its tokens are kept, a prompt goes out, the literal is awaited. */
  lemma MarkedLineReads(r: Reader, tokens: seq<Token>, rest: string)
    requires AtLine(r) && Sendable(tokens) && BeforeLiteral(tokens) < |tokens| && r.buffer == Wire(tokens) + rest
    ensures CanAdvance(r)
    ensures var n := BeforeLiteral(tokens);
            Advance(r) == r.(buffer := tokens[n].bytes + Wire(tokens[n + 1..]) + rest, tokens := r.tokens + tokens[..n],
                             firstLine := if r.tokens == [] then Line(tokens) else r.firstLine,
                             remaining := |tokens[n].bytes|, output := r.output + [Prompt])
  {
    hide *;
    MarkedShape(tokens);
    var n, line, body := BeforeLiteral(tokens), Line(tokens), Body(tokens);
    var size, head, tail := |tokens[n].bytes|, tokens[..n], tokens[n].bytes + Wire(tokens[n + 1..]) + rest;
    assert r.buffer == line + "\r\n" + tail;
    LineIsOne(tokens);
    AdvanceAtLine(r, line, tail);
    MarkerSplits(body, size);
    TokensReadBack(head, [], if 0 < n then " " else "");
    assert [] + head == head;
    MarkedLineRead(r, line, body, size, head, tail);
  }

  lemma LineIsOne(tokens: seq<Token>)
    requires Sendable(tokens)
    ensures OneLine(Line(tokens))
  {
    var n := BeforeLiteral(tokens);
    if n < |tokens| {
      var digits := Decimal(|tokens[n].bytes|);
      DecimalReads(|tokens[n].bytes|);
      var line := Line(tokens);
      forall k | 0 <= k < |line| ensures line[k] != '\r' && line[k] != '\n' {
        if |Body(tokens)| < k < |line| - 1 { assert line[k] == digits[k - |Body(tokens)| - 1] && IsDigit(line[k]); }
      }
    }
  }

  /** The literal itself: exactly its bytes become one token. */
  lemma LiteralReads(r: Reader, bytes: string, rest: string)
    requires r.status == Open && r.collected == "" && r.remaining == |bytes| > 0 && r.buffer == bytes + rest
    ensures CanAdvance(r) && Advance(r) == r.(buffer := rest, tokens := r.tokens + [Literal(bytes)], remaining := 0)
  {
    assert r.buffer[..|bytes|] == bytes && r.buffer[|bytes|..] == rest && "" + bytes == bytes;
  }

  /** The reader after a whole command: a prompt a literal, then the command with the tokens that came through. */
  function AfterCommand(r: Reader, tokens: seq<Token>, rest: string): Reader {
    r.(buffer := rest, tokens := [], firstLine := KeptLine(r.tokens == [], r.firstLine, tokens),
       output := r.output + Prompts(Literals(tokens)) +
                 [Command(ReportedLine(Held(r), tokens), r.tokens + Solid(tokens))])
  }

  /** The reader once the announced literal is in. */
  function AfterLiteral(r: Reader, tokens: seq<Token>, rest: string): Reader
    requires BeforeLiteral(tokens) < |tokens|
  {
    var n := BeforeLiteral(tokens);
    r.(buffer := Wire(tokens[n + 1..]) + rest, tokens := r.tokens + tokens[..n] + Solid([tokens[n]]),
       firstLine := if r.tokens == [] then Line(tokens) else r.firstLine, output := r.output + [Prompt])
  }

  lemma DrainStep(r: Reader)
    requires CanAdvance(r)
    ensures Drained(r) == Drained(Advance(r))
  {
    hide CanAdvance, Advance;
  }

  lemma RestIsSendable(tokens: seq<Token>)
    requires Sendable(tokens) && BeforeLiteral(tokens) < |tokens|
    ensures tokens[BeforeLiteral(tokens)].Literal? && Sendable(tokens[BeforeLiteral(tokens) + 1..])
  {
    hide Wire, Line, Body, BeforeLiteral;
  }

  lemma FirstLiteralReads(r: Reader, tokens: seq<Token>, rest: string)
    requires AtLine(r) && Sendable(tokens) && BeforeLiteral(tokens) < |tokens| && r.buffer == Wire(tokens) + rest
    ensures Drained(r) == Drained(AfterLiteral(r, tokens, rest)) && AtLine(AfterLiteral(r, tokens, rest))
  {
    hide CanAdvance, Advance, Drained, Wire, Line, Body, Sendable, BeforeLiteral;
    RestIsSendable(tokens);
    MarkedLineReads(r, tokens, rest);
    DrainStep(r);
    var n := BeforeLiteral(tokens);
    var bytes, more := tokens[n].bytes, Wire(tokens[n + 1..]) + rest;
    assert tokens[n] == Literal(bytes);
    var announced := Advance(r);
    assert announced.buffer == bytes + more;
    if bytes == "" {
      assert Solid([tokens[n]]) == [] && announced.tokens + [] == announced.tokens && announced.buffer == more;
    } else {
      LiteralReads(announced, bytes, more);
      DrainStep(announced);
      assert Solid([tokens[n]]) == [tokens[n]];
      assert Advance(announced) == AfterLiteral(r, tokens, rest);
    }
  }

  lemma PromptsAdd(output: seq<Event>, k: nat, e: Event)
    ensures output + [Prompt] + Prompts(k) + [e] == output + Prompts(k + 1) + [e]
  {
    assert Prompts(k + 1) == [Prompt] + Prompts(k);
  }

  lemma {:induction false} SolidAdds(a: seq<Token>, b: seq<Token>)
    ensures Solid(a + b) == Solid(a) + Solid(b)
  {
    if a == [] {
      assert a + b == b;
    } else {
      assert (a + b)[1..] == a[1..] + b;
      SolidAdds(a[1..], b);
    }
  }

  /** A command reads back whole exactly when none of its literals is empty. */
  lemma {:induction false} SolidIsWholeExactly(tokens: seq<Token>)
    ensures |Solid(tokens)| <= |tokens|
    ensures Solid(tokens) == tokens <==> NoEmptyLiteral(tokens)
  {
    if tokens != [] {
      SolidIsWholeExactly(tokens[1..]);
      assert tokens == [tokens[0]] + tokens[1..];
    }
  }

  lemma SolidParts(head: seq<Token>, literal: Token, rest: seq<Token>)
    requires NoEmptyLiteral(head)
    ensures Solid(head + [literal] + rest) == head + Solid([literal]) + Solid(rest)
  {
    SolidIsWholeExactly(head);
    hide Solid;
    SolidAdds(head + [literal], rest);
    SolidAdds(head, [literal]);
  }

  lemma SplitAt(tokens: seq<Token>, n: nat)
    requires n < |tokens|
    ensures tokens[..n] + [tokens[n]] + tokens[n + 1..] == tokens
  {
  }

  lemma SolidAt(tokens: seq<Token>)
    requires BeforeLiteral(tokens) < |tokens|
    ensures var n := BeforeLiteral(tokens); Solid(tokens) == tokens[..n] + Solid([tokens[n]]) + Solid(tokens[n + 1..])
  {
    hide Solid;
    var n := BeforeLiteral(tokens);
    SplitAt(tokens, n);
    SolidParts(tokens[..n], tokens[n], tokens[n + 1..]);
  }

  lemma NothingYet(tokens: seq<Token>, n: nat)
    requires n < |tokens| && tokens[n].Literal?
    ensures tokens[..n] + Solid([tokens[n]]) == [] <==> n == 0 && tokens[n].bytes == ""
  {
  }

  /** The lines as seen from behind the first literal. */
  lemma LinesAfterLiteral(r: Reader, tokens: seq<Token>, rest: string)
    requires BeforeLiteral(tokens) < |tokens|
    ensures var mid := AfterLiteral(r, tokens, rest); var more := tokens[BeforeLiteral(tokens) + 1..];
            && ReportedLine(Held(mid), more) == ReportedLine(Held(r), tokens)
            && KeptLine(mid.tokens == [], mid.firstLine, more) == KeptLine(r.tokens == [], r.firstLine, tokens)
  {
    hide Wire, Line, BeforeLiteral, Solid;
    var n := BeforeLiteral(tokens);
    NothingYet(tokens, n);
    var mid := AfterLiteral(r, tokens, rest);
    assert mid.tokens == r.tokens + (tokens[..n] + Solid([tokens[n]]));
    assert mid.tokens == [] <==> StillEmpty(r.tokens == [], tokens);
  }

  lemma TokensAfterLiteral(r: Reader, tokens: seq<Token>, rest: string)
    requires BeforeLiteral(tokens) < |tokens|
    ensures AfterLiteral(r, tokens, rest).tokens + Solid(tokens[BeforeLiteral(tokens) + 1..]) ==
            r.tokens + Solid(tokens)
  {
    hide Solid, BeforeLiteral, Wire, Line;
    SolidAt(tokens);
  }

  /** What is left of a command completes to the same command as the whole of it. */
  lemma CommandAfterLiteral(r: Reader, tokens: seq<Token>, rest: string)
    requires BeforeLiteral(tokens) < |tokens|
    ensures AfterCommand(AfterLiteral(r, tokens, rest), tokens[BeforeLiteral(tokens) + 1..], rest) ==
            AfterCommand(r, tokens, rest)
  {
    hide Prompts, Wire, Line, Literals, BeforeLiteral, Solid, ReportedLine, KeptLine, Held;
    var more := tokens[BeforeLiteral(tokens) + 1..];
    LinesAfterLiteral(r, tokens, rest);
    BeforeLiteralTake(tokens);
    TokensAfterLiteral(r, tokens, rest);
    PromptsAdd(r.output, Literals(more), Command(ReportedLine(Held(r), tokens), r.tokens + Solid(tokens)));
  }

  /** Reading what a client wrote for a command gives it back without its empty literals, whatever follows it. */
  lemma {:induction false} CommandReadsBack(r: Reader, tokens: seq<Token>, rest: string)
    requires AtLine(r) && Sendable(tokens) && r.buffer == Wire(tokens) + rest
    ensures Drained(r) == Drained(AfterCommand(r, tokens, rest))
    decreases |tokens|
  {
    hide CanAdvance, Advance, Drained, Wire, Line, Body, Sendable, BeforeLiteral, Literals;
    var n := BeforeLiteral(tokens);
    BeforeLiteralTake(tokens);
    if n == |tokens| {
      LastLineReads(r, tokens, rest);
      DrainStep(r);
      assert r.output + Prompts(0) == r.output;
      SolidIsWholeExactly(tokens);
      assert Advance(r) == AfterCommand(r, tokens, rest);
    } else {
      hide AfterCommand, AfterLiteral;
      RestIsSendable(tokens);
      FirstLiteralReads(r, tokens, rest);
      AfterLiteralBuffer(r, tokens, rest);
      CommandReadsBack(AfterLiteral(r, tokens, rest), tokens[n + 1..], rest);
      CommandAfterLiteral(r, tokens, rest);
    }
  }

  lemma AfterLiteralBuffer(r: Reader, tokens: seq<Token>, rest: string)
    requires BeforeLiteral(tokens) < |tokens|
    ensures AfterLiteral(r, tokens, rest).buffer == Wire(tokens[BeforeLiteral(tokens) + 1..]) + rest
  {
    hide Wire, Line, Body, BeforeLiteral;
  }

  // ---- a session ----

  function WireAll(commands: seq<seq<Token>>): string {
    if commands == [] then "" else Wire(commands[0]) + WireAll(commands[1..])
  }

  /** The events of a session: each command behind its prompts, in order, less its empty literals. */
  function Heard(commands: seq<seq<Token>>): seq<Event> {
    if commands == [] then []
    else
      var heard := Command(ReportedLine(None, commands[0]), Solid(commands[0]));
      Prompts(Literals(commands[0])) + [heard] + Heard(commands[1..])
  }

  lemma {:induction false} SessionDrains(r: Reader, commands: seq<seq<Token>>)
    requires AtLine(r) && r.tokens == [] && r.buffer == WireAll(commands)
    requires forall c :: c in commands ==> Sendable(c)
    ensures Drained(r).output == r.output + Heard(commands)
    ensures Drained(r).status == Open && Drained(r).remaining == 0 && Drained(r).buffer == ""
    decreases |commands|
  {
    hide Wire, Line, Sendable, CanAdvance, Advance;
    if commands != [] {
      var c, rest := commands[0], WireAll(commands[1..]);
      CommandReadsBack(r, c, rest);
      var n := AfterCommand(r, c, rest);
      var heard := Command(ReportedLine(None, c), Solid(c));
      assert [] + Solid(c) == Solid(c);
      SessionDrains(n, commands[1..]);
      assert r.output + Prompts(Literals(c)) + [heard] + Heard(commands[1..]) == r.output + Heard(commands);
    } else {
      assert r.output + [] == r.output;
    }
  }

  /**
   A client's whole session arrives as the commands it wrote, in order and without their empty
   literals, each behind one prompt a literal, however the network cuts the bytes, as long as no
   line has exactly the limit.
   */
  lemma SessionReadsBack(commands: seq<seq<Token>>, chunks: seq<string>)
    requires forall c :: c in commands ==> Sendable(c)
    requires Concat(chunks) == WireAll(commands) && NoFullLine(Feed(FRESH, Concat(chunks)))
    ensures ReceiveAll(FRESH, chunks).status == Open && ReceiveAll(FRESH, chunks).output == Heard(commands)
  {
    ChunkingIsInvisible(chunks);
    var r := Feed(FRESH, WireAll(commands));
    assert r.buffer == WireAll(commands);
    SessionDrains(r, commands);
    assert [] + Heard(commands) == Heard(commands);
  }

  lemma {:induction false} HeldLineStands(line: string, tokens: seq<Token>)
    ensures ReportedLine(Some(line), tokens) == line
    decreases |tokens|
  {
    hide Line, BeforeLiteral;
    var n := BeforeLiteral(tokens);
    if n < |tokens| { HeldLineStands(line, tokens[n + 1..]); }
  }

  /** A command whose first literal has bytes, or comes behind a token, is reported with its own first line. */
  lemma WholeLineReported(tokens: seq<Token>)
    requires NoEmptyLiteral(tokens)
    ensures ReportedLine(None, tokens) == Line(tokens)
  {
    hide Line;
    var n := BeforeLiteral(tokens);
    if n < |tokens| {
      assert tokens[n] in tokens;
      HeldLineStands(Line(tokens), tokens[n + 1..]);
    }
  }

  /**
   A command comes back as it was written, behind one prompt a literal, exactly when none of its
   literals is empty: an empty one is announced and prompted for, and never becomes a token.
   */
  lemma CommandIsWholeExactly(tokens: seq<Token>)
    requires Sendable(tokens)
    ensures Drained(Feed(FRESH, Wire(tokens))).output == Prompts(Literals(tokens)) + [Command(Line(tokens), tokens)]
            <==> NoEmptyLiteral(tokens)
  {
    hide Sendable, Wire, Line, Literals, Prompts, CanAdvance, Advance, Solid, ReportedLine;
    var r := Feed(FRESH, Wire(tokens));
    assert WireAll([tokens]) == Wire(tokens) + WireAll([]) && Wire(tokens) + "" == Wire(tokens);
    SessionDrains(r, [tokens]);
    var prompts, heard := Prompts(Literals(tokens)), Command(ReportedLine(None, tokens), Solid(tokens));
    assert Heard([tokens]) == prompts + [heard] + Heard([]);
    assert Drained(r).output == prompts + [heard];
    SolidIsWholeExactly(tokens);
    if NoEmptyLiteral(tokens) {
      WholeLineReported(tokens);
    } else {
      assert (prompts + [heard])[|prompts|] == heard;
      assert (prompts + [Command(Line(tokens), tokens)])[|prompts|] == Command(Line(tokens), tokens);
    }
  }
}
