/**
 The tokens of one command line: the scanning functions over what is left of the line, the
 loops that run them over a moving position, and the text a token list is printed as.
 */
module CommandTokens {
  import opened Wrappers

  datatype Token =
    | Atom(value: string, section: Option<string>)
    | Quoted(value: string)
    | List(items: seq<Token>)
    | Literal(bytes: string)

  datatype Read<T> = Read(what: T, rest: string)

  predicate IsDigit(c: char) { '0' <= c <= '9' }

  predicate AllDigits(s: string) {
    s != "" && forall k :: 0 <= k < |s| ==> IsDigit(s[k])
  }

  /** The text of a byte range: an origin, and a count after a period. */
  predicate IsRange(s: string) {
    AllDigits(s) || exists k :: 0 < k < |s| && s[k] == '.' && AllDigits(s[..k]) && AllDigits(s[k + 1..])
  }

  /** Where `c` first stands, or the length when it does not. */
  function FirstIndex(s: string, c: char): (k: nat)
    ensures k <= |s|
    ensures k < |s| ==> s[k] == c
  {
    if s == "" || s[0] == c then 0 else 1 + FirstIndex(s[1..], c)
  }

  function Skip(s: string): (r: string)
    ensures |r| <= |s|
    ensures r != "" ==> r[0] != ' '
  {
    if s != "" && s[0] == ' ' then Skip(s[1..]) else s
  }

  /** A quoted string after its opening quote; an unclosed one runs to the end of the line. */
  function ReadQuoted(s: string, value: string): (r: Read<string>)
    ensures |r.rest| <= |s|
    decreases |s|
  {
    if s == "" then Read(value, "")
    else if s[0] == '\\' && |s| > 1 then ReadQuoted(s[2..], value + [s[1]])
    else if s[0] == '"' then Read(value, s[1..])
    else ReadQuoted(s[1..], value + [s[0]])
  }

  /** The index of the bracket that closes the section open at depth `depth`, or the last index. */
  function SectionEnd(s: string, k: nat, depth: int): (end: nat)
    requires k <= |s| && s != ""
    ensures end < |s|
    ensures end == |s| - 1 || k <= end
    decreases |s| - k
  {
    if k == |s| then |s| - 1
    else if s[k] == '[' then SectionEnd(s, k + 1, depth + 1)
    else if s[k] == ']' then (if depth == 1 then k else SectionEnd(s, k + 1, depth - 1))
    else SectionEnd(s, k + 1, depth)
  }

  /** The section opened at the head of `s`; an unclosed one loses its last character. */
  function SectionText(s: string, end: nat): string
    requires end < |s|
  {
    if end == 0 then "" else s[1..end]
  }

  predicate EndsAtom(c: char) { c == ' ' || c == '(' || c == ')' }

  /** The text between `<` and `>`, or to the end of the line. */
  function RangeText(s: string): string
    requires s != ""
  {
    var end := FirstIndex(s, '>');
    if end == 0 then "" else s[1..end]
  }

  function AfterRange(s: string): (r: string)
    requires s != ""
    ensures |r| < |s|
  {
    var end := FirstIndex(s, '>');
    if end == |s| then "" else s[end + 1..]
  }

  /** An atom with its section; the byte range after a section is read and dropped. */
  function ReadAtom(s: string, value: string, section: Option<string>, ranged: bool): (r: Read<Token>)
    ensures |r.rest| <= |s|
    ensures s != "" && !EndsAtom(s[0]) ==> |r.rest| < |s|
    decreases |s|
  {
    if s == "" || EndsAtom(s[0]) then Read(Atom(value, section), s)
    else if s[0] == '[' then
      var end := SectionEnd(s, 0, 0);
      ReadAtom(s[end + 1..], value, Some(SectionText(s, end)), ranged)
    else if s[0] == '<' && section.Some? && !ranged && IsRange(RangeText(s)) then
      ReadAtom(AfterRange(s), value, section, true)
    else ReadAtom(s[1..], value + [s[0]], section, ranged)
  }

  /** A list after its opening parenthesis; an unclosed one runs to the end of the line. */
  function ReadList(s: string, items: seq<Token>): (r: Read<seq<Token>>)
    ensures |r.rest| <= |s|
    decreases |s|
  {
    var t := Skip(s);
    if t == "" then Read(items, "")
    else if t[0] == ')' then Read(items, t[1..])
    else if t[0] == '(' then
      var nested := ReadList(t[1..], []);
      ReadList(nested.rest, items + [List(nested.what)])
    else if t[0] == '"' then
      var quoted := ReadQuoted(t[1..], "");
      ReadList(quoted.rest, items + [Quoted(quoted.what)])
    else
      var atom := ReadAtom(t, "", None, false);
      ReadList(atom.rest, items + [atom.what])
  }

  /** The tokens of a line, or `None` where a closing parenthesis outside every list stalls the tokenizer for good. */
  function ReadTokens(s: string, tokens: seq<Token>): Option<seq<Token>>
    decreases |s|
  {
    var t := Skip(s);
    if t == "" then Some(tokens)
    else if t[0] == ')' then None
    else if t[0] == '(' then
      var list := ReadList(t[1..], []);
      ReadTokens(list.rest, tokens + [List(list.what)])
    else if t[0] == '"' then
      var quoted := ReadQuoted(t[1..], "");
      ReadTokens(quoted.rest, tokens + [Quoted(quoted.what)])
    else
      var atom := ReadAtom(t, "", None, false);
      ReadTokens(atom.rest, tokens + [atom.what])
  }

  /** What one turn of the tokenizer's loop leaves of the line. */
  function Turn(s: string): string {
    var t := Skip(s);
    if t == "" then ""
    else if t[0] == '(' then ReadList(t[1..], []).rest
    else if t[0] == '"' then ReadQuoted(t[1..], "").rest
    else ReadAtom(t, "", None, false).rest
  }

  function Turns(s: string, n: nat): string
    decreases n
  {
    if n == 0 then s else Turns(Turn(s), n - 1)
  }

  /** The loop is not done and its next turn leaves everything as it is, so no later turn does anything. */
  predicate Stuck(s: string) {
    s != "" && Turn(s) == s
  }

  /** The loop gets stuck at a closing parenthesis and nowhere else. */
  lemma ParenthesisStalls(s: string)
    ensures Stuck(s) <==> s != "" && s[0] == ')'
    ensures Skip(s) != "" && Skip(s)[0] == ')' ==> Turn(s) == Skip(s)
    ensures Skip(s) != "" && Skip(s)[0] != ')' ==> |Turn(s)| < |Skip(s)|
  {
    if s != "" && s[0] == ' ' { assert |Skip(s)| < |s|; }
  }

  lemma {:induction false} NothingLeft(n: nat)
    ensures Turns("", n) == ""
  {
    if n > 0 { NothingLeft(n - 1); }
  }

  ghost predicate GetsStuck(s: string) {
    exists n: nat :: Stuck(Turns(s, n))
  }

  lemma StuckNext(s: string, n: nat)
    requires Stuck(Turns(Turn(s), n))
    ensures GetsStuck(s)
  {
    assert Turns(s, n + 1) == Turns(Turn(s), n);
  }

  lemma StuckLater(s: string)
    requires !Stuck(s) && GetsStuck(s)
    ensures GetsStuck(Turn(s))
  {
    var n: nat :| Stuck(Turns(s, n));
    assert n > 0;
    assert Stuck(Turns(Turn(s), n - 1));
  }

  lemma NeverStuck(s: string)
    requires Skip(s) == ""
    ensures !GetsStuck(s)
  {
    forall n: nat ensures !Stuck(Turns(s, n)) {
      if n > 0 { NothingLeft(n - 1); }
    }
  }

  lemma OneTurnReads(s: string, tokens: seq<Token>) returns (more: seq<Token>)
    requires Skip(s) != "" && Skip(s)[0] != ')'
    ensures ReadTokens(s, tokens) == ReadTokens(Turn(s), more)
  {
    hide ReadAtom, ReadQuoted, ReadList;
    var t := Skip(s);
    more := tokens + [if t[0] == '(' then List(ReadList(t[1..], []).what)
                      else if t[0] ==
                          '"' then Quoted(ReadQuoted(t[1..], "").what) else ReadAtom(t, "", None, false).what];
  }

  /** The explicit stall of `ReadTokens` is the loop getting stuck after some number of turns. */
  lemma {:induction false} StallsExactly(s: string, tokens: seq<Token>)
    ensures ReadTokens(s, tokens).None? <==> GetsStuck(s)
    decreases |s|
  {
    var t := Skip(s);
    ParenthesisStalls(s);
    if t == "" {
      NeverStuck(s);
    } else if t[0] == ')' {
      ParenthesisStalls(t);
      StuckNext(s, 0);
    } else {
      var more := OneTurnReads(s, tokens);
      hide Turn, Turns, Stuck, GetsStuck, ReadTokens;
      StallsExactly(Turn(s), more);
      if GetsStuck(Turn(s)) { StuckAgain(s); }
      if GetsStuck(s) { StuckLater(s); }
    }
  }

  lemma StuckAgain(s: string)
    requires GetsStuck(Turn(s))
    ensures GetsStuck(s)
  {
    var n: nat :| Stuck(Turns(Turn(s), n));
    StuckNext(s, n);
  }

  // ---- the loops ----

  method SkipSpaces(body: string, start: nat) returns (position: nat)
    requires start <= |body|
    ensures start <= position <= |body| && body[position..] == Skip(body[start..])
  {
    position := start;
    while position < |body| && body[position] == ' '
      invariant start <= position <= |body|
      invariant Skip(body[position..]) == Skip(body[start..])
    {
      assert body[position..][1..] == body[position + 1..];
      position := position + 1;
    }
    assert position < |body| ==> body[position..][0] == body[position];
  }

  method ParseQuoted(body: string, start: nat) returns (value: string, next: nat)
    requires start < |body|
    ensures start < next <= |body|
    ensures Read(value, body[next..]) == ReadQuoted(body[start + 1..], "")
  {
    value := "";
    var position := start + 1;
    while position < |body|
      invariant start < position <= |body|
      invariant ReadQuoted(body[position..], value) == ReadQuoted(body[start + 1..], "")
    {
      var character := body[position];
      assert body[position..][1..] == body[position + 1..];
      if character == '\\' && position + 1 < |body| {
        assert body[position..][2..] == body[position + 2..];
        value := value + [body[position + 1]];
        position := position + 2;
        continue;
      }
      if character == '"' {
        return value, position + 1;
      }
      value := value + [character];
      position := position + 1;
    }
    next := position;
  }

  method MatchSection(body: string, start: nat) returns (end: nat)
    requires start < |body| && body[start] == '['
    ensures start <= end < |body| && end - start == SectionEnd(body[start..], 0, 0)
  {
    var depth := 0;
    var position := start;
    while position < |body|
      invariant start <= position <= |body|
      invariant SectionEnd(body[start..], position - start, depth) == SectionEnd(body[start..], 0, 0)
    {
      var character := body[position];
      assert body[start..][position - start] == character;
      if character == '[' {
        depth := depth + 1;
      } else if character == ']' {
        depth := depth - 1;
        if depth == 0 { return position; }
      }
      position := position + 1;
    }
    end := |body| - 1;
  }

  method FindClose(body: string, start: nat) returns (end: nat)
    requires start < |body|
    ensures start <= end <= |body| && end - start == FirstIndex(body[start..], '>')
  {
    end := start;
    while end < |body| && body[end] != '>'
      invariant start <= end <= |body|
      invariant FirstIndex(body[start..], '>') == end - start + FirstIndex(body[end..], '>')
    {
      assert body[end..][1..] == body[end + 1..];
      end := end + 1;
    }
  }

  /** The section at `position` and where the atom goes on after it. */
  method ParseSection(body: string, position: nat) returns (section: string, next: nat)
    requires position < |body| && body[position] == '['
    ensures position < next <= |body|
    ensures var s := body[position..]; var end := SectionEnd(s, 0, 0);
            section == SectionText(s, end) && body[next..] == s[end + 1..]
  {
    var end := MatchSection(body, position);
    assert end > position ==> body[position..][1..end - position] == body[position + 1..end];
    section := if end == position then "" else body[position + 1..end];
    next := end + 1;
  }

  /** The byte range at `position`, if there is one, and where the atom goes on after it. */
  method ParseRange(body: string, position: nat) returns (found: bool, next: nat)
    requires position < |body| && body[position] == '<'
    ensures found == IsRange(RangeText(body[position..]))
    ensures position < next <= |body| && body[next..] == AfterRange(body[position..])
  {
    var end := FindClose(body, position);
    assert end > position;
    assert body[position..][1..end - position] == body[position + 1..end];
    found := IsRange(body[position + 1..end]);
    next := if end == |body| then |body| else end + 1;
  }

  method ParseAtom(body: string, start: nat) returns (atom: Token, next: nat)
    requires start <= |body|
    ensures start <= next <= |body|
    ensures Read(atom, body[next..]) == ReadAtom(body[start..], "", None, false)
  {
    hide SectionEnd, SectionText, IsRange, RangeText, AfterRange;
    var position, value, section, ranged := start, "", None, false;
    while position < |body|
      invariant start <= position <= |body|
      invariant ReadAtom(body[position..], value, section, ranged) == ReadAtom(body[start..], "", None, false)
    {
      var character := body[position];
      assert body[position..][1..] == body[position + 1..];
      if EndsAtom(character) { break; }
      if character == '[' {
        var text;
        text, position := ParseSection(body, position);
        section := Some(text);
        continue;
      }
      if character == '<' && section.Some? && !ranged {
        var found, after := ParseRange(body, position);
        if found {
          ranged, position := true, after;
          continue;
        }
      }
      value := value + [character];
      position := position + 1;
    }
    return Atom(value, section), position;
  }

  method ParseList(body: string, start: nat) returns (items: seq<Token>, next: nat)
    requires start < |body|
    ensures start < next <= |body|
    ensures Read(items, body[next..]) == ReadList(body[start + 1..], [])
    decreases |body| - start
  {
    items := [];
    var position := start + 1;
    while true
      invariant start < position <= |body|
      invariant ReadList(body[position..], items) == ReadList(body[start + 1..], [])
      decreases |body| - position
    {
      position := SkipSpaces(body, position);
      if position >= |body| {
        return items, position;
      }
      var character := body[position];
      assert body[position..][1..] == body[position + 1..];
      if character == ')' {
        return items, position + 1;
      }
      var item;
      if character == '(' {
        var nested;
        nested, position := ParseList(body, position);
        item := List(nested);
      } else if character == '"' {
        var value;
        value, position := ParseQuoted(body, position);
        item := Quoted(value);
      } else {
        item, position := ParseAtom(body, position);
      }
      items := items + [item];
    }
  }

  /** The tokenizer's loop; a stall is reported instead of looping for ever. */
  method ParseTokens(body: string) returns (tokens: Option<seq<Token>>)
    ensures tokens == ReadTokens(body, [])
  {
    var found: seq<Token> := [];
    var position := 0;
    assert body[0..] == body;
    while position < |body|
      invariant position <= |body|
      invariant ReadTokens(body[position..], found) == ReadTokens(body, [])
    {
      position := SkipSpaces(body, position);
      if position >= |body| { break; }
      var character := body[position];
      assert body[position..][1..] == body[position + 1..];
      if character == ')' { return None; }
      var token;
      if character == '(' {
        var items;
        items, position := ParseList(body, position);
        token := List(items);
      } else if character == '"' {
        var value;
        value, position := ParseQuoted(body, position);
        token := Quoted(value);
      } else {
        token, position := ParseAtom(body, position);
      }
      found := found + [token];
    }
    return Some(found);
  }
}
