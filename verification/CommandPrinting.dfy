/** The text a client prints tokens as, and the proof that the tokenizer reads it back. */
module CommandPrinting {
  import opened Wrappers
  import opened CommandTokens

  /** One character of a quoted string, escaped where it has to be. */
  function EscapedChar(c: char): string {
    if c == '\\' || c == '"' then ['\\', c] else [c]
  }

  function Escape(value: string): string {
    if value == "" then ""
    else EscapedChar(value[0]) + Escape(value[1..])
  }

  function PrintToken(t: Token): string
    decreases t
  {
    match t
    case Atom(value, section) => value + (if section.Some? then "[" + section.value + "]" else "")
    case Quoted(value) => "\"" + Escape(value) + "\""
    case List(items) => "(" + PrintTokens(items) + ")"
    case Literal(bytes) => bytes
  }

  function PrintTokens(tokens: seq<Token>): string
    decreases tokens
  {
    if tokens == [] then ""
    else if |tokens| == 1 then PrintToken(tokens[0])
    else PrintToken(tokens[0]) + " " + PrintTokens(tokens[1..])
  }

  predicate PlainChar(c: char) { c !in [' ', '(', ')', '[', '"', '{', '}'] }

  /** A section whose brackets close each other, inside `depth` open ones. */
  predicate Balanced(section: string, depth: nat) {
    if section == "" then depth == 1
    else if section[0] == '[' then Balanced(section[1..], depth + 1)
    else if section[0] == ']' then depth > 1 && Balanced(section[1..], depth - 1)
    else Balanced(section[1..], depth)
  }

  /** What the line syntax can carry: non-empty atoms without delimiters, any string, lists of the same. */
  predicate Printable(t: Token)
    decreases t
  {
    match t
    case Atom(value, section) =>
      && (forall k :: 0 <= k < |value| ==> PlainChar(value[k]))
      && (value != "" || section.Some?) && (section.Some? ==> Balanced(section.value, 1))
    case Quoted(_) => true
    case List(items) => AllPrintable(items)
    case Literal(_) => false
  }

  predicate AllPrintable(tokens: seq<Token>)
    decreases tokens
  {
    forall k :: 0 <= k < |tokens| ==> Printable(tokens[k])
  }

  /** What may follow a token: nothing, a space or a parenthesis. */
  predicate Delimited(rest: string) {
    rest == "" || rest[0] in [' ', '(', ')']
  }

  lemma QuotedTurn(c: char, tail: string, before: string)
    ensures ReadQuoted(EscapedChar(c) + tail, before) == ReadQuoted(tail, before + [c])
  {
    var s := EscapedChar(c) + tail;
    assert if c == '\\' || c == '"' then s[2..] == tail else s[1..] == tail;
  }

  lemma {:induction false} QuotedReads(value: string, rest: string, before: string)
    ensures ReadQuoted(Escape(value) + "\"" + rest, before) == Read(before + value, rest)
  {
    if value == "" {
      var s := Escape(value) + "\"" + rest;
      assert s[1..] == rest && before + value == before;
    } else {
      var tail := Escape(value[1..]) + "\"" + rest;
      assert Escape(value) + "\"" + rest == EscapedChar(value[0]) + tail;
      hide Escape, EscapedChar, ReadQuoted;
      QuotedTurn(value[0], tail, before);
      QuotedReads(value[1..], rest, before + [value[0]]);
      assert before + [value[0]] + value[1..] == before + value;
    }
  }

  lemma {:induction false} PlainReads(value: string, rest: string, before: string)
    requires forall k :: 0 <= k < |value| ==> PlainChar(value[k])
    ensures ReadAtom(value + rest, before, None, false) == ReadAtom(rest, before + value, None, false)
  {
    if value == "" {
      assert value + rest == rest && before + value == before;
    } else {
      assert value + rest == [value[0]] + (value[1..] + rest);
      PlainReads(value[1..], rest, before + [value[0]]);
      assert before + [value[0]] + value[1..] == before + value;
    }
  }

  lemma {:induction false} SectionCloses(s: string, k: nat, section: string, depth: nat)
    requires Balanced(section, depth) && k + |section| < |s|
    requires s[k..k + |section|] == section && s[k + |section|] == ']'
    ensures SectionEnd(s, k, depth) == k + |section|
    decreases |section|
  {
    if section != "" {
      assert s[k] == section[0];
      assert s[k + 1..k + 1 + |section[1..]|] == section[1..];
      SectionCloses(s, k + 1, section[1..],
                    if section[0] == '[' then depth + 1 else if section[0] == ']' then depth - 1 else depth);
    }
  }

  lemma SectionReads(value: string, section: string, rest: string)
    requires Balanced(section, 1) && Delimited(rest)
    ensures ReadAtom("[" + section + "]" + rest, value, None, false) == Read(Atom(value, Some(section)), rest)
  {
    var s := "[" + section + "]" + rest;
    assert s[1..1 + |section|] == section;
    SectionCloses(s, 1, section, 1);
    assert SectionEnd(s, 0, 0) == |section| + 1;
    assert s[|section| + 2..] == rest;
  }

  lemma AtomReads(value: string, section: Option<string>, rest: string)
    requires Printable(Atom(value, section)) && Delimited(rest)
    ensures ReadAtom(PrintToken(Atom(value, section)) + rest, "", None, false) == Read(Atom(value, section), rest)
  {
    hide Balanced, SectionEnd;
    var printed := PrintToken(Atom(value, section));
    assert "" + value == value;
    if section.None? {
      assert printed == value;
      PlainReads(value, rest, "");
    } else {
      var s := "[" + section.value + "]" + rest;
      assert printed + rest == value + s;
      PlainReads(value, s, "");
      SectionReads(value, section.value, rest);
    }
  }

  /** A byte range as a client spells it: an origin, and a count if it wants one. */
  function PrintRange(origin: string, count: Option<string>): string {
    "<" + origin + (if count.Some? then "." + count.value else "") + ">"
  }

  lemma {:induction false} FirstIndexFinds(s: string, rest: string, c: char)
    requires c !in s
    ensures FirstIndex(s + [c] + rest, c) == |s|
  {
    var all := s + [c] + rest;
    if s != "" {
      assert all[1..] == s[1..] + [c] + rest && all[0] == s[0];
      FirstIndexFinds(s[1..], rest, c);
    }
  }

  lemma RangeIsSpelled(origin: string, count: Option<string>)
    requires AllDigits(origin) && (count.Some? ==> AllDigits(count.value))
    ensures var text := origin + if count.Some? then "." + count.value else ""; IsRange(text) && '>' !in text
  {
    var text := origin + if count.Some? then "." + count.value else "";
    if count.Some? {
      assert text[..|origin|] == origin && text[|origin|] == '.' && text[|origin| + 1..] == count.value;
    } else {
      assert text == origin;
    }
    assert forall k :: 0 <= k < |text| ==> IsDigit(text[k]) || text[k] == '.';
  }

  /** A byte range after a section is read and dropped: the atom is the one without it. */
  lemma RangeIsDropped(value: string, section: string, origin: string, count: Option<string>, rest: string)
    requires Printable(Atom(value, Some(section))) && Delimited(rest)
    requires AllDigits(origin) && (count.Some? ==> AllDigits(count.value))
    ensures ReadAtom(PrintToken(Atom(value, Some(section))) + PrintRange(origin, count) + rest, "", None, false) ==
            Read(Atom(value, Some(section)), rest)
  {
    hide Balanced, SectionEnd, IsRange, ReadAtom, AllDigits, Delimited, PlainChar;
    var text := origin + if count.Some? then "." + count.value else "";
    var tail := "<" + text + ">" + rest;
    assert PrintRange(origin, count) + rest == tail;
    assert PrintToken(Atom(value, Some(section))) + PrintRange(origin, count) + rest ==
           value + ("[" + section + "]" + (PrintRange(origin, count) + rest));
    PlainReads(value, "[" + section + "]" + tail, "");
    assert "" + value == value;
    SectionPasses(value, section, tail);
    RangeIsSpelled(origin, count);
    RangePasses(value, section, text, rest);
  }

  lemma SectionPasses(value: string, section: string, tail: string)
    requires Balanced(section, 1)
    ensures ReadAtom("[" + section + "]" + tail, value, None, false) == ReadAtom(tail, value, Some(section), false)
  {
    var s := "[" + section + "]" + tail;
    assert s[1..1 + |section|] == section;
    SectionCloses(s, 1, section, 1);
    assert SectionEnd(s, 0, 0) == |section| + 1;
    assert s[|section| + 2..] == tail;
  }

  lemma RangePasses(value: string, section: string, text: string, rest: string)
    requires IsRange(text) && '>' !in text && Delimited(rest)
    ensures ReadAtom("<" + text + ">" + rest, value, Some(section), false) == Read(Atom(value, Some(section)), rest)
  {
    hide IsRange;
    var s := "<" + text + ">" + rest;
    assert s == ("<" + text) + ['>'] + rest && '>' !in "<" + text;
    FirstIndexFinds("<" + text, rest, '>');
    assert s[1..|text| + 1] == text && s[|text| + 2..] == rest;
  }

  predicate HasOther(text: string) {
    exists k :: 0 <= k < |text| && !IsDigit(text[k]) && text[k] != '.'
  }

  /** Anything else between angle brackets stays in the name of the atom. */
  lemma OtherAnglesStay(value: string, section: string, text: string, rest: string)
    requires '>' !in text && text != ""
    requires text[0] == '.' || text[|text| - 1] == '.' || HasOther(text)
    ensures ReadAtom("<" + text + ">" + rest, value, Some(section), false) ==
            ReadAtom(text + ">" + rest, value + "<", Some(section), false)
  {
    var s := "<" + text + ">" + rest;
    assert s == ("<" + text) + ['>'] + rest && '>' !in "<" + text;
    FirstIndexFinds("<" + text, rest, '>');
    assert s[1..|text| + 1] == text && s[1..] == text + ">" + rest;
    if k :| 0 < k < |text| && text[k] == '.' && AllDigits(text[..k]) && AllDigits(text[k + 1..]) {
      assert forall j :: 0 <= j < |text| && j != k ==>
          IsDigit(if j < k then text[..k][j] else text[k + 1..][j - k - 1]);
      assert forall j :: 0 <= j < |text| && j != k ==>
        text[j] == if j < k then text[..k][j] else text[k + 1..][j - k - 1];
    }
  }

  lemma QuotedTokenReads(value: string, rest: string, before: seq<Token>)
    ensures ReadList(PrintToken(Quoted(value)) + rest, before) == ReadList(rest, before + [Quoted(value)])
    ensures ReadTokens(PrintToken(Quoted(value)) + rest, before) == ReadTokens(rest, before + [Quoted(value)])
  {
    var s := PrintToken(Quoted(value)) + rest;
    assert s[0] == '"' && s[1..] == Escape(value) + "\"" + rest && Skip(s) == s;
    QuotedReads(value, rest, "");
    assert "" + value == value;
  }

  lemma AtomTokenReads(value: string, section: Option<string>, rest: string, before: seq<Token>)
    requires Printable(Atom(value, section)) && Delimited(rest)
    ensures ReadList(PrintToken(Atom(value, section)) + rest, before) == ReadList(rest, before + [Atom(value, section)])
    ensures ReadTokens(PrintToken(Atom(value, section)) + rest, before) ==
            ReadTokens(rest, before + [Atom(value, section)])
  {
    var s := PrintToken(Atom(value, section)) + rest;
    assert s[0] == if value != "" then value[0] else '[';
    assert Skip(s) == s;
    AtomReads(value, section, rest);
  }

  /** A printed token is read as itself, in a list and on the line, whatever was read before. */
  lemma {:induction false} TokenReads(t: Token, rest: string, before: seq<Token>)
    requires Printable(t) && Delimited(rest)
    ensures ReadList(PrintToken(t) + rest, before) == ReadList(rest, before + [t])
    ensures ReadTokens(PrintToken(t) + rest, before) == ReadTokens(rest, before + [t])
    decreases t
  {
    match t {
      case Atom(value, section) => AtomTokenReads(value, section, rest, before);
      case Quoted(value) => QuotedTokenReads(value, rest, before);
      case List(items) =>
        var s := PrintToken(t) + rest;
        assert s[0] == '(' && s[1..] == PrintTokens(items) + ")" + rest && Skip(s) == s;
        ItemsRead(items, rest, []);
        assert [] + items == items;
      case Literal(_) =>
    }
  }

  lemma {:induction false} ItemsRead(items: seq<Token>, rest: string, before: seq<Token>)
    requires AllPrintable(items)
    ensures ReadList(PrintTokens(items) + ")" + rest, before) == Read(before + items, rest)
    decreases items
  {
    hide ReadAtom, ReadQuoted, Printable;
    var s := PrintTokens(items) + ")" + rest;
    if items == [] {
      assert s == ")" + rest && before + items == before;
    } else {
      var more := items[1..];
      var tail := if more == [] then ")" + rest else " " + (PrintTokens(more) + ")" + rest);
      assert s == PrintToken(items[0]) + tail;
      TokenReads(items[0], tail, before);
      assert before + [items[0]] + more == before + items;
      if more == [] {
        assert tail[1..] == rest && items == [items[0]];
      } else {
        SpaceSkips(PrintTokens(more) + ")" + rest, before + [items[0]]);
        ItemsRead(more, rest, before + [items[0]]);
      }
    }
  }

  lemma SpaceSkips(s: string, before: seq<Token>)
    ensures ReadList(" " + s, before) == ReadList(s, before)
    ensures ReadTokens(" " + s, before) == ReadTokens(s, before)
  {
    assert (" " + s)[1..] == s;
    assert Skip(" " + s) == Skip(s);
  }

  /** The tokenizer undoes printing: any printable token list is read back, nested lists and quoting included. */
  lemma {:induction false} TokensReadBack(tokens: seq<Token>, before: seq<Token>, end: string)
    requires AllPrintable(tokens) && end in {"", " "}
    ensures ReadTokens(PrintTokens(tokens) + end, before) == Some(before + tokens)
    decreases tokens
  {
    hide ReadAtom, ReadQuoted, ReadList, Printable;
    if tokens == [] {
      assert before + tokens == before && PrintTokens(tokens) + end == end;
      assert Skip(end) == "";
    } else {
      var more := tokens[1..];
      var tail := if more == [] then end else " " + (PrintTokens(more) + end);
      assert PrintTokens(tokens) + end == PrintToken(tokens[0]) + tail;
      TokenReads(tokens[0], tail, before);
      assert before + [tokens[0]] + more == before + tokens;
      if more == [] {
        assert tokens == [tokens[0]] && Skip(end) == "";
      } else {
        SpaceSkips(PrintTokens(more) + end, before + [tokens[0]]);
        TokensReadBack(more, before + [tokens[0]], end);
      }
    }
  }
}
