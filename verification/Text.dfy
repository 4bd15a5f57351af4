/** Letters and white space as the string operations of the original treat them, within ASCII letters. */
module Text {
  function LowerChar(c: char): char {
    if 'A' <= c <= 'Z' then ((c as int) + 32) as char else c
  }

  function Lower(s: string): (r: string)
    ensures |r| == |s|
  {
    seq(|s|, i requires 0 <= i < |s| => LowerChar(s[i]))
  }

  /** White space and line terminators. */
  predicate IsSpace(c: char) {
    || 9 <= c as int <= 13 || c as int == 0x20 || c as int == 0xA0 || c as int == 0x1680
    || 0x2000 <= c as int <= 0x200A || c as int == 0x2028 || c as int == 0x2029 || c as int == 0x202F
    || c as int == 0x205F || c as int == 0x3000 || c as int == 0xFEFF
  }

  function TrimStart(s: string): (r: string)
    ensures r == "" || !IsSpace(r[0])
  {
    if s != "" && IsSpace(s[0]) then TrimStart(s[1..]) else s
  }

  function TrimEnd(s: string): (r: string)
    ensures r == "" || !IsSpace(r[|r| - 1])
  {
    if s != "" && IsSpace(s[|s| - 1]) then TrimEnd(s[..|s| - 1]) else s
  }

  function Trim(s: string): string {
    TrimEnd(TrimStart(s))
  }

  /** One letter in either case, or one and the same character. */
  predicate SameLetter(c: char, d: char) {
    || c == d
    || ('A' <= c <= 'Z' && 'a' <= d <= 'z' && d as int - 'a' as int == c as int - 'A' as int)
    || ('A' <= d <= 'Z' && 'a' <= c <= 'z' && c as int - 'a' as int == d as int - 'A' as int)
  }

  /** Two texts read alike in lower case exactly when they differ in the case of letters alone. */
  lemma LowerIgnoresCase(s: string, t: string)
    ensures Lower(s) == Lower(t) <==> |s| == |t| && forall k :: 0 <= k < |s| ==> SameLetter(s[k], t[k])
  {
    if |s| == |t| {
      forall k | 0 <= k < |s| ensures Lower(s)[k] == Lower(t)[k] <==> SameLetter(s[k], t[k]) {
      }
    }
  }

  /** White space around `core`, and none at its ends. */
  ghost predicate Trimmed(s: string, before: nat, core: string) {
    && before + |core| <= |s| && s[before..before + |core|] == core
    && (forall k :: 0 <= k < before ==> IsSpace(s[k])) && (forall k :: before + |core| <= k < |s| ==> IsSpace(s[k]))
    && (core != "" ==> !IsSpace(core[0]) && !IsSpace(core[|core| - 1]))
  }

  /** Trimming takes the white space around a text and nothing else. */
  lemma TrimTakesSpaces(s: string)
    ensures exists before: nat :: Trimmed(s, before, Trim(s))
  {
    var start := TrimStart(s);
    var core := TrimEnd(start);
    StartTrims(s);
    EndTrims(start);
    hide TrimStart, TrimEnd, IsSpace;
    var before := |s| - |start|;
    assert s[before..before + |core|] == s[before..][..|core|];
    forall k | before + |core| <= k < |s| ensures IsSpace(s[k]) {
      assert s[k] == start[k - before];
    }
    assert Trim(s) == core && Trimmed(s, before, Trim(s));
  }

  lemma {:induction false} StartTrims(s: string)
    ensures |TrimStart(s)| <= |s| && s[|s| - |TrimStart(s)|..] == TrimStart(s)
    ensures forall k :: 0 <= k < |s| - |TrimStart(s)| ==> IsSpace(s[k])
  {
    if s != "" && IsSpace(s[0]) {
      StartTrims(s[1..]);
      forall k | 0 <= k < |s| - |TrimStart(s)| ensures IsSpace(s[k]) {
        if k > 0 { assert s[k] == s[1..][k - 1]; }
      }
    }
  }

  lemma {:induction false} EndTrims(s: string)
    ensures |TrimEnd(s)| <= |s| && s[..|TrimEnd(s)|] == TrimEnd(s)
    ensures TrimEnd(s) != "" ==> TrimEnd(s)[0] == s[0]
    ensures forall k :: |TrimEnd(s)| <= k < |s| ==> IsSpace(s[k])
  {
    if s != "" && IsSpace(s[|s| - 1]) {
      EndTrims(s[..|s| - 1]);
      forall k | |TrimEnd(s)| <= k < |s| ensures IsSpace(s[k]) {
        if k < |s| - 1 { assert s[k] == s[..|s| - 1][k]; }
      }
    }
  }

  /** The first occurrence of each, in order. */
  function Dedupe(texts: seq<string>): (r: seq<string>)
    ensures forall x :: x in r <==> x in texts
    ensures forall i, j :: 0 <= i < j < |r| ==> r[i] != r[j]
  {
    if texts == [] then []
    else
      var rest := Dedupe(texts[..|texts| - 1]);
      assert texts == texts[..|texts| - 1] + [texts[|texts| - 1]];
      if texts[|texts| - 1] in rest then rest else rest + [texts[|texts| - 1]]
  }
}
