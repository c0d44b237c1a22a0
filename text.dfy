/**
 * The handful of Python `str` operations the recommendation engine relies on,
 * restricted to ASCII: `isspace`, `lower`, `strip`, `title`, `split` on one
 * character, `join` and `replace` of one character by another.
 */
module Text {

  /** `str.isspace` on one ASCII character: space, \t \n \v \f \r and the
      four information separators 0x1C-0x1F. */
  predicate IsSpace(c: char) {
    c == ' ' || 9 <= c as int <= 13 || 28 <= c as int <= 31
  }

  predicate IsUpper(c: char) { 'A' <= c <= 'Z' }

  predicate IsLower(c: char) { 'a' <= c <= 'z' }

  predicate IsLetter(c: char) { IsUpper(c) || IsLower(c) }

  function ToLower(c: char): (r: char)
    ensures !IsUpper(r)
    ensures !IsUpper(c) ==> r == c
    ensures IsLetter(r) <==> IsLetter(c)
    ensures IsSpace(r) <==> IsSpace(c)
  {
    if IsUpper(c) then (c as int + 32) as char else c
  }

  function ToUpper(c: char): (r: char)
    ensures !IsLower(r)
    ensures IsLetter(r) <==> IsLetter(c)
  {
    if IsLower(c) then (c as int - 32) as char else c
  }

  /** `str.lower` */
  function Lower(s: string): (r: string)
    ensures |r| == |s|
    ensures forall i :: 0 <= i < |s| ==> r[i] == ToLower(s[i])
  {
    if s == [] then [] else [ToLower(s[0])] + Lower(s[1..])
  }

  /** True when `s` has no upper-case letter. */
  predicate IsLowerCase(s: string) {
    forall i :: 0 <= i < |s| ==> !IsUpper(s[i])
  }

  /** True when `s` is empty or consists of whitespace only. */
  predicate IsBlank(s: string) {
    forall i :: 0 <= i < |s| ==> IsSpace(s[i])
  }

  /** True when `s` neither starts nor ends with whitespace. */
  predicate IsTrimmed(s: string) {
    s == [] || (!IsSpace(s[0]) && !IsSpace(s[|s| - 1]))
  }

  function TrimStart(s: string): (r: string)
  {
    if s != [] && IsSpace(s[0]) then TrimStart(s[1..]) else s
  }

  lemma {:induction false} TrimStartSpec(s: string)
    ensures var r := TrimStart(s);
      |r| <= |s| && r == s[|s| - |r|..] &&
      (forall i :: 0 <= i < |s| - |r| ==> IsSpace(s[i])) &&
      (r == [] || !IsSpace(r[0]))
  {
    if s != [] && IsSpace(s[0]) {
      var t := s[1..];
      TrimStartSpec(t);
      var r := TrimStart(t);
      assert TrimStart(s) == r;
      assert t[|t| - |r|..] == s[|s| - |r|..];
      forall i | 0 <= i < |s| - |r| ensures IsSpace(s[i]) {
        if i > 0 { assert s[i] == t[i - 1]; }
      }
    }
  }

  function TrimEnd(s: string): (r: string)
  {
    if s != [] && IsSpace(s[|s| - 1]) then TrimEnd(s[..|s| - 1]) else s
  }

  lemma {:induction false} TrimEndSpec(s: string)
    ensures var r := TrimEnd(s);
      |r| <= |s| && r == s[..|r|] &&
      (forall i :: |r| <= i < |s| ==> IsSpace(s[i])) &&
      (r == [] || !IsSpace(r[|r| - 1]))
  {
    if s != [] && IsSpace(s[|s| - 1]) {
      var t := s[..|s| - 1];
      TrimEndSpec(t);
      var r := TrimEnd(t);
      assert TrimEnd(s) == r;
      assert t[..|r|] == s[..|r|];
      forall i | |r| <= i < |s| ensures IsSpace(s[i]) {
        if i < |s| - 1 { assert s[i] == t[i]; }
      }
    }
  }

  function Strip(s: string): (r: string)
    ensures IsTrimmed(r)
    ensures r == [] <==> IsBlank(s)
    ensures forall c :: c in r ==> c in s
  {
    var t := TrimStart(s);
    TrimStartSpec(s);
    var r := TrimEnd(t);
    TrimEndSpec(t);
    assert r == [] ==> IsBlank(s) by {
      if r == [] {
        assert t == [];
      }
    }
    assert r != [] ==> !IsSpace(r[0]) by {
      if r != [] { assert r[0] == t[0]; }
    }
    assert forall c :: c in r ==> c in t;
    r
  }

  /** `str.strip()` on text that is already trimmed changes nothing. */
  lemma StripTrimmed(s: string)
    requires IsTrimmed(s)
    ensures Strip(s) == s
  {
  }

  lemma {:induction false} TrimStartBlank(pre: string, rest: string)
    requires IsBlank(pre) && (rest == [] || !IsSpace(rest[0]))
    ensures TrimStart(pre + rest) == rest
  {
    if pre != [] {
      assert (pre + rest)[1..] == pre[1..] + rest;
      TrimStartBlank(pre[1..], rest);
    }
  }

  lemma {:induction false} TrimEndBlank(rest: string, post: string)
    requires IsBlank(post) && (rest == [] || !IsSpace(rest[|rest| - 1]))
    ensures TrimEnd(rest + post) == rest
  {
    if post != [] {
      var p' := post[..|post| - 1];
      assert (rest + post)[..|rest + post| - 1] == rest + p';
      TrimEndBlank(rest, p');
    } else {
      assert rest + post == rest;
    }
  }

  /** Stripping removes exactly the surrounding blanks of a non-empty core. */
  lemma StripAround(pre: string, core: string, post: string)
    requires IsBlank(pre) && IsBlank(post) && core != [] && IsTrimmed(core)
    ensures Strip(pre + core + post) == core
  {
    assert pre + core + post == pre + (core + post);
    TrimStartBlank(pre, core + post);
    TrimEndBlank(core, post);
  }

  /** `str.title()` with the state "the previous character was a letter". */
  function TitleFrom(s: string, afterLetter: bool): (r: string)
    ensures |r| == |s|
  {
    if s == [] then []
    else
      var c := s[0];
      var d := if !IsLetter(c) then c else if afterLetter then ToLower(c) else ToUpper(c);
      [d] + TitleFrom(s[1..], IsLetter(c))
  }

  /** `str.title()`: a letter that follows a non-letter (or starts the text)
      is upper-cased, every other letter lower-cased, other characters kept. */
  function Title(s: string): (r: string)
    ensures |r| == |s|
  {
    TitleFrom(s, false)
  }

  /** What `str.title()` does to each character, stated without the
      left-to-right state of `TitleFrom`. */
  predicate TitledAt(s: string, r: string, i: int)
    requires 0 <= i < |s| == |r|
  {
    r[i] == if !IsLetter(s[i]) then s[i]
            else if i > 0 && IsLetter(s[i - 1]) then ToLower(s[i])
            else ToUpper(s[i])
  }

  lemma {:induction false} TitleFromAt(s: string, afterLetter: bool, i: int)
    requires 0 <= i < |s|
    ensures var r := TitleFrom(s, afterLetter);
      r[i] == if !IsLetter(s[i]) then s[i]
              else if (if i == 0 then afterLetter else IsLetter(s[i - 1])) then ToLower(s[i])
              else ToUpper(s[i])
  {
    if i > 0 {
      TitleFromAt(s[1..], IsLetter(s[0]), i - 1);
      if i - 1 > 0 { assert s[1..][i - 2] == s[i - 1]; }
    }
  }

  /** The character-by-character meaning of `Title`. */
  lemma TitleAt(s: string)
    ensures forall i :: 0 <= i < |s| ==> TitledAt(s, Title(s), i)
  {
    forall i | 0 <= i < |s| ensures TitledAt(s, Title(s), i) {
      TitleFromAt(s, false, i);
    }
  }

  /** `str.title()` does not depend on the case of its input, so title-casing
      a lower-cased token is the same as title-casing the raw text. */
  lemma {:induction false} TitleIgnoresCase(s: string, afterLetter: bool)
    ensures TitleFrom(Lower(s), afterLetter) == TitleFrom(s, afterLetter)
  {
    if s != [] {
      assert Lower(s)[1..] == Lower(s[1..]);
      TitleIgnoresCase(s[1..], IsLetter(s[0]));
    }
  }

  /** `sep.join(pieces)` */
  function Join(pieces: seq<string>, sep: string): (r: string)
    ensures pieces == [] ==> r == []
    ensures |pieces| == 1 ==> r == pieces[0]
  {
    if pieces == [] then []
    else if |pieces| == 1 then pieces[0]
    else pieces[0] + sep + Join(pieces[1..], sep)
  }

  /** `s.split(c)` for a one-character separator: the maximal `c`-free
      pieces between separators, which joined with `c` give back `s`. */
  function Split(s: string, c: char): (r: seq<string>)
    ensures |r| >= 1
    ensures forall k :: 0 <= k < |r| ==> c !in r[k]
    ensures Join(r, [c]) == s
  {
    if s == [] then [[]]
    else
      var rest := Split(s[1..], c);
      if s[0] == c then
        assert Join([[]] + rest, [c]) == [c] + Join(rest, [c]);
        [[]] + rest
      else
        var r := [[s[0]] + rest[0]] + rest[1..];
        assert Join(r, [c]) == [s[0]] + Join(rest, [c]) by {
          if |rest| > 1 {
            assert r[1..] == rest[1..];
          }
        }
        r
  }

  /** Splitting is a homomorphism: the pieces of `a`, separator, `b` are the
      pieces of `a` followed by the pieces of `b`. */
  lemma {:induction false} SplitAppend(a: string, b: string, c: char)
    ensures Split(a + [c] + b, c) == Split(a, c) + Split(b, c)
  {
    if a == [] {
      assert [c] + b == a + [c] + b;
      assert ([c] + b)[1..] == b;
    } else {
      assert (a + [c] + b)[1..] == a[1..] + [c] + b;
      SplitAppend(a[1..], b, c);
    }
  }

  /** Text without the separator is one piece. */
  lemma SplitNoSeparator(s: string, c: char)
    requires c !in s
    ensures Split(s, c) == [s]
  {
    var r := Split(s, c);
    if |r| > 1 {
      JoinContainsSep(r, [c]);
      assert false;
    }
  }

  lemma JoinContainsSep(pieces: seq<string>, sep: string)
    requires |pieces| > 1 && |sep| == 1
    ensures sep[0] in Join(pieces, sep)
  {
    assert Join(pieces, sep)[|pieces[0]|] == sep[0];
  }

  /** Every character of a piece of `s.split(c)` is a character of `s`. */
  lemma {:induction false} SplitChars(s: string, c: char, x: char)
    requires x !in s
    ensures forall k :: 0 <= k < |Split(s, c)| ==> x !in Split(s, c)[k]
  {
    if s != [] {
      SplitChars(s[1..], c, x);
      var rest := Split(s[1..], c);
      if s[0] != c {
        assert x !in [s[0]] + rest[0];
      }
    }
  }

  /** `s.replace(a, b)` for single characters. */
  function Replace(s: string, a: char, b: char): (r: string)
    ensures |r| == |s|
    ensures forall i :: 0 <= i < |s| ==> r[i] == if s[i] == a then b else s[i]
  {
    if s == [] then [] else [if s[0] == a then b else s[0]] + Replace(s[1..], a, b)
  }

  /** Replacing a character that does not occur changes nothing. */
  lemma ReplaceAbsent(s: string, a: char, b: char)
    requires a !in s
    ensures Replace(s, a, b) == s
  {
    var r := Replace(s, a, b);
    assert forall i :: 0 <= i < |s| ==> r[i] == s[i];
  }
}
