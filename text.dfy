/** The string operations the dispatch path relies on: `char::is_whitespace`,
    `str::trim`, `str::split_whitespace` and `str::to_lowercase`. */
module Text {

  /** The code points of the Unicode White_Space property, as inclusive
      `(low, high)` ranges. */
  const WhiteSpaceRanges: seq<(int, int)> :=
    [(0x09, 0x0D), (0x20, 0x20), (0x85, 0x85), (0xA0, 0xA0), (0x1680, 0x1680),
     (0x2000, 0x200A), (0x2028, 0x2029), (0x202F, 0x202F), (0x205F, 0x205F),
     (0x3000, 0x3000)]

  /** `n` lies in one of `ranges`. */
  predicate InRanges(n: int, ranges: seq<(int, int)>)
  {
    ranges != [] && ((ranges[0].0 <= n <= ranges[0].1) || InRanges(n, ranges[1..]))
  }

  /** A code point outside every range is in none of them. */
  lemma {:induction false} OutsideRanges(n: int, ranges: seq<(int, int)>)
    requires forall i :: 0 <= i < |ranges| ==> n < ranges[i].0 || ranges[i].1 < n
    ensures !InRanges(n, ranges)
  {
    if ranges != [] {
      OutsideRanges(n, ranges[1..]);
    }
  }

  /** Rust's `char::is_whitespace`: the Unicode White_Space property. */
  predicate IsWhitespace(c: char)
  {
    InRanges(c as int, WhiteSpaceRanges)
  }

  /** No ASCII letter is whitespace. */
  lemma LetterNotWhitespace(c: char)
    requires 'A' <= c <= 'Z' || 'a' <= c <= 'z'
    ensures !IsWhitespace(c)
  {
    OutsideRanges(c as int, WhiteSpaceRanges);
  }

  /** No character of `s` is whitespace. */
  predicate NoWhitespace(s: string)
  {
    forall i :: 0 <= i < |s| ==> !IsWhitespace(s[i])
  }

  /** `s` has no leading and no trailing whitespace. */
  predicate Trimmed(s: string)
  {
    s == [] || (!IsWhitespace(s[0]) && !IsWhitespace(s[|s| - 1]))
  }

  // ---------------------------------------------------------------- lowercase

  /** Lowercasing of one character, ASCII letters only. */
  function LowerChar(c: char): char
  {
    if 'A' <= c <= 'Z' then (c as int + 32) as char else c
  }

  /** `to_lowercase`, character by character. */
  function Lower(s: string): (r: string)
    ensures |r| == |s|
  {
    if s == [] then [] else [LowerChar(s[0])] + Lower(s[1..])
  }

  lemma {:induction false} LowerAt(s: string, i: nat)
    requires i < |s|
    ensures Lower(s)[i] == LowerChar(s[i])
  {
    if i > 0 {
      LowerAt(s[1..], i - 1);
    }
  }

  /** Lowercasing twice is lowercasing once. */
  lemma {:induction false} LowerIdempotent(s: string)
    ensures Lower(Lower(s)) == Lower(s)
  {
    if s != [] {
      LowerIdempotent(s[1..]);
      assert Lower(s)[1..] == Lower(s[1..]);
    }
  }

  /** Lowercasing neither adds nor removes whitespace. */
  lemma {:induction false} LowerKeepsWhitespace(s: string)
    ensures forall i :: 0 <= i < |s| ==> (IsWhitespace(Lower(s)[i]) <==> IsWhitespace(s[i]))
  {
    forall i | 0 <= i < |s|
      ensures IsWhitespace(Lower(s)[i]) <==> IsWhitespace(s[i])
    {
      LowerAt(s, i);
      if 'A' <= s[i] <= 'Z' {
        LetterNotWhitespace(s[i]);
        LetterNotWhitespace(Lower(s)[i]);
      }
    }
  }

  // --------------------------------------------------------------------- trim

  /** `trim_start`: drops the leading whitespace and nothing else. */
  function TrimStart(s: string): (r: string)
    ensures |r| <= |s| && r == s[|s| - |r|..]
    ensures forall i :: 0 <= i < |s| - |r| ==> IsWhitespace(s[i])
    ensures r == [] || !IsWhitespace(r[0])
  {
    if s != [] && IsWhitespace(s[0]) then TrimStart(s[1..]) else s
  }

  /** `trim_end`: drops the trailing whitespace and nothing else. */
  function TrimEnd(s: string): (r: string)
    ensures |r| <= |s| && r == s[..|r|]
    ensures forall i :: |r| <= i < |s| ==> IsWhitespace(s[i])
    ensures r == [] || !IsWhitespace(r[|r| - 1])
  {
    if s != [] && IsWhitespace(s[|s| - 1]) then TrimEnd(s[..|s| - 1]) else s
  }

  /** `trim`: drops whitespace from the front, then from the back, until
      neither end is whitespace. The result has no leading or trailing
      whitespace, and a string that has neither comes back unchanged. */
  function Trim(s: string): (r: string)
    ensures Trimmed(r)
    ensures Trimmed(s) ==> r == s
    decreases |s|
  {
    if s != [] && IsWhitespace(s[0]) then Trim(s[1..])
    else if s != [] && IsWhitespace(s[|s| - 1]) then Trim(s[..|s| - 1])
    else s
  }

  /** `trim` is `trim_start` followed by `trim_end`: it removes exactly the
      leading and the trailing whitespace, and nothing else. */
  lemma {:induction false} TrimIsStartThenEnd(s: string)
    ensures Trim(s) == TrimEnd(TrimStart(s))
    decreases |s|
  {
    if s != [] && IsWhitespace(s[0]) {
      TrimIsStartThenEnd(s[1..]);
    } else if s != [] && IsWhitespace(s[|s| - 1]) {
      var p := s[..|s| - 1];
      TrimIsStartThenEnd(p);
      assert p[0] == s[0];
      assert TrimStart(p) == p;
      assert TrimStart(s) == s;
    }
  }

  /** Trimming is idempotent. */
  lemma TrimIdempotent(s: string)
    ensures Trim(Trim(s)) == Trim(s)
  {
  }

  // ---------------------------------------------------------- split_whitespace

  /** The longest prefix of `s` that holds no whitespace. */
  function Word(s: string): (w: string)
    ensures |w| <= |s| && w == s[..|w|] && NoWhitespace(w)
    ensures |w| < |s| ==> IsWhitespace(s[|w|])
  {
    if s == [] || IsWhitespace(s[0]) then [] else [s[0]] + Word(s[1..])
  }

  /** `split_whitespace`: the maximal runs of non-whitespace characters, in order. */
  function SplitWhitespace(s: string): (r: seq<string>)
    ensures forall i :: 0 <= i < |r| ==> r[i] != [] && NoWhitespace(r[i])
    decreases |s|
  {
    if s == [] then []
    else if IsWhitespace(s[0]) then SplitWhitespace(s[1..])
    else
      var w := Word(s);
      [w] + SplitWhitespace(s[|w|..])
  }

  /** A string that starts with a non-whitespace character splits into at
      least one token, and the first token is the word it starts with. */
  lemma FirstToken(s: string)
    requires s != [] && !IsWhitespace(s[0])
    ensures SplitWhitespace(s) != [] && SplitWhitespace(s)[0] == Word(s)
    ensures Word(s) != [] && Word(s) == s[..|Word(s)|]
  {
  }

  /** A non-empty run without whitespace is a single token. */
  lemma SplitWord(w: string)
    requires w != [] && NoWhitespace(w)
    ensures SplitWhitespace(w) == [w]
  {
    assert Word(w) == w;
    assert w[|w|..] == [];
  }

  /** A word stops at the first whitespace character, whatever follows it. */
  lemma {:induction false} WordStopsAtWhitespace(a: string, c: char, b: string)
    requires IsWhitespace(c)
    ensures Word(a + [c] + b) == Word(a)
  {
    if a == [] {
      assert (a + [c] + b)[0] == c;
    } else if IsWhitespace(a[0]) {
      assert (a + [c] + b)[0] == a[0];
    } else {
      WordStopsAtWhitespace(a[1..], c, b);
      assert (a + [c] + b)[1..] == a[1..] + [c] + b;
    }
  }

  /** Splitting at a whitespace character: the tokens of `a + [c] + b` are
      the tokens of `a` followed by those of `b`. With `SplitWord` and the
      empty string, this fixes `SplitWhitespace` on every input: the tokens
      are exactly the maximal runs between whitespace. */
  lemma {:induction false} SplitAtWhitespace(a: string, c: char, b: string)
    requires IsWhitespace(c)
    ensures SplitWhitespace(a + [c] + b) == SplitWhitespace(a) + SplitWhitespace(b)
    decreases |a|
  {
    var s := a + [c] + b;
    if a == [] {
      assert s[1..] == b;
    } else if IsWhitespace(a[0]) {
      assert s[1..] == a[1..] + [c] + b;
      SplitAtWhitespace(a[1..], c, b);
    } else {
      var w := Word(a);
      WordStopsAtWhitespace(a, c, b);
      assert s[|w|..] == a[|w|..] + [c] + b;
      SplitAtWhitespace(a[|w|..], c, b);
      assert SplitWhitespace(s) == [w] + (SplitWhitespace(a[|w|..]) + SplitWhitespace(b));
    }
  }

  /** The non-whitespace characters of `s`, in order. */
  function Letters(s: string): string
  {
    if s == [] then [] else (if IsWhitespace(s[0]) then [] else [s[0]]) + Letters(s[1..])
  }

  /** Concatenation of a sequence of strings. */
  function Concat(ss: seq<string>): string
  {
    if ss == [] then [] else ss[0] + Concat(ss[1..])
  }

  lemma {:induction false} LettersOfWord(s: string)
    ensures Letters(s) == Word(s) + Letters(s[|Word(s)|..])
  {
    if s == [] || IsWhitespace(s[0]) {
      assert s[|Word(s)|..] == s;
    } else {
      var t := s[1..];
      LettersOfWord(t);
      assert Word(s) == [s[0]] + Word(t);
      assert Letters(s) == [s[0]] + Letters(t);
      assert t[|Word(t)|..] == s[|Word(s)|..];
    }
  }

  /** The tokens, put back together, are exactly the non-whitespace
      characters of the input: splitting loses and invents nothing. */
  lemma {:induction false} SplitKeepsLetters(s: string)
    ensures Concat(SplitWhitespace(s)) == Letters(s)
    decreases |s|
  {
    if s == [] {
    } else if IsWhitespace(s[0]) {
      SplitKeepsLetters(s[1..]);
    } else {
      var w := Word(s);
      SplitKeepsLetters(s[|w|..]);
      LettersOfWord(s);
      assert ([w] + SplitWhitespace(s[|w|..]))[1..] == SplitWhitespace(s[|w|..]);
    }
  }

  /** A trimmed, non-empty line always yields a first token, so `listen`'s
      `input[0]` is defined for every line the client read loop forwards. */
  lemma TrimmedLineHasToken(s: string)
    requires Trimmed(s) && s != []
    ensures |SplitWhitespace(s)| >= 1 && SplitWhitespace(s)[0] == Word(s)
  {
    FirstToken(s);
  }

  /** Whitespace-free text is left alone by `trim`, before or after lowercasing. */
  lemma TrimLowerToken(w: string)
    requires NoWhitespace(w)
    ensures Trim(Lower(w)) == Lower(w)
  {
    LowerKeepsWhitespace(w);
  }
}
